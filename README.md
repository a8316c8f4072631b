# Tenancy back end of a hostel manager, modelled in Dafny

The system manages a hostel's rooms, the beds in them, the tenants'
profiles and their monthly rent payments. It is an Express server over a
MongoDB store. The model covers:

- the four collections (`Bed`, `Room`, `UserProfile`, `Payment`), held by
  one store object (`Store.Db`) whose fields are the collections as maps
  from ObjectId to record;
- the room routes: creating a room with its beds, editing it (optionally
  replacing its beds), and deleting it with its beds;
- the allocation routes: the available rooms and beds, and allocating and
  releasing a bed inside a transaction;
- the profile routes: creating a profile without a bed, or with a bed and
  then its first payment (a create without a bed makes no payment), the
  `joinedDate` parser, and updating a profile (moving it between beds);
- the month arithmetic `addMonthsKeepDay` that every payment period uses;
- the first payment of a new tenant, the payment endpoints (next period,
  pay, and the lists), and the nightly billing job that creates pending
  payments up to a horizon;
- the product list's image URL rule of the admin panel
  (`components/ImageList.js`).

A transaction reads and writes a `Tenancy` value (beds, rooms, profiles).
Each transactional handler is a method that computes the new `Tenancy` on
the session's view. The method is proved equal to a specification
function. The result is then committed, or nothing is written when the
transaction aborts. The main invariant is `Housing.Consistent`:

- every bed's room exists;
- a bed is occupied exactly when a tenant holds it;
- the tenant's profile points back at that bed and its room;
- a room is "Full" exactly when none of its beds is free.

Allocation, release and creating a profile with a bed preserve it. A
create without a bed preserves it exactly when the body carries no
allocation fields (`Profiles.UnallocatedCreateConsistentIff`). A PUT
preserves it for the name, phone and `isActive` edits that the model
represents. Room creation, editing and deletion preserve it only under
stated conditions. The lemmas in `Rooms` say which conditions.

Dates are local calendar dates with a time of day. Time zones and
daylight-saving shifts are not modelled. A tenant who joined on 2024-01-15
and is swept on 2024-02-01 with 45 days ahead gets three periods:
2024-01-15, 2024-02-15 and 2024-03-15. The horizon is 2024-03-17, and the
loop runs while `nextStart <= horizon` (`Billing.JoinedMidJanuaryExample`).
Day steps are stated against `Calendar.DayNumber`. It counts the days from
1 January of year 0 with a closed Gregorian formula that does not use the
stepping functions.

## Model

| member | source | states |
|---|---|---|
| Calendar.DaysInMonth | nodd/server/src/utils/date.js:7 | The last day of a month is between 28 and 31, and February has 29 days exactly in a Gregorian leap year |
| Calendar.ClockMillisOrder | nodd/server/src/utils/date.js:6 | Field-wise order of two times of day agrees with their milliseconds since midnight, which lie within one day and determine the time |
| Calendar.LessEqIsFieldOrder | nodd/server/src/services/billingJob.js:34 | On normalised dates, the `<=` of two Date objects is the year, month, day, time order |
| Calendar.LessEqAntisymmetric | nodd/server/src/services/billingJob.js:34 | Two normalised dates that are each `<=` the other are equal |
| Calendar.AddMonthsKeepDay | nodd/server/src/utils/date.js:2-10 | The result is a valid date `months` months after the constructor's reading of the year (0..99 read as 1900..1999), so exactly `months` months later for any other year; it keeps the time of day; its day is the original day clamped to the length of the target month as the constructor reads it |
| Calendar.ShortYearMonthLength | nodd/server/src/utils/date.js:5-7 | Reading a year 0..99 as 19xx never lengthens a month, and changes a month's length only for February of year 0 |
| Calendar.AddMonthsYearMonth | nodd/server/src/utils/date.js:4-6 | The target month is `month + months` normalised into 0..11, with the quotient carried into the constructor's year, for negative steps too |
| Calendar.AddMonthsZero | nodd/server/src/utils/date.js:2-10 | Adding zero months gives back the same date for a year outside 0..99, and moves a year 0..99 to 19xx in the same month |
| Calendar.ShortYearJump | nodd/server/src/utils/date.js:5-7 | 0024-01-15 plus one month is 1924-02-15, and 29 February of year 0 plus zero months is 28 February 1900 |
| Calendar.AddOneMonth | nodd/server/src/utils/date.js:2-10 | For a year past 99, one month on is the next month (January of the next year after December) with the day clamped |
| Calendar.AddMonthIsLater | nodd/server/src/utils/date.js:2-10 | One month on is strictly later, so a payment period is never empty |
| Calendar.AddMonthsCompose | nodd/server/src/utils/date.js:2-10 | For a day that every month has (at most 28) and years outside 0..99, adding `a` then `b` months is adding `a + b` months |
| Calendar.AddMonthsDayNotLater | nodd/server/src/utils/date.js:8 | The day of month never moves forward |
| Calendar.FebruaryClamp | nodd/server/src/utils/date.js:7-8 | 31 January plus one month is 29 February in 2024 and 28 February in 2023 |
| Calendar.ClampedDayStaysClamped | nodd/server/src/utils/date.js:5-8 | Chained steps keep a clamped day (Jan 31, Feb 28, Mar 28), but a two-month step from Jan 31 gives Mar 31 |
| Calendar.YearCarry | nodd/server/src/utils/date.js:4-6 | December plus one is January of the next year; January minus one and March minus thirteen go back into the previous year |
| Calendar.FirstOfNextMonth | nodd/server/src/utils/date.js:7 | The result is day 1 of the month after, at the same time, one month index later |
| Calendar.AddDays | nodd/server/src/services/billingJob.js:13 | The horizon is a valid date with the same time of day whose day number is exactly `n` more than `now`'s, so never earlier than `now`, and equal to `now` for zero days |
| Calendar.AddDaysUnique | nodd/server/src/services/billingJob.js:13 | Any valid date at `now`'s time of day whose day number is `n` more than `now`'s is the horizon |
| Calendar.NextMonthDayNumber | nodd/server/src/utils/date.js:7 | The first of the next month lies as many days on as are left in the month, counted by the Gregorian day number |
| Calendar.MonthLength | nodd/server/src/utils/date.js:7 | The cumulative month table and the month lengths agree |
| Calendar.YearLength | nodd/server/src/utils/date.js:7 | The day-number formula gives a year 366 days exactly when it is a leap year |
| Calendar.DayNumberWithinYear | nodd/server/src/utils/date.js:7 | A valid date's day number lies between the first day of its year and the first day of the next |
| Calendar.DayNumberInjective | nodd/server/src/utils/date.js:7 | Two valid dates with the same day number are the same calendar day |
| Calendar.AddDaysExample | nodd/server/src/services/billingJob.js:13 | 45 days after 2024-02-01 02:00 is 2024-03-17 02:00 |
| Calendar.LocalDate | nodd/server/src/routes/userProfileRoutes.js:89 | `new Date(y, m, d)` gives a valid local midnight, and exactly that date when the month and day are in range |
| Calendar.LocalDateDayRollover | nodd/server/src/routes/userProfileRoutes.js:89 | An out-of-range day rolls into the next month: 31 February 2024 is 2 March 2024 |
| Calendar.LocalDateDayZeroAndShortYear | nodd/server/src/utils/date.js:7 | Day 0 is the last day of the previous month, and a year 0..99 means 1900..1999 |
| Models.NewBed | nodd/server/src/models/bed.js:5-8 | A created bed has the given label and room, and is free with no occupant |
| Models.NewRoom | nodd/server/src/models/room.js:5-8 | A created room has the given number and rent, no beds, and the default status "Available" |
| Models.NewProfile | nodd/server/src/models/userProfile.js:4-25 | A new profile keeps every field the client sent, the cached allocation fields included, with `isActive` defaulting to true |
| Models.ClearAllocation | nodd/server/src/routes/allocationRoutes.js:164-169 | All five cached allocation fields are unset, and every other field is kept |
| Models.ParseStatus | nodd/server/src/models/payment.js:10 | Exactly the three enum names are accepted, each as its own status |
| Models.ParseStatusName | nodd/server/src/models/payment.js:10 | Parsing a status's name gives back the status |
| Store.Db.constructor | nodd/server/src/models/room.js:1-13 | Stands for the Mongo connection to the four empty collections: an empty store satisfies the store invariant |
| Store.Db.FreshId | nodd/server/src/models/bed.js:1-13 | Stands for the ObjectId that Mongo gives a new document: it is distinct from every id in use, and the invariant is kept |
| Store.Db.Commit | nodd/server/src/routes/allocationRoutes.js:122 | A commit replaces the beds, rooms and profiles with the session's view, and leaves the payments alone |
| Store.Db.InsertPayment | nodd/server/src/services/paymentService.js:23 | A saved payment is stored under a new id, and nothing else changes |
| Housing.StatusFor | nodd/server/src/routes/allocationRoutes.js:114-120 | The status is "Full" exactly when the room has no free bed, and "Available" otherwise |
| Housing.FreeBedsUpdate | nodd/server/src/routes/allocationRoutes.js:114-117 | Rewriting one bed changes a room's free beds by that bed alone |
| Housing.StatusOtherRoom | nodd/server/src/routes/allocationRoutes.js:114-120 | Changing a bed of another room leaves a room's status unchanged |
| Housing.Assigned | nodd/server/src/routes/allocationRoutes.js:102-111 | The profile records the bed, its room and label, and the room's number and rent when the room exists; other fields are kept |
| Housing.AtMostOneBed | nodd/server/src/routes/allocationRoutes.js:92-94 | In a consistent store a tenant holds at most one bed |
| Housing.FullIffAllOccupied | nodd/server/src/routes/allocationRoutes.js:119-120 | In a consistent store a room is "Full" exactly when every one of its beds is occupied |
| Allocation.AvailableRooms | nodd/server/src/routes/allocationRoutes.js:14-47 | Exactly the rooms with a free bed are listed, each with its positive count of free beds |
| Allocation.AvailableBeds | nodd/server/src/routes/allocationRoutes.js:53-67 | Exactly the free beds are listed, restricted to the room when one is given |
| Allocation.AvailableRoomsHaveAvailableBeds | nodd/server/src/routes/allocationRoutes.js:39 | A room is listed as available exactly when `/available-beds` lists a bed in it |
| Allocation.AvailableRoomsMatchStatus | nodd/server/src/routes/allocationRoutes.js:39 | In a consistent store, the computed list agrees with the stored status: listed iff "Available", unlisted iff "Full" |
| Allocation.Allocate | nodd/server/src/routes/allocationRoutes.js:74-136 | Success exactly when both ids are given, the bed is free, the user holds no bed and the room exists. On success the bed is occupied by the user; the profile gains the bed, the room and their numbers and rent, and keeps every other field; the room keeps its number, rent and beds, and its status matches its free beds; nothing else changes |
| Allocation.Release | nodd/server/src/routes/allocationRoutes.js:142-190 | Success exactly when the bed is occupied by this user and its room exists. On success the bed is freed, the profile's allocation is cleared, the room keeps its number, rent and beds and becomes "Available", and nothing else changes |
| Allocation.AllocatePreservesConsistency | nodd/server/src/routes/allocationRoutes.js:97-122 | A committed allocation keeps the store consistent |
| Allocation.ReleasePreservesConsistency | nodd/server/src/routes/allocationRoutes.js:159-179 | A committed release keeps the store consistent |
| Allocation.ReleaseUndoesAllocate | nodd/server/src/routes/allocationRoutes.js:142-190 | In a consistent store, releasing a bed just allocated gives back the beds and profiles, with the room "Available" |
| Allocation.SecondAllocationFails | nodd/server/src/routes/allocationRoutes.js:87-89 | Allocating an occupied bed to any user fails with "bed occupied" |
| Allocation.CountFreeBeds | nodd/server/src/routes/allocationRoutes.js:114-117 | The loop counts exactly the free beds of the room |
| Allocation.AllocateBed | nodd/server/src/routes/allocationRoutes.js:74-136 | The store afterwards is what `Allocate` computes, or unchanged with that error |
| Allocation.ReleaseBed | nodd/server/src/routes/allocationRoutes.js:142-190 | The store afterwards is what `Release` computes, or unchanged with that error |
| Rooms.IdRange | nodd/server/src/routes/roomRoutes.js:22 | One id per label, consecutive from the first id, in label order |
| Rooms.NewBedsSpec | nodd/server/src/routes/roomRoutes.js:17-19 | Exactly the non-empty labels become stored beds, each free, in the room, under the id of its position |
| Rooms.NewBedsStep | nodd/server/src/routes/roomRoutes.js:17-19 | One more label adds its bed, or nothing when the label is empty |
| Rooms.WithoutBedsOf | nodd/server/src/routes/roomRoutes.js:75 | Exactly the beds of other rooms remain, unchanged, whatever the occupancy |
| Rooms.Edited | nodd/server/src/routes/roomRoutes.js:69-70 | Only a non-empty number and a non-zero rent overwrite; beds and status are kept |
| Rooms.CreateBeds | nodd/server/src/routes/roomRoutes.js:17-19 | The ids are consecutive new ids in label order; the stored beds gain exactly `NewBeds`; the result says whether every label was valid |
| Rooms.CreateRoom | nodd/server/src/routes/roomRoutes.js:10-29 | Fails on a missing field or a taken number with nothing stored. A missing bed list leaves a room without beds; a bad label leaves a room without beds and the valid beds. Otherwise the room lists its beds in label order |
| Rooms.EditRoom | nodd/server/src/routes/roomRoutes.js:61-91 | Not found, or the beds are replaced when labels are given. An empty number or a clash with another room's number is rejected on save, keeping the bed changes; otherwise the edited room is saved |
| Rooms.DeleteRoom | nodd/server/src/routes/roomRoutes.js:96-111 | Not found, or the room and every bed of it are deleted, occupied or not |
| Rooms.AddedBedsFree | nodd/server/src/routes/roomRoutes.js:17-19 | New beds add to the room's free beds and leave every other room's free beds alone |
| Rooms.NewBedsNonEmpty | nodd/server/src/routes/roomRoutes.js:17-19 | With valid labels, beds are created exactly when there are labels |
| Rooms.CreatedBedsInLabelOrder | nodd/server/src/routes/roomRoutes.js:17-23 | After a successful create, the room's bed list is exactly the created beds, in label order |
| Rooms.CreatedRoomOwnsOnlyItsBeds | nodd/server/src/routes/roomRoutes.js:17-23 | After a successful create, no other bed points at the new room |
| Rooms.OnlyRoomChanged | nodd/server/src/routes/roomRoutes.js:61-111 | A change confined to one room, its beds unoccupied, keeps the other rooms consistent |
| Rooms.CreateRoomConsistency | nodd/server/src/routes/roomRoutes.js:10-29 | A successful create keeps the store consistent exactly when it had at least one bed label |
| Rooms.BedListMissingBreaksStatus | nodd/server/src/routes/roomRoutes.js:14-18 | A room stored before a missing bed list aborts is "Available" with no free bed, which breaks consistency |
| Rooms.FailedBedLeavesUnlistedBeds | nodd/server/src/routes/roomRoutes.js:17-23 | When a later label fails, an earlier stored bed points at the room but is not in its bed list |
| Rooms.OccupiedBedDeleted | nodd/server/src/routes/roomRoutes.js:75 | Deleting an occupied bed leaves its tenant pointing at a bed that no longer exists |
| Rooms.EditConsistency | nodd/server/src/routes/roomRoutes.js:73-85 | Replacing a room's beds keeps the store consistent exactly when the room had beds and none was occupied |
| Rooms.EditKeepsConsistency | nodd/server/src/routes/roomRoutes.js:73-85 | Replacing the beds of a vacant room keeps the store consistent |
| Rooms.DeleteConsistency | nodd/server/src/routes/roomRoutes.js:96-111 | Deleting a room keeps the store consistent exactly when none of its beds is occupied |
| Rooms.DeleteKeepsConsistency | nodd/server/src/routes/roomRoutes.js:102-105 | Deleting a room with no occupied bed keeps the store consistent |
| Profiles.CreateWithBed | nodd/server/src/routes/userProfileRoutes.js:120-151 | Success exactly when the bed exists, is free and the profile is valid, each failure with its own error. On success the bed is occupied by the new profile, which copies the bed and room; only that room's status is recomputed |
| Profiles.AddUnallocatedKeepsConsistency | nodd/server/src/routes/userProfileRoutes.js:110-114 | Adding a profile that claims neither a bed nor a room keeps the store consistent |
| Profiles.UnallocatedCreateConsistentIff | nodd/server/src/routes/userProfileRoutes.js:110-114 | POST without `bedId` keeps a consistent store consistent exactly when the body carries neither `allocatedBed` nor `allocatedRoom` |
| Profiles.AssignedOverwritesAllocation | nodd/server/src/routes/userProfileRoutes.js:130-138 | When the room record exists, claiming a bed overwrites every allocation field the body carried |
| Profiles.CreateWithBedIsAllocate | nodd/server/src/routes/userProfileRoutes.js:120-151 | In a consistent store, create-with-bed equals inserting the profile with its client-sent allocation cleared and then `/allocate-bed` |
| Profiles.CreateWithBedPreservesConsistency | nodd/server/src/routes/userProfileRoutes.js:120-153 | A committed create-with-bed keeps the store consistent, whatever allocation fields the body carried |
| Profiles.CreateWithBedWithoutRoom | nodd/server/src/routes/userProfileRoutes.js:135-151 | With the room record missing, create-with-bed still commits, keeping the client's rent, where `/allocate-bed` fails |
| Profiles.CreateWithBedKeys | nodd/server/src/routes/userProfileRoutes.js:124-141 | Create-with-bed adds just the new profile, keeps its join date, and rewrites only existing beds and rooms |
| Profiles.CreateUnallocated | nodd/server/src/routes/userProfileRoutes.js:110-114 | A valid profile is stored under a new id and nothing else changes; an invalid one is rejected |
| Profiles.CreateInSession | nodd/server/src/routes/userProfileRoutes.js:120-151 | The transaction's steps compute exactly `CreateWithBed` |
| Profiles.CreateInTransaction | nodd/server/src/routes/userProfileRoutes.js:117-179 | Commits exactly what `CreateWithBed` computes; an abort leaves the store unchanged and no profile behind |
| Profiles.CreateProfile | nodd/server/src/routes/userProfileRoutes.js:109-188 | Without a bed, the profile alone is saved and no payment is made. With a bed, the transaction's outcome is stored and then one first payment is added, unless it throws |
| Profiles.Merged | nodd/server/src/routes/userProfileRoutes.js:282 | Present fields overwrite, absent ones keep the stored value, and no other field changes |
| Profiles.ReleaseStep | nodd/server/src/routes/userProfileRoutes.js:295-312 | A profile holding no bed, or the requested one, is left as it is; bed keys and the join date are always kept |
| Profiles.ClaimStep | nodd/server/src/routes/userProfileRoutes.js:315-338 | Success exactly when the requested bed exists and is free; it becomes occupied by the user; a failure says which check failed |
| Profiles.Update | nodd/server/src/routes/userProfileRoutes.js:260-379 | An unknown profile is not found; a success keeps the set of profiles and rooms and every other profile |
| Profiles.BedChange | nodd/server/src/routes/userProfileRoutes.js:287-361 | The bed-change transaction: on success the profile passes validation; a move leaves the requested bed occupied by the user and the profile holding it; a release leaves the profile holding no bed |
| Profiles.BedChangeKeepsKeys | nodd/server/src/routes/userProfileRoutes.js:288-361 | A bed change rewrites existing records only, and keeps every join date |
| Profiles.RecalculatedOne | nodd/server/src/routes/userProfileRoutes.js:350-361 | Recomputing one room is the one-room status update of the allocation routes |
| Profiles.RecalculatedNone | nodd/server/src/routes/userProfileRoutes.js:350-361 | Recomputing no room changes nothing |
| Profiles.MergeKeepsConsistency | nodd/server/src/routes/userProfileRoutes.js:281-285 | Changing only the descriptive fields the model merges (name, phone, `isActive`) keeps the store consistent |
| Profiles.UpdateWithoutBedOnlyMerges | nodd/server/src/routes/userProfileRoutes.js:281-285 | Without `bedId`, an update merges and saves the one profile, fails only on validation, and keeps consistency for the name, phone and `isActive` edits the model represents |
| Profiles.ReleaseWithoutBedOnlyMerges | nodd/server/src/routes/userProfileRoutes.js:295-312 | Asking to release when no bed is held is the same as no bed change |
| Profiles.ReleaseOnlyIsRelease | nodd/server/src/routes/userProfileRoutes.js:295-312 | In a consistent store, releasing through PUT is `/release-bed` of the held bed followed by the merge |
| Profiles.MoveWithoutBedSucceeds | nodd/server/src/routes/userProfileRoutes.js:315-338 | A profile without a bed moves to a bed exactly when `/allocate-bed` could allocate it |
| Profiles.MoveWithoutBedIsAllocate | nodd/server/src/routes/userProfileRoutes.js:315-361 | And then the move is `/allocate-bed` followed by the merge |
| Profiles.MoveFromBedSucceeds | nodd/server/src/routes/userProfileRoutes.js:295-338 | A move from a held bed to another succeeds exactly when allocation would succeed after releasing the held bed |
| Profiles.MoveIsReleaseThenAllocate | nodd/server/src/routes/userProfileRoutes.js:295-361 | And then the move is `/release-bed`, then `/allocate-bed`, then the merge, with the same room statuses |
| Profiles.UpdatePreservesConsistency | nodd/server/src/routes/userProfileRoutes.js:260-379 | A committed PUT whose body edits only the name, phone and `isActive` (the fields the model merges) keeps the store consistent |
| Profiles.MergedSavable | nodd/server/src/routes/userProfileRoutes.js:344-347 | A successful bed change implies the merged profile alone passes validation |
| Profiles.SameBedRejected | nodd/server/src/routes/userProfileRoutes.js:297 | As written, requesting the bed already held fails with "bed occupied" |
| Profiles.UpdateKeepingSameBed | nodd/server/src/routes/userProfileRoutes.js:297 | The corrected update agrees with the written one on every request except the held bed's |
| Profiles.SameBedKept | nodd/server/src/routes/userProfileRoutes.js:297 | Under the correction, re-requesting the held bed succeeds, keeps beds and rooms, and keeps consistency |
| Profiles.RecalcRooms | nodd/server/src/routes/userProfileRoutes.js:350-361 | The loop recomputes exactly the touched rooms that exist, and leaves every other room as it was |
| Profiles.ReleaseInSession | nodd/server/src/routes/userProfileRoutes.js:295-312 | The step on the session's variables computes `ReleaseStep` |
| Profiles.ClaimInSession | nodd/server/src/routes/userProfileRoutes.js:315-338 | The step on the session's variables computes `ClaimStep` |
| Profiles.ChangeBedInSession | nodd/server/src/routes/userProfileRoutes.js:288-361 | The transaction's steps compute exactly the bed change of `Update` |
| Profiles.UpdateProfile | nodd/server/src/routes/userProfileRoutes.js:260-379 | The store afterwards is what `Update` computes, or unchanged with that error; payments are untouched |
| JoinedDate.TrimStart | nodd/server/src/routes/userProfileRoutes.js:74 | The result is a suffix with only white space dropped, not starting with white space |
| JoinedDate.TrimEnd | nodd/server/src/routes/userProfileRoutes.js:74 | The result is a prefix with only white space dropped, not ending with white space |
| JoinedDate.TrimSpec | nodd/server/src/routes/userProfileRoutes.js:74 | `trim` keeps a middle stretch, drops only white space on either side, and neither end of what it keeps is white space |
| JoinedDate.TrimIdempotent | nodd/server/src/routes/userProfileRoutes.js:74 | Trimming twice is trimming once |
| JoinedDate.Numeral | nodd/server/src/routes/userProfileRoutes.js:83-88 | A decimal numeral is a non-empty string of digits; it has one digit exactly below 10 and at most two below 100, so it fits the pattern's day and month groups |
| JoinedDate.ValueOfNumeral | nodd/server/src/routes/userProfileRoutes.js:86-88 | `parseInt` of a numeral gives back its number |
| JoinedDate.Padded | nodd/server/src/routes/userProfileRoutes.js:83-88 | A zero-padded numeral is all digits and `parseInt` reads it back as the number; a year below 10000 padded to 4 has exactly four digits |
| JoinedDate.MatchDayMonthYear | nodd/server/src/routes/userProfileRoutes.js:83 | A match has 1-2 day digits, 1-2 month digits and 4 year digits, with `-` or `/` separators, and the captures are read as numbers |
| JoinedDate.DayMonthYearRoundTrip | nodd/server/src/routes/userProfileRoutes.js:83-88 | A date written day-sep-month-sep-year is matched and read back as that day, month and year |
| JoinedDate.DayMonthYearReading | nodd/server/src/routes/userProfileRoutes.js:84-90 | A match is read as local midnight of its groups with a zero-based month; no match gives no date |
| JoinedDate.ClockOf | nodd/server/src/routes/userProfileRoutes.js:97 | The milliseconds into a day become a valid time of day lying exactly that many milliseconds after midnight |
| JoinedDate.FromEpochMillis | nodd/server/src/routes/userProfileRoutes.js:97 | A date exactly for a time value within the JavaScript range, beyond it Invalid Date; the date is valid, lies `ms / 86400000` days after 1 January 1970 by day number, and its time of day is the value modulo a day |
| JoinedDate.FromEpochMillisUnique | nodd/server/src/routes/userProfileRoutes.js:97 | Any valid date with that day number and that time of day is the one `new Date(ms)` gives |
| JoinedDate.TimestampReading | nodd/server/src/routes/userProfileRoutes.js:94-98 | A non-empty all-digit string whose time value is in range is read as a timestamp, and nothing else is; the date lies that many whole days after the epoch, at the remaining milliseconds into the day |
| JoinedDate.ReadingsExclusive | nodd/server/src/routes/userProfileRoutes.js:83-97 | No string is read both as a day-month-year date and as a timestamp |
| JoinedDate.TimestampUnits | nodd/server/src/routes/userProfileRoutes.js:97 | Up to 10^12 a number counts seconds, above it milliseconds |
| JoinedDate.TimestampExample | nodd/server/src/routes/userProfileRoutes.js:94-97 | The timestamp branch reads "86400" as midnight of 2 January 1970 |
| JoinedDate.DayFirstExample | nodd/server/src/routes/userProfileRoutes.js:83-89 | "15/01/2024" is read as 15 January 2024 |
| JoinedDate.TwoDigitYearExample | nodd/server/src/routes/userProfileRoutes.js:88-89 | The day-month-year branch reads the year "0024" as 1924 |
| JoinedDate.IsoOrderNotMatched | nodd/server/src/routes/userProfileRoutes.js:83 | "2024-01-15" does not match the day-first pattern |
| JoinedDate.ParseJoinedDate | nodd/server/src/routes/userProfileRoutes.js:73-107 | The readings are tried in order: native parse, then day-month-year, then timestamp. The first valid one is kept; with none the field is dropped; an absent field stays absent |
| PaymentService.PendingPayment | nodd/server/src/services/billingJob.js:38-46 | A pending, unpaid, well-formed payment for the user and amount, starting at `start` and due at its period's end, which is later |
| PaymentService.PendingPaymentDetermined | nodd/server/src/services/billingJob.js:38-46 | A well-formed pending payment is fixed by its user, amount and period start |
| PaymentService.FirstPayment | nodd/server/src/services/paymentService.js:6-21 | The first period starts at `joinedDate`, or now when it is unset; the amount is the rent or 0; the payment is pending and well-formed |
| PaymentService.CreateFirstPaymentForUser | nodd/server/src/services/paymentService.js:6-25 | Adds exactly one new payment, the first payment, without any duplicate check; nothing else changes |
| PaymentService.Latest | nodd/server/src/services/billingJob.js:22 | A set of dates has a latest one exactly when it is non-empty |
| PaymentService.LatestUnique | nodd/server/src/services/billingJob.js:22 | The latest date of a set is unique |
| PaymentService.NextPeriodStart | nodd/server/src/services/billingJob.js:25-31 | The next start is valid and later than every period start the user already has |
| PaymentService.LatestPeriodStart | nodd/server/src/services/billingJob.js:22 | The scan finds the latest period start of the user, or none |
| PaymentService.NextStart | nodd/server/src/services/billingJob.js:25-31 | The computed start is one month after the latest start, or the anchor when there is none |
| Billing.Candidates | nodd/server/src/services/billingJob.js:34-52 | Every visited start is a valid date at or before the horizon, and none is visited exactly when the first start is past the horizon |
| Billing.CandidatesMonths | nodd/server/src/services/billingJob.js:51 | Each visited start is at least a month after the previous one, and for a first year past 99 the i-th start is exactly i months after the first, by month index |
| Billing.CandidatesIncrease | nodd/server/src/services/billingJob.js:34-52 | Visited starts strictly increase, so no start is visited twice |
| Billing.CandidatesContiguous | nodd/server/src/services/billingJob.js:38-51 | Each visited start is the previous period's end: periods leave no gap |
| Billing.CandidatesStopAtHorizon | nodd/server/src/services/billingJob.js:34 | The start after the last visited one is past the horizon, which is where the loop stops |
| Billing.CandidatesUnfold | nodd/server/src/services/billingJob.js:34-52 | A start not after the horizon is visited and the loop goes on one month later; a start past it ends the loop |
| Billing.ThreeStarts | nodd/server/src/services/billingJob.js:34-52 | Three starts a month apart, the last of them the final one not after the horizon, are exactly the visited starts |
| Billing.JoinedMidJanuaryExample | nodd/server/src/services/billingJob.js:13-52 | Joining 2024-01-15, swept 2024-02-01 02:00 with 45 days ahead, gives periods 01-15, 02-15 and 03-15 |
| Billing.ChainedFromPreviousStart | nodd/server/src/services/billingJob.js:51 | A start clamped in February stays clamped: Jan 31, Feb 28, Mar 28 |
| Billing.NoPaymentYet | nodd/server/src/services/billingJob.js:36-37 | Within a run, the existence check never finds a payment for a start the loop reaches |
| Billing.BillPeriod | nodd/server/src/services/billingJob.js:35-51 | One round always creates one well-formed pending payment and keeps the loop invariant |
| Billing.BillUser | nodd/server/src/services/billingJob.js:20-52 | The step adds exactly one pending payment per due start of the user and nothing else |
| Billing.RunBillingJob | nodd/server/src/services/billingJob.js:11-60 | The horizon is `aheadDays` later; each active, non-failing user gets exactly its due payments; others get none; `created` counts the new payments |
| Billing.SweptStarts | nodd/server/src/services/billingJob.js:16-52 | A billed user's starts gain exactly its due starts; every other user's starts are unchanged |
| Billing.DueAfterExisting | nodd/server/src/services/billingJob.js:25-34 | The due starts are after every start the user already had |
| Billing.LatestIsLastVisited | nodd/server/src/services/billingJob.js:34-51 | After the loop, the last visited start is the user's latest |
| Billing.NothingDueStaysSo | nodd/server/src/services/billingJob.js:34 | When nothing was due, the user's starts and next start are unchanged, and nothing is due afterwards either |
| Billing.NothingDueAfterLast | nodd/server/src/services/billingJob.js:30-34 | When starts were due, the next start after a sweep is past the horizon |
| Billing.NothingDueAfterSweep | nodd/server/src/services/billingJob.js:11-60 | After a sweep nothing is due for a user it billed |
| Billing.SweptPayment | nodd/server/src/services/billingJob.js:38-47 | Every added payment is for a billed user and a start that was due |
| Billing.SweepIdempotent | nodd/server/src/services/billingJob.js:35-37 | A second sweep over the same users, with the same `now` and the same horizon, adds nothing, provided every user skipped by the first sweep is skipped by the second too |
| Billing.SweepOfNothingDue | nodd/server/src/services/billingJob.js:34 | A sweep when nothing is due adds nothing |
| Billing.SweepKeepsStartsUnique | nodd/server/src/services/billingJob.js:35-37 | A sweep never gives a user two payments for the same period start, if there were none before |
| PaymentRoutes.CreateNextPaymentForUser | nodd/server/src/routes/paymentRoutes.js:11-31 | Fails exactly for an unknown user; otherwise adds one pending payment for the period after the latest one, or from the anchor |
| PaymentRoutes.NextPeriodContiguous | nodd/server/src/routes/paymentRoutes.js:14-18 | The next period starts where the latest one ends |
| PaymentRoutes.NextPaymentKeepsStartsUnique | nodd/server/src/routes/paymentRoutes.js:11-31 | Appending the next payment never duplicates a user's period start |
| PaymentRoutes.Pay | nodd/server/src/routes/paymentRoutes.js:104-146 | The payment afterwards is what the pay rule gives; an error writes nothing; the store stays well-formed |
| PaymentRoutes.PayOutcome | nodd/server/src/routes/paymentRoutes.js:104-137 | The pay rule: a success names a stored payment, changes only its status and `paidAt`, and sets the status the request names |
| PaymentRoutes.PayErrors | nodd/server/src/routes/paymentRoutes.js:113-126 | Each rejection happens exactly under its own condition, checked in the handler's order: missing status, unknown payment, already paid, status outside the enum, unparseable `paidAt` |
| PaymentRoutes.PaySucceeds | nodd/server/src/routes/paymentRoutes.js:129-137 | A success sets the requested status from any status; `paidAt` becomes the given date or now only for "paid", and is kept otherwise; user, amount, period and due date are untouched |
| PaymentRoutes.PayKeepsWellFormed | nodd/server/src/routes/paymentRoutes.js:129-137 | A paid payment always carries a payment date |
| PaymentRoutes.PayTwiceRejected | nodd/server/src/routes/paymentRoutes.js:124-126 | Paying twice is rejected, so the first payment date is kept |
| PaymentRoutes.UnpayKeepsPaidAt | nodd/server/src/routes/paymentRoutes.js:129-135 | Moving a paid payment back to pending keeps its old payment date |
| PaymentRoutes.DigitPrefix | nodd/server/src/routes/paymentRoutes.js:90 | The digit run `parseInt` reads is all digits, a prefix of the text, and followed by a non-digit or nothing |
| PaymentRoutes.DigitPrefixOf | nodd/server/src/routes/paymentRoutes.js:90 | Digits followed by a non-digit or nothing are exactly the digit run read |
| PaymentRoutes.ParseInt | nodd/server/src/routes/paymentRoutes.js:90 | `parseInt(s, 10)` gives a number exactly when `s`, after leading white space, starts with a digit or with a sign and a digit; a negative result comes only from a leading minus |
| PaymentRoutes.ParseSigned | nodd/server/src/routes/paymentRoutes.js:90 | After the white space: a number exactly when the text starts with a digit or with a sign and a digit; negative only after a minus |
| PaymentRoutes.ParseUnsigned | nodd/server/src/routes/paymentRoutes.js:90 | After the sign: a number exactly when the text starts with a digit |
| PaymentRoutes.UpcomingDays | nodd/server/src/routes/paymentRoutes.js:90 | `?days`, or "30" when it is absent or empty, read by `parseInt`: a day count exactly when `?days` is absent or empty, or starts (after white space) with a digit or a sign and a digit |
| PaymentRoutes.ParseIntDigits | nodd/server/src/routes/paymentRoutes.js:90 | `parseInt` of digits followed by any non-digit text ("7days") is the digits' value |
| PaymentRoutes.ParseUnsignedDigits | nodd/server/src/routes/paymentRoutes.js:90 | The unsigned reading of digits followed by a non-digit or nothing is their value |
| PaymentRoutes.ParseIntMinus | nodd/server/src/routes/paymentRoutes.js:90 | A leading minus sign negates what the text after it reads as ("-5" is -5) |
| PaymentRoutes.ParseIntNoDigits | nodd/server/src/routes/paymentRoutes.js:90 | Text without a single digit parses to NaN |
| PaymentRoutes.UpcomingDaysDefault | nodd/server/src/routes/paymentRoutes.js:90 | An absent or empty `?days` counts as 30 days |
| Calendar.SubDays | nodd/server/src/routes/paymentRoutes.js:93 | Going back `n` days gives a valid date at the same time of day whose day number is exactly `n` less, never later than the start |
| Calendar.PreviousMonthDayNumber | nodd/server/src/routes/paymentRoutes.js:93 | The last day of the previous month lies as many days back as the current day of the month |
| Calendar.ShiftDays | nodd/server/src/routes/paymentRoutes.js:93 | Moving by a signed number of days gives the same time of day at exactly that many days on by day number, forward for a positive count and back for a negative one |
| PaymentRoutes.UpcomingUpTo | nodd/server/src/routes/paymentRoutes.js:90-93 | The window end exists exactly when `?days` parses to an integer (NaN gives an Invalid Date, on which the query fails); it is at today's time of day, exactly that many days after today by day number, forward or back by the sign of `days` |
| PaymentRoutes.NonPositiveWindowEmpty | nodd/server/src/routes/paymentRoutes.js:90-94 | A `?days` of zero or less lists no payment, since the window ends at or before today |
| PaymentRoutes.PendingList | nodd/server/src/routes/paymentRoutes.js:35-46 | Exactly the user's pending payments due at or before today |
| PaymentRoutes.UpcomingList | nodd/server/src/routes/paymentRoutes.js:88-101 | Exactly the user's pending payments due after today and within the window |
| PaymentRoutes.PendingUpcomingDisjoint | nodd/server/src/routes/paymentRoutes.js:39-94 | No payment is both pending-overdue and upcoming |
| PaymentRoutes.PendingUpcomingCover | nodd/server/src/routes/paymentRoutes.js:39-94 | Together the two lists hold exactly the pending payments due at or before the later of today and the window's end |
| PaymentRoutes.PendingUpcomingCoverWindow | nodd/server/src/routes/paymentRoutes.js:39-94 | When the window does not end before today, the two lists hold exactly the pending payments due at or before the window's end |
| PaymentRoutes.EndOfDayOf | nodd/server/src/routes/paymentRoutes.js:63-70 | The same day at 23:59:59.999, the latest moment of that day |
| PaymentRoutes.SortIdsSpec | nodd/server/src/routes/paymentRoutes.js:75-76 | The result holds every id of the set exactly once, in order |
| PaymentRoutes.PaidIds | nodd/server/src/routes/paymentRoutes.js:49-72 | Exactly the user's paid payments paid within the bounds |
| PaymentRoutes.UserIds | nodd/server/src/routes/paymentRoutes.js:149-153 | Exactly the payments of the user, or all payments |
| PaymentRoutes.PaidListSpec | nodd/server/src/routes/paymentRoutes.js:49-83 | `/paid` lists each matching payment once, latest payment date first |
| PaymentRoutes.PaidOnLastDayListed | nodd/server/src/routes/paymentRoutes.js:63-70 | A payment made at any time on the `to` day is listed |
| PaymentRoutes.AllListSpec | nodd/server/src/routes/paymentRoutes.js:149-158 | `/` lists every payment of the user once, earliest due date first |
| ImageList.ImageUrl | node-mini-project/server/src/components/ImageList.js:5-12 | No URL exactly for a missing or empty path. A path starting with "http" is shown as it is; any other path is put under the origin, rooted or under "/uploads/" |
| ImageList.UrlEndsWithPath | node-mini-project/server/src/components/ImageList.js:10-12 | Every shown URL ends with the stored path, which is only ever prefixed |
| ImageList.ResolveIdempotent | node-mini-project/server/src/components/ImageList.js:10-12 | With an http origin, resolving a shown URL again gives the same URL |
| ImageList.UploadsAlias | node-mini-project/server/src/components/ImageList.js:12 | A bare file name and the same name under "/uploads/" show the same image |
| ImageList.HttpNamedFileNotUploaded | node-mini-project/server/src/components/ImageList.js:10-11 | As written, an uploaded file named "httpd.png" is shown as "httpd.png", not under the origin |
| ImageList.ImageUrlByScheme | node-mini-project/server/src/components/ImageList.js:5-12 | Corrected rule: only "http://" and "https://" paths are kept as they are, and every other path is served from the origin |
| ImageList.SchemeRuleServesHttpNamedFile | node-mini-project/server/src/components/ImageList.js:10-12 | Under the corrected rule "httpd.png" is served from /uploads/; both rules agree on full URLs and on paths not starting with "http" |

## Left out

- The Express plumbing: request parsing, HTTP status codes, JSON bodies and `populate` are not modelled. Each handler returns an error value or a success.
- File uploads and file cleanup (`deleteStoredFile`, multer) are left out. They are file-system I/O and do not touch the store.
- GET and DELETE of profiles, and GET of rooms, are left out. They only read or delete a single record.
- Concurrency is left out. Transactions are atomic in the model, and no two requests interleave.
- The native `Date` parse of `joinedDate` is an input to `JoinedDate.ParseJoinedDate`, because its accepted formats are implementation-defined.
- Time zones and daylight-saving shifts are left out, and dates are local calendar dates. `Calendar.AddDays` adds whole days, which is what adding n * 24 hours gives without a shift.
- Profiles.Merged: only the name, phone and `isActive` fields of a PUT body are merged. A body that carries allocation fields would overwrite them through `Object.assign`, and the model does not follow that.
- `batchSize`, the cron schedule and the job's logging are left out. The nightly run's 45 days ahead is the constant `NIGHTLY_AHEAD_DAYS`.
- Billing.RunBillingJob: a user whose step throws is skipped whole, as one of a set of failing users whose store reads fail before any save. In the job, a `p.save()` that throws part-way through a user's loop keeps the periods saved before it, and they are already counted in `created`. The model does not promise anything about such a partly billed user. The store's failures themselves are not modelled.
- Billing.RunBillingJob: the anchor `new Date()` for a user with neither payment nor join date is read once per user in the job. The model uses the job's `now` for it, so it ignores the milliseconds that pass during the sweep.
- The order of the cursor and of `Promise.all` is not modelled. Bed creation is modelled by its final state: ids in label order, and a bed with an empty label not stored.
- PaymentRoutes.UpcomingUpTo: a `?days` so large that the window end leaves the JavaScript time-value range is read as a valid date, not as an Invalid Date. A `?days` given more than once (an array) is not modelled.
- PaymentRoutes.SortIds: payments with equal sort keys may come out in any order. The store's tie order is not specified.
- Rooms.EditRoom: the only save validation modelled is a non-empty room number. The unique index is checked only when the number changed.
- The `createdAt` and `timestamps` fields are left out, because no modelled operation reads them.
- The JSX rendering of `ImageList` is left out. Only the URL rule is modelled, and the page's origin is a parameter.

## Findings

| source | as written | input that shows it | evidently intended | confidence | as-written member | corrected member |
|---|---|---|---|---|---|---|
| nodd/server/src/routes/userProfileRoutes.js:297 | A PUT whose `bedId` is the bed already held skips the release, then finds that bed occupied and aborts | A tenant holding bed B sends `bedId = B` with a new phone number | Keep the bed and apply the other edits | not executed; medium | Profiles.SameBedRejected | Profiles.SameBedKept |
| node-mini-project/server/src/components/ImageList.js:10-11 | Any path starting with the letters "http" is taken as an absolute URL | An uploaded image named `httpd.png` | Only "http://" and "https://" URLs are taken as they are | not executed; low to medium | ImageList.HttpNamedFileNotUploaded | ImageList.SchemeRuleServesHttpNamedFile |
