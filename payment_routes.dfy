/**
  The payment endpoints (routes/paymentRoutes.js): the helper that appends
  a user's next period, the pay transition, and the list queries.
*/
module PaymentRoutes {
  import opened Wrappers
  import opened Calendar
  import opened Models
  import opened Store
  import opened PaymentService
  import JoinedDate

  // ---------------------------------------------------------------------
  // createNextPaymentForUser
  // ---------------------------------------------------------------------

  /**
    `createNextPaymentForUser(userId)`: fails when the profile does not
    exist; otherwise appends a pending payment for the period after the
    latest one (or from the anchor when there is none). Nothing checks for
    an existing payment of that period.
  */
  method CreateNextPaymentForUser(db: Db, u: UserId, now: Date) returns (r: Result<PaymentId, Error>)
    requires db.Valid() && ValidDate(now)
    modifies db
    ensures db.Valid() && db.State() == old(db.State())
    ensures r.Failure? <==> u !in db.users
    ensures r.Failure? ==> r.error == UserNotFound && db.payments == old(db.payments)
    ensures r.Success? ==>
              && r.value !in old(db.payments)
              && db.payments == old(db.payments)[r.value :=
                   PendingPayment(u, RentDue(db.users[u].rentAmount), NextPeriodStart(old(db.payments), u, db.users[u], now))]
  {
    if u !in db.users {
      return Failure(UserNotFound);
    }
    var user := db.users[u];
    var nextStart := NextStart(db.payments, u, user, now);
    var nextEnd := AddMonthsKeepDay(nextStart, 1);
    var p := Payment(u, RentDue(user.rentAmount), nextStart, nextEnd, nextEnd, Pending, None);
    var id := db.InsertPayment(p);
    r := Success(id);
  }

  /**
    The next period follows the latest one without a gap: when the user
    has payments, the next start is the end of the latest period.
  */
  lemma NextPeriodContiguous(payments: map<PaymentId, Payment>, u: UserId, user: UserProfile, now: Date)
    requires AllWellFormed(payments) && WellDatedProfile(user) && ValidDate(now)
    requires StartsOf(payments, u) != {}
    ensures exists k | k in payments && payments[k].user == u ::
              && payments[k].periodEnd == NextPeriodStart(payments, u, user, now)
              && IsLatest(payments[k].periodStart, StartsOf(payments, u))
  {
    var last := Latest(StartsOf(payments, u)).value;
    var k :| k in payments && payments[k].user == u && payments[k].periodStart == last;
    assert payments[k].periodEnd == NextPeriodStart(payments, u, user, now);
  }

  /**
    The appended payment never duplicates a period of the user: its start
    is after every start the user had, so distinct (user, start) pairs stay
    distinct.
  */
  lemma NextPaymentKeepsStartsUnique(payments: map<PaymentId, Payment>, u: UserId, user: UserProfile, now: Date,
                                     id: PaymentId)
    requires AllWellFormed(payments) && WellDatedProfile(user) && ValidDate(now) && id !in payments
    requires forall k1, k2 | k1 in payments && k2 in payments && payments[k1].user == payments[k2].user
               && payments[k1].periodStart == payments[k2].periodStart :: k1 == k2
    ensures var p := payments[id := PendingPayment(u, RentDue(user.rentAmount), NextPeriodStart(payments, u, user, now))];
            forall k1, k2 | k1 in p && k2 in p && p[k1].user == p[k2].user && p[k1].periodStart == p[k2].periodStart :: k1 == k2
  {
    var next := NextPeriodStart(payments, u, user, now);
    var p := payments[id := PendingPayment(u, RentDue(user.rentAmount), next)];
    forall k | k in payments && payments[k].user == u ensures payments[k].periodStart != next {
      assert payments[k].periodStart in StartsOf(payments, u);
    }
    forall k1, k2 | k1 in p && k2 in p && p[k1].user == p[k2].user && p[k1].periodStart == p[k2].periodStart
      ensures k1 == k2
    {
      if k1 != id && k2 != id {
        assert p[k1] == payments[k1] && p[k2] == payments[k2];
      }
    }
  }

  // ---------------------------------------------------------------------
  // POST /:id/pay
  // ---------------------------------------------------------------------

  /**
    The `paidAt` of the request body: absent (or falsy), present but not a
    date `new Date` can read, or a date.
  */
  datatype PaidAtField = Absent | Unparseable | At(date: Date)

  /**
    What `POST /:id/pay` does to payment `id` given the body's `status`
    (None when it is missing or not a string) and `paidAt`: the checks in
    the handler's order, then the enum check and the date cast that
    Mongoose applies on save.
  */
  function PayOutcome(payments: map<PaymentId, Payment>, id: PaymentId, status: Option<string>,
                      paidAt: PaidAtField, now: Date): (r: Result<Payment, Error>)
    ensures r.Success? ==> id in payments && r.value == payments[id].(status := r.value.status, paidAt := r.value.paidAt)
    ensures r.Success? ==> status.Some? && StatusName(r.value.status) == status.value
  {
    if status.None? || status.value == "" then Failure(StatusRequired)
    else if id !in payments then Failure(PaymentNotFound)
    else if payments[id].status == Paid && status.value == "paid" then Failure(AlreadyPaid)
    else
      match ParseStatus(status.value)
      case None => Failure(InvalidStatus)
      case Some(Paid) =>
        (match paidAt
         case Absent => Success(payments[id].(status := Paid, paidAt := Some(now)))
         case Unparseable => Failure(InvalidPaidAt)
         case At(d) => Success(payments[id].(status := Paid, paidAt := Some(d))))
      case Some(s) => Success(payments[id].(status := s))
  }

  /**
    The handler: validates, loads the payment, changes `status` (and
    `paidAt` when the new status is "paid") in place and saves it. On any
    error nothing is written.
  */
  method Pay(db: Db, id: PaymentId, status: Option<string>, paidAt: PaidAtField, now: Date)
    returns (r: Result<Payment, Error>)
    requires db.Valid() && ValidDate(now) && (paidAt.At? ==> ValidDate(paidAt.date))
    modifies db
    ensures db.Valid() && db.State() == old(db.State())
    ensures r == PayOutcome(old(db.payments), id, status, paidAt, now)
    ensures db.payments == if r.Success? then old(db.payments)[id := r.value] else old(db.payments)
  {
    if status.None? || status.value == "" {
      return Failure(StatusRequired);
    }
    var provided := status.value;
    if id !in db.payments {
      return Failure(PaymentNotFound);
    }
    var payment := db.payments[id];
    if payment.status == Paid && provided == "paid" {
      return Failure(AlreadyPaid);
    }
    var parsed := ParseStatus(provided);
    if parsed.None? {
      return Failure(InvalidStatus);
    }
    payment := payment.(status := parsed.value);
    if provided == "paid" {
      if paidAt.Unparseable? {
        return Failure(InvalidPaidAt);
      }
      payment := payment.(paidAt := Some(if paidAt.At? then paidAt.date else now));
    }
    db.payments := db.payments[id := payment];
    r := Success(payment);
  }

  /** Every rejection of the pay endpoint, each for its own reason. */
  lemma PayErrors(payments: map<PaymentId, Payment>, id: PaymentId, status: Option<string>, paidAt: PaidAtField, now: Date)
    ensures (PayOutcome(payments, id, status, paidAt, now) == Failure(StatusRequired))
        <==> status.None? || status.value == ""
    ensures (PayOutcome(payments, id, status, paidAt, now) == Failure(PaymentNotFound))
        <==> status.Some? && status.value != "" && id !in payments
    ensures (PayOutcome(payments, id, status, paidAt, now) == Failure(AlreadyPaid))
        <==> status == Some("paid") && id in payments && payments[id].status == Paid
    ensures (PayOutcome(payments, id, status, paidAt, now) == Failure(InvalidStatus))
        <==> status.Some? && status.value != "" && id in payments && ParseStatus(status.value).None?
    ensures (PayOutcome(payments, id, status, paidAt, now) == Failure(InvalidPaidAt))
        <==> status == Some("paid") && id in payments && payments[id].status != Paid && paidAt.Unparseable?
  {
  }

  /**
    A successful pay overwrites the status with the requested one, from any
    status (cancelled and paid payments included). `paidAt` becomes the
    body's date, or now, only for "paid"; otherwise it stays as it was. The
    period, amount and user are untouched.
  */
  lemma PaySucceeds(payments: map<PaymentId, Payment>, id: PaymentId, status: Option<string>, paidAt: PaidAtField, now: Date)
    requires PayOutcome(payments, id, status, paidAt, now).Success?
    ensures var p := PayOutcome(payments, id, status, paidAt, now).value;
            && id in payments && status.Some?
            && StatusName(p.status) == status.value
            && (p.status == Paid ==> p.paidAt == Some(if paidAt.At? then paidAt.date else now))
            && (p.status != Paid ==> p.paidAt == payments[id].paidAt)
            && p.user == payments[id].user && p.amount == payments[id].amount
            && p.periodStart == payments[id].periodStart && p.periodEnd == payments[id].periodEnd
            && p.dueDate == payments[id].dueDate
  {
  }

  /** Paying keeps a stored payment well-formed: a paid one always carries its payment date. */
  lemma PayKeepsWellFormed(payments: map<PaymentId, Payment>, id: PaymentId, status: Option<string>, paidAt: PaidAtField, now: Date)
    requires AllWellFormed(payments) && ValidDate(now) && (paidAt.At? ==> ValidDate(paidAt.date))
    requires PayOutcome(payments, id, status, paidAt, now).Success?
    ensures AllWellFormed(payments[id := PayOutcome(payments, id, status, paidAt, now).value])
  {
    PaySucceeds(payments, id, status, paidAt, now);
  }

  /** Paying a payment as "paid" a second time is rejected, so the first `paidAt` is kept. */
  lemma PayTwiceRejected(payments: map<PaymentId, Payment>, id: PaymentId, paidAt1: PaidAtField, paidAt2: PaidAtField,
                         now1: Date, now2: Date)
    requires PayOutcome(payments, id, Some("paid"), paidAt1, now1).Success?
    ensures var paid := payments[id := PayOutcome(payments, id, Some("paid"), paidAt1, now1).value];
            PayOutcome(paid, id, Some("paid"), paidAt2, now2) == Failure(AlreadyPaid)
  {
  }

  /** Moving a paid payment back to pending is accepted and keeps the old payment date. */
  lemma UnpayKeepsPaidAt(payments: map<PaymentId, Payment>, id: PaymentId, paidAt: PaidAtField, now: Date)
    requires id in payments && payments[id].status == Paid
    ensures PayOutcome(payments, id, Some("pending"), paidAt, now)
              == Success(payments[id].(status := Pending))
  {
  }

  // ---------------------------------------------------------------------
  // GET /pending, /upcoming, /paid, /
  // ---------------------------------------------------------------------

  const DEFAULT_UPCOMING_DAYS: nat := 30

  /** `?userId=` restricts a list to one user; absent, every user matches. */
  predicate ForUser(p: Payment, userId: Option<UserId>) {
    userId.None? || p.user == userId.value
  }

  /** `/pending`: pending and due at or before today (overdue included). */
  predicate IsPendingDue(p: Payment, today: Date) {
    p.status == Pending && LessEq(p.dueDate, today)
  }

  /** `/upcoming`: pending and due after today, at or before `upto`. */
  predicate IsUpcoming(p: Payment, today: Date, upto: Date) {
    p.status == Pending && Less(today, p.dueDate) && LessEq(p.dueDate, upto)
  }

  // ---------------------------------------------------------------------
  // parseInt(req.query.days || "30", 10)
  // ---------------------------------------------------------------------

  /** The longest run of digits at the start of `s`. */
  function DigitPrefix(s: string): (p: string)
    ensures JoinedDate.AllDigits(p) && |p| <= |s| && p == s[..|p|]
    ensures |p| < |s| ==> !JoinedDate.IsDigit(s[|p|])
  {
    if s != [] && JoinedDate.IsDigit(s[0]) then [s[0]] + DigitPrefix(s[1..]) else []
  }

  /** The digit run of a string that is digits followed by a non-digit (or nothing) is those digits. */
  lemma {:induction false} DigitPrefixOf(digits: string, rest: string)
    requires JoinedDate.AllDigits(digits)
    requires rest == [] || !JoinedDate.IsDigit(rest[0])
    ensures DigitPrefix(digits + rest) == digits
  {
    if digits != [] {
      assert (digits + rest)[1..] == digits[1..] + rest;
      DigitPrefixOf(digits[1..], rest);
    } else {
      assert digits + rest == rest;
    }
  }

  /**
    `parseInt(s, 10)`: leading white space is skipped, one optional `+` or
    `-` is read, then the longest run of decimal digits; when there is no
    digit there the result is NaN (`None`).
  */
  function ParseInt(s: string): (r: Option<int>)
    ensures r.Some? <==> StartsNumber(JoinedDate.TrimStart(s))
    ensures r.Some? && r.value < 0 ==> JoinedDate.TrimStart(s)[0] == '-'
  {
    ParseSigned(JoinedDate.TrimStart(s))
  }

  /** `t` begins with a digit, or with a sign followed by a digit. */
  predicate StartsNumber(t: string) {
    (t != [] && JoinedDate.IsDigit(t[0]))
    || (|t| >= 2 && (t[0] == '-' || t[0] == '+') && JoinedDate.IsDigit(t[1]))
  }

  /** `parseInt` after the white space: an optional sign, then the digits. */
  function ParseSigned(t: string): (r: Option<int>)
    ensures r.Some? <==> StartsNumber(t)
    ensures r.Some? && r.value < 0 ==> t[0] == '-'
  {
    if t != [] && t[0] == '-' then
      match ParseUnsigned(t[1..])
      case None => None
      case Some(v) => Some(-(v as int))
    else if t != [] && t[0] == '+' then ParseUnsigned(t[1..])
    else ParseUnsigned(t)
  }

  /** The value of the digit run at the start of `u`; NaN when there is none. */
  function ParseUnsigned(u: string): (r: Option<nat>)
    ensures r.Some? <==> u != [] && JoinedDate.IsDigit(u[0])
  {
    var digits := DigitPrefix(u);
    if digits == [] then None else Some(JoinedDate.Value(digits))
  }

  /** `parseInt` reads a run of digits as its value, whatever non-digit text follows it ("7days" is 7). */
  lemma ParseIntDigits(digits: string, rest: string)
    requires JoinedDate.AllDigits(digits) && digits != []
    requires rest == [] || !JoinedDate.IsDigit(rest[0])
    ensures ParseInt(digits + rest) == Some(JoinedDate.Value(digits) as int)
  {
    ParseUnsignedDigits(digits, rest);
    NoLeadingSpace(digits + rest);
  }

  /** The unsigned reading of digits followed by a non-digit (or nothing) is their value. */
  lemma ParseUnsignedDigits(digits: string, rest: string)
    requires JoinedDate.AllDigits(digits) && digits != []
    requires rest == [] || !JoinedDate.IsDigit(rest[0])
    ensures ParseUnsigned(digits + rest) == Some(JoinedDate.Value(digits))
  {
    DigitPrefixOf(digits, rest);
  }

  /** A leading minus sign negates what the text after it reads as ("-5" is -5). */
  lemma ParseIntMinus(u: string, v: nat)
    requires ParseUnsigned(u) == Some(v)
    ensures ParseInt("-" + u) == Some(-(v as int))
  {
    NoLeadingSpace("-" + u);
    assert ("-" + u)[1..] == u;
  }

  /** `trim`-start leaves a string alone that begins with a sign or a digit. */
  lemma NoLeadingSpace(s: string)
    requires s != [] && (s[0] == '-' || JoinedDate.IsDigit(s[0]))
    ensures JoinedDate.TrimStart(s) == s
  {
    assert !JoinedDate.IsJsSpace(s[0]);
  }

  /** A string without a single digit is NaN. */
  lemma ParseIntNoDigits(s: string)
    requires forall i | 0 <= i < |s| :: !JoinedDate.IsDigit(s[i])
    ensures ParseInt(s) == None
  {
    var t := JoinedDate.TrimStart(s);
    var unsigned := if t != [] && (t[0] == '-' || t[0] == '+') then t[1..] else t;
    if unsigned != [] {
      assert unsigned == s[|s| - |unsigned|..];
      assert unsigned[0] == s[|s| - |unsigned|];
    }
  }

  /** `req.query.days || "30"`: an absent or empty `?days` is replaced by "30" before it is parsed. */
  function UpcomingDays(days: Option<string>): (n: Option<int>)
    ensures n.Some? <==> days.None? || days.value == "" || StartsNumber(JoinedDate.TrimStart(days.value))
  {
    NoLeadingSpace("30");
    ParseInt(if days.None? || days.value == "" then "30" else days.value)
  }

  /** Without `?days` the window is 30 days long. */
  lemma UpcomingDaysDefault()
    ensures UpcomingDays(None) == Some(DEFAULT_UPCOMING_DAYS)
    ensures UpcomingDays(Some("")) == Some(DEFAULT_UPCOMING_DAYS)
  {
    assert JoinedDate.Value("30") == 30 by {
      assert "30"[..1] == "3";
    }
    ParseIntDigits("30", "");
    assert "30" + "" == "30";
  }

  /**
    The end of the `/upcoming` window, `new Date(today.getTime() + days *
    86400000)`: `days` days after today, at today's time of day, for a
    negative `days` too; a `?days` that parses to NaN gives an Invalid Date
    (`None`), on which the query fails.
  */
  function UpcomingUpTo(today: Date, days: Option<string>): (upto: Option<Date>)
    requires ValidDate(today)
    ensures upto.Some? <==> UpcomingDays(days).Some?
    ensures upto.Some? ==> ValidDate(upto.value) && upto.value.time == today.time
    ensures upto.Some? ==> DayNumber(upto.value) == DayNumber(today) + UpcomingDays(days).value
  {
    match UpcomingDays(days)
    case None => None
    case Some(n) => Some(ShiftDays(today, n))
  }

  function PendingList(payments: map<PaymentId, Payment>, userId: Option<UserId>, today: Date): (ids: set<PaymentId>)
    ensures forall k :: k in ids <==> k in payments && ForUser(payments[k], userId) && IsPendingDue(payments[k], today)
  {
    set k | k in payments && ForUser(payments[k], userId) && IsPendingDue(payments[k], today)
  }

  function UpcomingList(payments: map<PaymentId, Payment>, userId: Option<UserId>, today: Date, upto: Date): (ids: set<PaymentId>)
    ensures forall k :: k in ids <==> k in payments && ForUser(payments[k], userId) && IsUpcoming(payments[k], today, upto)
  {
    set k | k in payments && ForUser(payments[k], userId) && IsUpcoming(payments[k], today, upto)
  }

  /** A window of zero or fewer days lists nothing: no due date is after today and at or before `upto`. */
  lemma NonPositiveWindowEmpty(payments: map<PaymentId, Payment>, userId: Option<UserId>, today: Date, days: Option<string>)
    requires ValidDate(today)
    requires UpcomingDays(days).Some? && UpcomingDays(days).value <= 0
    ensures UpcomingList(payments, userId, today, UpcomingUpTo(today, days).value) == {}
  {
    var upto := UpcomingUpTo(today, days).value;
    assert LessEq(upto, today);
    forall k | k in payments ensures !IsUpcoming(payments[k], today, upto) {
    }
  }

  /** `/pending` and `/upcoming` never list the same payment. */
  lemma PendingUpcomingDisjoint(payments: map<PaymentId, Payment>, userId: Option<UserId>, today: Date, upto: Date)
    ensures PendingList(payments, userId, today) * UpcomingList(payments, userId, today, upto) == {}
  {
    forall k | k in PendingList(payments, userId, today) ensures k !in UpcomingList(payments, userId, today, upto) {
    }
  }

  /**
    Together they list exactly the pending payments due at or before the
    later of today and `upto`; when `upto` is not before today, that is
    every pending payment due at or before `upto`.
  */
  lemma PendingUpcomingCover(payments: map<PaymentId, Payment>, userId: Option<UserId>, today: Date, upto: Date)
    ensures PendingList(payments, userId, today) + UpcomingList(payments, userId, today, upto)
         == set k | k in payments && ForUser(payments[k], userId) && payments[k].status == Pending
                      && (LessEq(payments[k].dueDate, today) || LessEq(payments[k].dueDate, upto))
  {
  }

  /** With a window that does not end before today, the two lists cover exactly the pending payments due by its end. */
  lemma PendingUpcomingCoverWindow(payments: map<PaymentId, Payment>, userId: Option<UserId>, today: Date, upto: Date)
    requires LessEq(today, upto)
    ensures PendingList(payments, userId, today) + UpcomingList(payments, userId, today, upto)
         == set k | k in payments && ForUser(payments[k], userId) && payments[k].status == Pending
                      && LessEq(payments[k].dueDate, upto)
  {
    PendingUpcomingCover(payments, userId, today, upto);
  }

  /**
    The bounds of `/paid`: `from` as given and `to` moved to the end of its
    day; a bound that is absent or does not parse is None and not applied.
  */
  datatype PaidRange = PaidRange(from: Option<Date>, to: Option<Date>)

  /** `toD.setHours(23, 59, 59, 999)`: the last millisecond of the `to` day. */
  function EndOfDayOf(d: Date): (e: Date)
    requires ValidDate(d)
    ensures ValidDate(e) && LessEq(d, e)
    ensures forall x | ValidDate(x) && x.year == d.year && x.month == d.month && x.day == d.day :: LessEq(x, e)
  {
    var e := d.(time := EndOfDay);
    forall x | ValidDate(x) && x.year == d.year && x.month == d.month && x.day == d.day ensures LessEq(x, e) {
      ClockMillisOrder(x.time, EndOfDay);
    }
    ClockMillisOrder(d.time, EndOfDay);
    e
  }

  /** `/paid`: paid, and paid within the applied bounds. */
  predicate IsPaidInRange(p: Payment, range: PaidRange)
    requires range.to.Some? ==> ValidDate(range.to.value)
  {
    && p.status == Paid
    && (range.from.Some? ==> p.paidAt.Some? && LessEq(range.from.value, p.paidAt.value))
    && (range.to.Some? ==> p.paidAt.Some? && LessEq(p.paidAt.value, EndOfDayOf(range.to.value)))
  }

  /** The sort orders of the lists: `/` by `dueDate` ascending, `/paid` by `paidAt` descending. */
  datatype SortOrder = DueDateAscending | PaidAtDescending

  /**
    The position key of a payment in a sort order, smaller first. A payment
    without `paidAt` never reaches `/paid` (a paid payment always has one).
  */
  function Rank(p: Payment, order: SortOrder): int {
    match order
    case DueDateAscending => Stamp(p.dueDate)
    case PaidAtDescending => if p.paidAt.Some? then -Stamp(p.paidAt.value) else 0
  }

  predicate SortedBy(payments: map<PaymentId, Payment>, s: seq<PaymentId>, order: SortOrder)
    requires forall i | 0 <= i < |s| :: s[i] in payments
  {
    forall i, j | 0 <= i < j < |s| :: Rank(payments[s[i]], order) <= Rank(payments[s[j]], order)
  }

  /** No id occurs twice in `s`. */
  predicate Distinct(s: seq<PaymentId>) {
    forall i, j | 0 <= i < j < |s| :: s[i] != s[j]
  }

  /** `k` inserted into `s` before the first element ranked after it. */
  function Insert(payments: map<PaymentId, Payment>, k: PaymentId, s: seq<PaymentId>, order: SortOrder): (t: seq<PaymentId>)
    requires k in payments && forall i | 0 <= i < |s| :: s[i] in payments
    ensures forall i | 0 <= i < |t| :: t[i] in payments
  {
    if s == [] then [k]
    else if Rank(payments[k], order) <= Rank(payments[s[0]], order) then [k] + s
    else [s[0]] + Insert(payments, k, s[1..], order)
  }

  /** The first element of a sorted list is ranked no later than any element. */
  lemma SortedHead(payments: map<PaymentId, Payment>, s: seq<PaymentId>, order: SortOrder)
    requires s != [] && (forall i | 0 <= i < |s| :: s[i] in payments) && SortedBy(payments, s, order)
    ensures forall x | x in s :: x in payments && Rank(payments[s[0]], order) <= Rank(payments[x], order)
  {
    forall x | x in s ensures x in payments && Rank(payments[s[0]], order) <= Rank(payments[x], order) {
      var j :| 0 <= j < |s| && s[j] == x;
    }
  }

  /** Inserting a new id into a sorted list without repeats keeps it sorted and without repeats, and adds just that id. */
  lemma {:induction false} InsertSpec(payments: map<PaymentId, Payment>, k: PaymentId, s: seq<PaymentId>, order: SortOrder)
    requires k in payments && forall i | 0 <= i < |s| :: s[i] in payments
    requires SortedBy(payments, s, order) && Distinct(s) && k !in s
    ensures |Insert(payments, k, s, order)| == |s| + 1
    ensures forall x :: x in Insert(payments, k, s, order) <==> x == k || x in s
    ensures Distinct(Insert(payments, k, s, order))
    ensures SortedBy(payments, Insert(payments, k, s, order), order)
  {
    if s != [] && Rank(payments[s[0]], order) < Rank(payments[k], order) {
      var tail := s[1..];
      InsertSpec(payments, k, tail, order);
      assert forall x :: x in s <==> x == s[0] || x in tail;
      SortedHead(payments, s, order);
      ConsSorted(payments, s[0], Insert(payments, k, tail, order), order);
    } else if s != [] {
      SortedHead(payments, s, order);
      ConsSorted(payments, k, s, order);
    }
  }

  /** Putting an id ranked no later than every element, and not among them, in front keeps a list sorted and without repeats. */
  lemma ConsSorted(payments: map<PaymentId, Payment>, x: PaymentId, s: seq<PaymentId>, order: SortOrder)
    requires x in payments && forall i | 0 <= i < |s| :: s[i] in payments
    requires SortedBy(payments, s, order) && Distinct(s) && x !in s
    requires forall y | y in s :: Rank(payments[x], order) <= Rank(payments[y], order)
    ensures SortedBy(payments, [x] + s, order) && Distinct([x] + s)
  {
    var t := [x] + s;
    forall i, j | 0 <= i < j < |t| ensures Rank(payments[t[i]], order) <= Rank(payments[t[j]], order) && t[i] != t[j] {
      if i == 0 {
        assert t[j] in s;
      } else {
        assert t[i] == s[i - 1] && t[j] == s[j - 1];
      }
    }
  }

  /**
    The ids of `ids` in list order. Payments of equal rank may come in any
    order, as Mongo's sort does not fix one.
  */
  ghost function SortIds(payments: map<PaymentId, Payment>, ids: set<PaymentId>, order: SortOrder): (s: seq<PaymentId>)
    requires ids <= payments.Keys
    ensures forall i | 0 <= i < |s| :: s[i] in payments
    decreases ids
  {
    if ids == {} then []
    else
      var k :| k in ids;
      Insert(payments, k, SortIds(payments, ids - {k}, order), order)
  }

  /** The sorted list holds every id of the set exactly once, ranked in order. */
  lemma {:induction false} SortIdsSpec(payments: map<PaymentId, Payment>, ids: set<PaymentId>, order: SortOrder)
    requires ids <= payments.Keys
    ensures |SortIds(payments, ids, order)| == |ids|
    ensures forall x :: x in SortIds(payments, ids, order) <==> x in ids
    ensures Distinct(SortIds(payments, ids, order))
    ensures SortedBy(payments, SortIds(payments, ids, order), order)
    decreases ids
  {
    if ids != {} {
      var k :| k in ids && SortIds(payments, ids, order) == Insert(payments, k, SortIds(payments, ids - {k}, order), order);
      SortIdsSpec(payments, ids - {k}, order);
      InsertSpec(payments, k, SortIds(payments, ids - {k}, order), order);
    }
  }

  /** `/paid`: the paid payments within the bounds, latest payment date first. */
  ghost function PaidList(payments: map<PaymentId, Payment>, userId: Option<UserId>, range: PaidRange): (s: seq<PaymentId>)
    requires range.to.Some? ==> ValidDate(range.to.value)
  {
    SortIds(payments, PaidIds(payments, userId, range), PaidAtDescending)
  }

  /** The query of `/paid`, before sorting. */
  function PaidIds(payments: map<PaymentId, Payment>, userId: Option<UserId>, range: PaidRange): (ids: set<PaymentId>)
    requires range.to.Some? ==> ValidDate(range.to.value)
    ensures ids <= payments.Keys
  {
    set k | k in payments && ForUser(payments[k], userId) && IsPaidInRange(payments[k], range)
  }

  /** `/`: every payment of the user (or all), earliest due date first. */
  ghost function AllList(payments: map<PaymentId, Payment>, userId: Option<UserId>): (s: seq<PaymentId>)
  {
    SortIds(payments, UserIds(payments, userId), DueDateAscending)
  }

  /** The query of `/`, before sorting. */
  function UserIds(payments: map<PaymentId, Payment>, userId: Option<UserId>): (ids: set<PaymentId>)
    ensures ids <= payments.Keys
  {
    set k | k in payments && ForUser(payments[k], userId)
  }

  /**
    `/paid` lists exactly the paid payments of the user within the bounds,
    each once, the most recently paid first; a bound that did not parse
    does not filter.
  */
  lemma PaidListSpec(payments: map<PaymentId, Payment>, userId: Option<UserId>, range: PaidRange)
    requires AllWellFormed(payments)
    requires range.to.Some? ==> ValidDate(range.to.value)
    ensures forall k :: k in PaidList(payments, userId, range) <==>
              k in payments && ForUser(payments[k], userId) && IsPaidInRange(payments[k], range)
    ensures Distinct(PaidList(payments, userId, range))
    ensures forall i, j | 0 <= i < j < |PaidList(payments, userId, range)| ::
              LessEq(payments[PaidList(payments, userId, range)[j]].paidAt.value,
                     payments[PaidList(payments, userId, range)[i]].paidAt.value)
  {
    var ids := PaidIds(payments, userId, range);
    SortIdsSpec(payments, ids, PaidAtDescending);
    var s := SortIds(payments, ids, PaidAtDescending);
    forall i | 0 <= i < |s| ensures payments[s[i]].paidAt.Some? {
      assert s[i] in ids;
      assert WellFormedPayment(payments[s[i]]);
    }
    forall i, j | 0 <= i < j < |s| ensures LessEq(payments[s[j]].paidAt.value, payments[s[i]].paidAt.value) {
      assert Rank(payments[s[i]], PaidAtDescending) <= Rank(payments[s[j]], PaidAtDescending);
    }
  }

  /** A payment paid on the `to` day itself, at any time of that day, is listed. */
  lemma PaidOnLastDayListed(payments: map<PaymentId, Payment>, k: PaymentId, to: Date)
    requires AllWellFormed(payments) && ValidDate(to)
    requires k in payments && payments[k].status == Paid
    requires payments[k].paidAt.value.year == to.year && payments[k].paidAt.value.month == to.month
    requires payments[k].paidAt.value.day == to.day
    ensures k in PaidList(payments, None, PaidRange(None, Some(to)))
  {
    PaidListSpec(payments, None, PaidRange(None, Some(to)));
  }

  /** `/` lists every payment of the user once, the earliest due date first. */
  lemma AllListSpec(payments: map<PaymentId, Payment>, userId: Option<UserId>)
    ensures forall k :: k in AllList(payments, userId) <==> k in payments && ForUser(payments[k], userId)
    ensures Distinct(AllList(payments, userId))
    ensures forall i, j | 0 <= i < j < |AllList(payments, userId)| ::
              LessEq(payments[AllList(payments, userId)[i]].dueDate, payments[AllList(payments, userId)[j]].dueDate)
  {
    SortIdsSpec(payments, UserIds(payments, userId), DueDateAscending);
  }
}
