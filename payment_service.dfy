/**
  Creation of rent periods (services/paymentService.js) and the facts about
  a user's existing periods that every creator of payments reads: where the
  first period starts and where the latest one starts.
*/
module PaymentService {
  import opened Wrappers
  import opened Calendar
  import opened Models
  import opened Store

  /** `user.rentAmount || 0`: the rent, or 0 when unset (a rent of 0 gives 0 either way). */
  function RentDue(rent: Option<int>): int {
    rent.GetOr(0)
  }

  /** A pending, unpaid payment of `amount` for the month that starts at `start`, due when the month ends. */
  function PendingPayment(user: UserId, amount: int, start: Date): (p: Payment)
    requires ValidDate(start)
    ensures WellFormedPayment(p)
    ensures p.status == Pending && p.paidAt == None
    ensures p.user == user && p.amount == amount && p.periodStart == start
    ensures Less(p.periodStart, p.periodEnd)
  {
    AddMonthIsLater(start);
    var end := AddMonthsKeepDay(start, 1);
    Payment(user, amount, start, end, end, Pending, None)
  }

  /** `pay` is an unpaid, pending payment of `amount` for `user`. */
  predicate IsPendingFor(pay: Payment, user: UserId, amount: int) {
    pay.user == user && pay.amount == amount && pay.status == Pending && pay.paidAt == None
  }

  /** A well-formed pending payment is determined by its user, amount and period start. */
  lemma PendingPaymentDetermined(pay: Payment, user: UserId, amount: int)
    requires WellFormedPayment(pay) && IsPendingFor(pay, user, amount)
    ensures pay == PendingPayment(user, amount, pay.periodStart)
  {
  }

  /** Where a user's periods are anchored: `joinedDate`, or the current time when it is unset. */
  function AnchorStart(p: UserProfile, now: Date): Date {
    p.joinedDate.GetOr(now)
  }

  /** The payment `createFirstPaymentForUser` builds for profile `p` with id `u`. */
  function FirstPayment(u: UserId, p: UserProfile, now: Date): (pay: Payment)
    requires WellDatedProfile(p) && ValidDate(now)
    ensures WellFormedPayment(pay)
    ensures pay.periodStart == (if p.joinedDate.Some? then p.joinedDate.value else now)
    ensures pay.amount == (if p.rentAmount.Some? then p.rentAmount.value else 0)
    ensures pay.user == u && pay.status == Pending && pay.paidAt == None
  {
    PendingPayment(u, RentDue(p.rentAmount), AnchorStart(p, now))
  }

  /**
    `createFirstPaymentForUser(user)`: stores the first period of `profile`.
    Nothing checks for an existing payment: every call adds one record.
  */
  method CreateFirstPaymentForUser(db: Db, u: UserId, profile: UserProfile, now: Date) returns (id: PaymentId)
    requires db.Valid() && WellDatedProfile(profile) && ValidDate(now)
    modifies db
    ensures db.Valid()
    ensures id !in old(db.payments)
    ensures db.payments == old(db.payments)[id := FirstPayment(u, profile, now)]
    ensures |db.payments| == |old(db.payments)| + 1
    ensures db.State() == old(db.State())
  {
    var periodStart := if profile.joinedDate.Some? then profile.joinedDate.value else now;
    var periodEnd := AddMonthsKeepDay(periodStart, 1);
    var dueDate := periodEnd;
    var amount := RentDue(profile.rentAmount);
    var payment := Payment(u, amount, periodStart, periodEnd, dueDate, Pending, None);
    id := db.FreshId();
    db.payments := db.payments[id := payment];
  }

  /** The period starts of user `u`'s payments. */
  function StartsOf(payments: map<PaymentId, Payment>, u: UserId): set<Date> {
    set k | k in payments && payments[k].user == u :: payments[k].periodStart
  }

  /** `d` is the latest date of `s`. */
  predicate IsLatest(d: Date, s: set<Date>) {
    d in s && forall x | x in s :: LessEq(x, d)
  }

  /** The latest date of a set, if any. */
  ghost function Latest(s: set<Date>): (r: Option<Date>)
    ensures r.None? <==> s == {}
    ensures r.Some? ==> IsLatest(r.value, s)
    decreases s
  {
    if s == {} then None
    else
      var d :| d in s;
      match Latest(s - {d})
      case None =>
        assert s == {d};
        Some(d)
      case Some(e) =>
        if LessEq(d, e) then
          Some(e)
        else
          assert forall x | x in s && x != d :: x in s - {d} && LessEq(x, e);
          Some(d)
  }

  /** The latest date of a set is unique. */
  lemma LatestUnique(d: Date, s: set<Date>)
    requires forall x | x in s :: ValidDate(x)
    requires IsLatest(d, s)
    ensures Latest(s) == Some(d)
  {
    LessEqAntisymmetric(d, Latest(s).value);
  }

  /** The first period start user `u` does not have yet: a month after the latest one, else the anchor. */
  ghost function NextPeriodStart(payments: map<PaymentId, Payment>, u: UserId, p: UserProfile, now: Date): (d: Date)
    requires AllWellFormed(payments) && WellDatedProfile(p) && ValidDate(now)
    ensures ValidDate(d)
    ensures forall x | x in StartsOf(payments, u) :: Less(x, d)
  {
    match Latest(StartsOf(payments, u))
    case None => AnchorStart(p, now)
    case Some(last) =>
      assert last in StartsOf(payments, u);
      var d := AddMonthsKeepDay(last, 1);
      AddMonthIsLater(last);
      d
  }

  /** `Payment.findOne({ user }).sort({ periodStart: -1 })`, reduced to the period start it yields. */
  method LatestPeriodStart(payments: map<PaymentId, Payment>, u: UserId) returns (r: Option<Date>)
    requires AllWellFormed(payments)
    ensures r == Latest(StartsOf(payments, u))
  {
    r := None;
    var todo := payments.Keys;
    while todo != {}
      invariant todo <= payments.Keys
      invariant r.None? ==> forall k | k in payments && k !in todo :: payments[k].user != u
      invariant r.Some? ==> r.value in StartsOf(payments, u)
      invariant r.Some? ==> forall k | k in payments && k !in todo && payments[k].user == u :: LessEq(payments[k].periodStart, r.value)
      decreases todo
    {
      var k :| k in todo;
      if payments[k].user == u {
        var start := payments[k].periodStart;
        if r.None? || !LessEq(start, r.value) {
          if r.Some? {
            forall j | j in payments && j !in todo && payments[j].user == u
              ensures LessEq(payments[j].periodStart, start)
            {
            }
          }
          r := Some(start);
        }
      }
      todo := todo - {k};
    }
    if r.Some? {
      LatestUnique(r.value, StartsOf(payments, u));
    }
  }

  /**
    Where user `u`'s next period starts: one month after the latest
    existing period start, else at the join date, else now.
  */
  method NextStart(payments: map<PaymentId, Payment>, u: UserId, user: UserProfile, now: Date) returns (start: Date)
    requires AllWellFormed(payments) && WellDatedProfile(user) && ValidDate(now)
    ensures start == NextPeriodStart(payments, u, user, now)
  {
    var last := LatestPeriodStart(payments, u);
    if last.None? {
      start := if user.joinedDate.Some? then user.joinedDate.value else now;
    } else {
      start := AddMonthsKeepDay(last.value, 1);
    }
  }
}
