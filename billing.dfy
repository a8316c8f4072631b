/**
  The nightly billing sweep (services/billingJob.js): for every active user
  it creates the missing monthly periods whose start is not after a horizon,
  continuing from the latest existing period.
*/
module Billing {
  import opened Wrappers
  import opened Calendar
  import opened Models
  import opened Store
  import opened PaymentService

  /** The `aheadDays` of a call without options, and the one the nightly 02:00 run passes. */
  const DEFAULT_AHEAD_DAYS: nat := 30
  const NIGHTLY_AHEAD_DAYS: nat := 45

  /**
    The period starts the sweep visits for one user: `start`, then one month
    after the previous start each time, for as long as the start is not after
    `horizon`.
  */
  function Candidates(start: Date, horizon: Date): (c: seq<Date>)
    requires ValidDate(start) && ValidDate(horizon)
    ensures forall i | 0 <= i < |c| :: ValidDate(c[i]) && LessEq(c[i], horizon)
    ensures c == [] <==> !LessEq(start, horizon)
    decreases MonthIndex(horizon) - MonthIndex(start) + 1
  {
    if LessEq(start, horizon) then
      LessEqMonthIndex(start, horizon);
      [start] + Candidates(AddMonthsKeepDay(start, 1), horizon)
    else
      []
  }

  /**
    The visited starts move on by at least a month each, and lie in
    consecutive months (the i-th one i months after the first) once the
    years are past 0..99, which `new Date(year, month, 1)` reads as 19xx.
  */
  lemma {:induction false} CandidatesMonths(start: Date, horizon: Date)
    requires ValidDate(start) && ValidDate(horizon)
    ensures forall i, j | 0 <= i < j < |Candidates(start, horizon)| ::
              MonthIndex(Candidates(start, horizon)[i]) + (j - i) <= MonthIndex(Candidates(start, horizon)[j])
    ensures start.year >= 100 ==>
              forall i | 0 <= i < |Candidates(start, horizon)| ::
                MonthIndex(Candidates(start, horizon)[i]) == MonthIndex(start) + i
    decreases MonthIndex(horizon) - MonthIndex(start) + 1
  {
    if LessEq(start, horizon) {
      LessEqMonthIndex(start, horizon);
      var next := AddMonthsKeepDay(start, 1);
      CandidatesMonths(next, horizon);
      var c, rest := Candidates(start, horizon), Candidates(next, horizon);
      assert c == [start] + rest;
      assert MonthIndex(start) + 1 <= MonthIndex(next);
      forall i, j | 0 <= i < j < |c| ensures MonthIndex(c[i]) + (j - i) <= MonthIndex(c[j]) {
        assert c[j] == rest[j - 1];
        if i > 0 {
          assert c[i] == rest[i - 1];
        } else if j > 1 {
          assert rest[0] == next;
        }
      }
      if start.year >= 100 {
        assert next.year >= 100;
        forall i | 0 < i < |c| ensures MonthIndex(c[i]) == MonthIndex(start) + i {
          assert c[i] == rest[i - 1];
        }
      }
    }
  }

  /** Every visited start is at or after the first and they strictly increase, so no start is visited twice. */
  lemma CandidatesIncrease(start: Date, horizon: Date)
    requires ValidDate(start) && ValidDate(horizon)
    ensures forall i | 0 <= i < |Candidates(start, horizon)| :: LessEq(start, Candidates(start, horizon)[i])
    ensures forall i, j | 0 <= i < j < |Candidates(start, horizon)| ::
              Less(Candidates(start, horizon)[i], Candidates(start, horizon)[j])
  {
    var c := Candidates(start, horizon);
    CandidatesMonths(start, horizon);
    forall i, j | 0 <= i < j < |c| ensures Less(c[i], c[j]) {
      MonthIndexLess(c[i], c[j]);
    }
    forall i | 0 < i < |c| ensures LessEq(start, c[i]) {
      assert c[0] == start;
      MonthIndexLess(c[0], c[i]);
    }
  }

  /** Periods are contiguous: each visited start is the end of the previous start's period. */
  lemma {:induction false} CandidatesContiguous(start: Date, horizon: Date)
    requires ValidDate(start) && ValidDate(horizon)
    ensures Candidates(start, horizon) != [] ==> Candidates(start, horizon)[0] == start
    ensures forall i | 0 <= i < |Candidates(start, horizon)| - 1 ::
              Candidates(start, horizon)[i + 1] == AddMonthsKeepDay(Candidates(start, horizon)[i], 1)
    decreases MonthIndex(horizon) - MonthIndex(start) + 1
  {
    if LessEq(start, horizon) {
      LessEqMonthIndex(start, horizon);
      CandidatesContiguous(AddMonthsKeepDay(start, 1), horizon);
    }
  }

  /** The start after the last visited one is past the horizon: that is where the loop stops. */
  lemma {:induction false} CandidatesStopAtHorizon(start: Date, horizon: Date)
    requires ValidDate(start) && ValidDate(horizon)
    requires Candidates(start, horizon) != []
    ensures !LessEq(AddMonthsKeepDay(Candidates(start, horizon)[|Candidates(start, horizon)| - 1], 1), horizon)
    decreases MonthIndex(horizon) - MonthIndex(start) + 1
  {
    var next := AddMonthsKeepDay(start, 1);
    LessEqMonthIndex(start, horizon);
    if LessEq(next, horizon) {
      CandidatesStopAtHorizon(next, horizon);
    }
  }

  /** One step of the sweep's loop: a start not after the horizon is visited, and the loop goes on a month later. */
  lemma CandidatesUnfold(start: Date, horizon: Date)
    requires ValidDate(start) && ValidDate(horizon)
    ensures LessEq(start, horizon) ==> Candidates(start, horizon) == [start] + Candidates(AddMonthsKeepDay(start, 1), horizon)
    ensures !LessEq(start, horizon) ==> Candidates(start, horizon) == []
  {
  }

  /** Three starts a month apart, the third the last one not after the horizon, are exactly what the loop visits. */
  lemma ThreeStarts(d1: Date, d2: Date, d3: Date, horizon: Date)
    requires ValidDate(d1) && ValidDate(horizon)
    requires d2 == AddMonthsKeepDay(d1, 1) && d3 == AddMonthsKeepDay(d2, 1)
    requires LessEq(d3, horizon) && !LessEq(AddMonthsKeepDay(d3, 1), horizon)
    ensures Candidates(d1, horizon) == [d1, d2, d3]
  {
    AddMonthIsLater(d1);
    AddMonthIsLater(d2);
    CandidatesUnfold(AddMonthsKeepDay(d3, 1), horizon);
    CandidatesUnfold(d3, horizon);
    CandidatesUnfold(d2, horizon);
    CandidatesUnfold(d1, horizon);
  }

  /**
    A tenant who joined on 2024-01-15 and has no payment, swept at
    2024-02-01 02:00 with 45 days ahead (horizon 2024-03-17 02:00), gets the
    periods starting 2024-01-15, 2024-02-15 and 2024-03-15.
  */
  lemma JoinedMidJanuaryExample()
    ensures Candidates(Date(2024, 0, 15, Midnight), AddDays(Date(2024, 1, 1, Clock(2, 0, 0, 0)), NIGHTLY_AHEAD_DAYS))
            == [Date(2024, 0, 15, Midnight), Date(2024, 1, 15, Midnight), Date(2024, 2, 15, Midnight)]
  {
    AddDaysExample();
    var d1, d2, d3 := Date(2024, 0, 15, Midnight), Date(2024, 1, 15, Midnight), Date(2024, 2, 15, Midnight);
    AddOneMonth(d1);
    AddOneMonth(d2);
    AddOneMonth(d3);
    ThreeStarts(d1, d2, d3, Date(2024, 2, 17, Clock(2, 0, 0, 0)));
  }

  /** Starts chain from the previous start, so a day clamped in February stays clamped: Jan 31, Feb 28, Mar 28. */
  lemma ChainedFromPreviousStart()
    ensures Candidates(Date(2023, 0, 31, Midnight), Date(2023, 2, 30, Midnight))
            == [Date(2023, 0, 31, Midnight), Date(2023, 1, 28, Midnight), Date(2023, 2, 28, Midnight)]
  {
    var d1, d2, d3 := Date(2023, 0, 31, Midnight), Date(2023, 1, 28, Midnight), Date(2023, 2, 28, Midnight);
    AddOneMonth(d1);
    AddOneMonth(d2);
    AddOneMonth(d3);
    ThreeStarts(d1, d2, d3, Date(2023, 2, 30, Midnight));
  }

  /** The sweep works on a user only if the cursor yields it (active) and its step does not fail. */
  predicate Billed(users: map<UserId, UserProfile>, failing: set<UserId>, u: UserId) {
    u in users && users[u].isActive && u !in failing
  }

  /** The period starts the sweep creates for user `u` when the payments are `payments`. */
  ghost function Due(payments: map<PaymentId, Payment>, users: map<UserId, UserProfile>, u: UserId, now: Date, horizon: Date): seq<Date>
    requires AllWellFormed(payments) && AllWellDated(users) && u in users && ValidDate(now) && ValidDate(horizon)
  {
    Candidates(NextPeriodStart(payments, u, users[u], now), horizon)
  }

  /** `p1` keeps every payment of `p0` as it was. */
  predicate Extends(p0: map<PaymentId, Payment>, p1: map<PaymentId, Payment>) {
    forall k | k in p0 :: k in p1 && p1[k] == p0[k]
  }

  /** The payments added between `p0` and `p` are pending payments of `u` for `amount`, each for a start of `starts`. */
  predicate AddedFor(p0: map<PaymentId, Payment>, p: map<PaymentId, Payment>, u: UserId, amount: int, starts: seq<Date>) {
    forall k | k in p && k !in p0 :: p[k].periodStart in starts && IsPendingFor(p[k], u, amount)
  }

  /** Every start of `starts` has a payment of `u` added between `p0` and `p`. */
  predicate Covers(p0: map<PaymentId, Payment>, p: map<PaymentId, Payment>, u: UserId, starts: seq<Date>) {
    forall d | d in starts :: exists k :: k in p && k !in p0 && p[k].user == u && p[k].periodStart == d
  }

  /** No two payments of `keys` are for the same user and the same period start. */
  predicate UniqueStarts(p: map<PaymentId, Payment>, keys: set<PaymentId>)
    requires keys <= p.Keys
  {
    forall k1, k2 | k1 in keys && k2 in keys && p[k1].user == p[k2].user && p[k1].periodStart == p[k2].periodStart :: k1 == k2
  }

  /** Every date of `s` is before `next`. */
  predicate AllBefore(s: set<Date>, next: Date) {
    forall x | x in s :: Less(x, next)
  }

  /** The dates of a sequence, as a set. */
  function Elements(s: seq<Date>): set<Date> {
    set x | x in s
  }

  /**
    What the sweep's inner loop keeps for user `u`: the payments added to
    `p0` so far are pending payments of `u` for `amount`, exactly one for
    each start of `visited`, and every start already visited or already
    billed is before `next`.
  */
  predicate Progress(p0: map<PaymentId, Payment>, p: map<PaymentId, Payment>, u: UserId, amount: int,
                     visited: seq<Date>, next: Date)
  {
    && Extends(p0, p)
    && AddedFor(p0, p, u, amount, visited)
    && Covers(p0, p, u, visited)
    && UniqueStarts(p, p.Keys - p0.Keys)
    && AllBefore(Elements(visited), next)
    && AllBefore(StartsOf(p0, u), next)
  }

  /** Within one run the idempotency check never finds a payment: every start the loop reaches is new. */
  lemma NoPaymentYet(p0: map<PaymentId, Payment>, p: map<PaymentId, Payment>, u: UserId, amount: int,
                     visited: seq<Date>, next: Date)
    requires Progress(p0, p, u, amount, visited, next)
    ensures !exists k | k in p :: p[k].user == u && p[k].periodStart == next
  {
    forall k | k in p && p[k].user == u ensures p[k].periodStart != next {
      if k in p0 {
        assert p[k] == p0[k];
        assert p0[k].periodStart in StartsOf(p0, u);
      } else {
        assert p[k].periodStart in Elements(visited);
      }
    }
  }

  lemma AddedStep(p0: map<PaymentId, Payment>, p: map<PaymentId, Payment>, u: UserId, amount: int,
                  visited: seq<Date>, next: Date, id: PaymentId, pay: Payment)
    requires AddedFor(p0, p, u, amount, visited)
    requires pay.periodStart == next && IsPendingFor(pay, u, amount)
    ensures AddedFor(p0, p[id := pay], u, amount, visited + [next])
  {
  }

  lemma CoversStep(p0: map<PaymentId, Payment>, p: map<PaymentId, Payment>, u: UserId,
                   visited: seq<Date>, next: Date, id: PaymentId, pay: Payment)
    requires Extends(p0, p) && Covers(p0, p, u, visited)
    requires id !in p && pay.periodStart == next && pay.user == u
    ensures Covers(p0, p[id := pay], u, visited + [next])
  {
    var p' := p[id := pay];
    forall d | d in visited + [next]
      ensures exists k :: k in p' && k !in p0 && p'[k].user == u && p'[k].periodStart == d
    {
      if d == next {
        assert p'[id].periodStart == next;
      } else {
        var k :| k in p && k !in p0 && p[k].user == u && p[k].periodStart == d;
        assert p'[k] == p[k];
      }
    }
  }

  lemma UniqueStep(p0: map<PaymentId, Payment>, p: map<PaymentId, Payment>, u: UserId, amount: int,
                   visited: seq<Date>, next: Date, id: PaymentId, pay: Payment)
    requires p0.Keys <= p.Keys && UniqueStarts(p, p.Keys - p0.Keys)
    requires AddedFor(p0, p, u, amount, visited) && AllBefore(Elements(visited), next)
    requires id !in p && pay.periodStart == next
    ensures UniqueStarts(p[id := pay], p[id := pay].Keys - p0.Keys)
  {
    var p' := p[id := pay];
    forall k1, k2 | k1 in p'.Keys - p0.Keys && k2 in p'.Keys - p0.Keys && p'[k1].user == p'[k2].user && p'[k1].periodStart == p'[k2].periodStart
      ensures k1 == k2
    {
      if k1 != id && k2 != id {
        assert p'[k1] == p[k1] && p'[k2] == p[k2];
      } else if k1 != id {
        assert p[k1].periodStart in Elements(visited);
      } else if k2 != id {
        assert p[k2].periodStart in Elements(visited);
      }
    }
  }

  lemma BeforeStep(visited: seq<Date>, old_starts: set<Date>, next: Date, following: Date)
    requires AllBefore(Elements(visited), next) && AllBefore(old_starts, next) && Less(next, following)
    ensures AllBefore(Elements(visited + [next]), following) && AllBefore(old_starts, following)
  {
    assert Elements(visited + [next]) == Elements(visited) + {next};
  }

  /** Creating the payment for `next` and moving on to a later start keeps the loop's invariant. */
  lemma ProgressStep(p0: map<PaymentId, Payment>, p: map<PaymentId, Payment>, u: UserId, amount: int,
                     visited: seq<Date>, next: Date, following: Date, id: PaymentId, pay: Payment)
    requires Progress(p0, p, u, amount, visited, next) && Less(next, following)
    requires id !in p && pay.periodStart == next && IsPendingFor(pay, u, amount)
    ensures Progress(p0, p[id := pay], u, amount, visited + [next], following)
  {
    AddedStep(p0, p, u, amount, visited, next, id, pay);
    CoversStep(p0, p, u, visited, next, id, pay);
    UniqueStep(p0, p, u, amount, visited, next, id, pay);
    BeforeStep(visited, StartsOf(p0, u), next, following);
  }

  /** When the loop stops, the invariant with every due start visited is the outcome of the user's step. */
  lemma ProgressDone(p0: map<PaymentId, Payment>, p: map<PaymentId, Payment>, users: map<UserId, UserProfile>,
                     u: UserId, now: Date, horizon: Date, visited: seq<Date>, next: Date)
    requires AllWellFormed(p0) && AllWellDated(users) && u in users && ValidDate(now) && ValidDate(horizon)
    requires Progress(p0, p, u, RentDue(users[u].rentAmount), visited, next)
    requires visited == Due(p0, users, u, now, horizon)
    ensures UserBilled(p0, p, users, u, now, horizon)
  {
  }

  /** The outcome of the sweep's step for one user: exactly one new pending payment per due start. */
  ghost predicate UserBilled(p0: map<PaymentId, Payment>, p1: map<PaymentId, Payment>, users: map<UserId, UserProfile>,
                             u: UserId, now: Date, horizon: Date)
    requires AllWellFormed(p0) && AllWellDated(users) && u in users && ValidDate(now) && ValidDate(horizon)
  {
    && Extends(p0, p1)
    && AddedFor(p0, p1, u, RentDue(users[u].rentAmount), Due(p0, users, u, now, horizon))
    && Covers(p0, p1, u, Due(p0, users, u, now, horizon))
    && UniqueStarts(p1, p1.Keys - p0.Keys)
  }

  /**
    One round of the sweep's inner loop: unless a payment of `u` for `start`
    exists, create a pending one, due when the period ends. Within a run the
    check never finds one, so a payment is always created.
  */
  method BillPeriod(db: Db, u: UserId, amount: int, start: Date, ghost p0: map<PaymentId, Payment>, ghost visited: seq<Date>)
    returns (created: bool)
    requires db.Valid() && ValidDate(start)
    requires Progress(p0, db.payments, u, amount, visited, start)
    modifies db
    ensures db.Valid() && db.State() == old(db.State())
    ensures Progress(p0, db.payments, u, amount, visited + [start], AddMonthsKeepDay(start, 1))
    ensures created && |db.payments| == |old(db.payments)| + 1
  {
    // idempotency: skip a start that already has a payment
    var already := exists k | k in db.payments :: db.payments[k].user == u && db.payments[k].periodStart == start;
    NoPaymentYet(p0, db.payments, u, amount, visited, start);
    AddMonthIsLater(start);
    created := false;
    if !already {
      var end := AddMonthsKeepDay(start, 1);
      var payment := Payment(u, amount, start, end, end, Pending, None);
      ghost var before := db.payments;
      var id := db.InsertPayment(payment);
      created := true;
      ProgressStep(p0, before, u, amount, visited, start, end, id, payment);
    }
  }

  /** Before the first round nothing is added and every existing start is before the first due one. */
  lemma ProgressInit(p0: map<PaymentId, Payment>, u: UserId, amount: int, start: Date)
    requires AllBefore(StartsOf(p0, u), start)
    ensures Progress(p0, p0, u, amount, [], start)
  {
    assert Elements([]) == {};
  }

  /**
    The sweep's step for user `u` (the body of the `try` block):
    find the latest period start, then create a pending payment for each
    start up to the horizon that has no payment yet.
  */
  method BillUser(db: Db, u: UserId, now: Date, horizon: Date) returns (n: nat)
    requires db.Valid() && u in db.users && ValidDate(now) && ValidDate(horizon)
    modifies db
    ensures db.Valid()
    ensures db.State() == old(db.State())
    ensures UserBilled(old(db.payments), db.payments, db.users, u, now, horizon)
    ensures |db.payments| == |old(db.payments)| + n
  {
    var amount := RentDue(db.users[u].rentAmount);
    var nextStart := NextStart(db.payments, u, db.users[u], now);
    ghost var p0 := db.payments;
    ProgressInit(p0, u, amount, nextStart);
    ghost var due := Candidates(nextStart, horizon);
    ScheduleStart(nextStart, horizon);
    ghost var visited: seq<Date> := [];
    n := 0;
    while LessEq(nextStart, horizon)
      invariant db.Valid() && db.State() == old(db.State())
      invariant ValidDate(nextStart)
      invariant Schedule(due, horizon) && OnSchedule(due, visited, nextStart, horizon)
      invariant Progress(p0, db.payments, u, amount, visited, nextStart)
      invariant |db.payments| == |p0| + n
      decreases |due| - |visited|
    {
      ScheduleStep(due, visited, nextStart, horizon);
      var created := BillPeriod(db, u, amount, nextStart, p0, visited);
      if created {
        n := n + 1;
      }
      visited := visited + [nextStart];
      nextStart := AddMonthsKeepDay(nextStart, 1);
    }
    ScheduleDone(due, visited, nextStart, horizon);
    ProgressDone(p0, db.payments, db.users, u, now, horizon, visited, nextStart);
  }

  /** The due starts run a month apart and end at the horizon. */
  predicate Schedule(due: seq<Date>, horizon: Date) {
    && (forall i | 0 <= i < |due| :: ValidDate(due[i]) && LessEq(due[i], horizon))
    && (forall i | 0 <= i < |due| - 1 :: due[i + 1] == AddMonthsKeepDay(due[i], 1))
    && (due != [] ==> !LessEq(AddMonthsKeepDay(due[|due| - 1], 1), horizon))
  }

  /** The loop has visited a prefix of the due starts and `next` is the one after it. */
  predicate OnSchedule(due: seq<Date>, visited: seq<Date>, next: Date, horizon: Date) {
    && |visited| <= |due| && visited == due[..|visited|]
    && (|visited| < |due| ==> due[|visited|] == next)
    && (|visited| == |due| ==> !LessEq(next, horizon))
  }

  lemma ScheduleStart(start: Date, horizon: Date)
    requires ValidDate(start) && ValidDate(horizon)
    ensures Schedule(Candidates(start, horizon), horizon)
    ensures OnSchedule(Candidates(start, horizon), [], start, horizon)
  {
    CandidatesContiguous(start, horizon);
    if LessEq(start, horizon) {
      CandidatesStopAtHorizon(start, horizon);
    }
  }

  lemma ScheduleStep(due: seq<Date>, visited: seq<Date>, next: Date, horizon: Date)
    requires ValidDate(next) && Schedule(due, horizon) && OnSchedule(due, visited, next, horizon) && LessEq(next, horizon)
    ensures |visited| < |due|
    ensures OnSchedule(due, visited + [next], AddMonthsKeepDay(next, 1), horizon)
  {
    var i := |visited|;
    assert due[..i + 1] == due[..i] + [due[i]];
  }

  lemma ScheduleDone(due: seq<Date>, visited: seq<Date>, next: Date, horizon: Date)
    requires Schedule(due, horizon) && OnSchedule(due, visited, next, horizon) && !LessEq(next, horizon)
    ensures visited == due
  {
  }

  /**
    The payments added between `p0` and `p1` are exactly the sweep's periods
    for the users of `done` it works on: one pending payment for the user's
    rent per due start, and nothing else.
  */
  ghost predicate SweptUsers(p0: map<PaymentId, Payment>, p1: map<PaymentId, Payment>, users: map<UserId, UserProfile>,
                             failing: set<UserId>, now: Date, horizon: Date, done: set<UserId>)
    requires AllWellFormed(p0) && AllWellDated(users) && ValidDate(now) && ValidDate(horizon)
  {
    && Extends(p0, p1)
    && (forall k | k in p1 && k !in p0 ::
          && p1[k].user in done && Billed(users, failing, p1[k].user)
          && p1[k].periodStart in Due(p0, users, p1[k].user, now, horizon)
          && IsPendingFor(p1[k], p1[k].user, RentDue(users[p1[k].user].rentAmount)))
    && (forall u | u in done && Billed(users, failing, u) :: Covers(p0, p1, u, Due(p0, users, u, now, horizon)))
    && UniqueStarts(p1, p1.Keys - p0.Keys)
  }

  /** The outcome of one whole sweep: every user has been visited. */
  ghost predicate SweepResult(p0: map<PaymentId, Payment>, p1: map<PaymentId, Payment>, users: map<UserId, UserProfile>,
                              failing: set<UserId>, now: Date, horizon: Date)
    requires AllWellFormed(p0) && AllWellDated(users) && ValidDate(now) && ValidDate(horizon)
  {
    SweptUsers(p0, p1, users, failing, now, horizon, users.Keys)
  }

  /** Payments of other users leave a user's period starts unchanged. */
  lemma StartsOfOthers(p0: map<PaymentId, Payment>, p1: map<PaymentId, Payment>, u: UserId)
    requires Extends(p0, p1)
    requires forall k | k in p1 && k !in p0 :: p1[k].user != u
    ensures StartsOf(p1, u) == StartsOf(p0, u)
  {
    forall d | d in StartsOf(p1, u) ensures d in StartsOf(p0, u) {
      var k :| k in p1 && p1[k].user == u && p1[k].periodStart == d;
      assert k in p0;
    }
    forall d | d in StartsOf(p0, u) ensures d in StartsOf(p1, u) {
      var k :| k in p0 && p0[k].user == u && p0[k].periodStart == d;
      assert k in p1 && p1[k] == p0[k];
    }
  }

  /** What other users' steps added does not change what is due for `u`. */
  lemma DueUnchanged(p0: map<PaymentId, Payment>, pc: map<PaymentId, Payment>, users: map<UserId, UserProfile>,
                     u: UserId, now: Date, horizon: Date)
    requires AllWellFormed(p0) && AllWellFormed(pc) && AllWellDated(users) && u in users && ValidDate(now) && ValidDate(horizon)
    requires Extends(p0, pc) && forall k | k in pc && k !in p0 :: pc[k].user != u
    ensures Due(pc, users, u, now, horizon) == Due(p0, users, u, now, horizon)
  {
    StartsOfOthers(p0, pc, u);
  }

  lemma SweepAddedStep(p0: map<PaymentId, Payment>, pc: map<PaymentId, Payment>, pn: map<PaymentId, Payment>,
                       users: map<UserId, UserProfile>, failing: set<UserId>, now: Date, horizon: Date,
                       done: set<UserId>, u: UserId)
    requires AllWellFormed(p0) && AllWellFormed(pc) && AllWellDated(users) && ValidDate(now) && ValidDate(horizon)
    requires u in users && Billed(users, failing, u)
    requires SweptUsers(p0, pc, users, failing, now, horizon, done)
    requires Extends(pc, pn) && AddedFor(pc, pn, u, RentDue(users[u].rentAmount), Due(p0, users, u, now, horizon))
    ensures forall k | k in pn && k !in p0 ::
              && pn[k].user in done + {u} && Billed(users, failing, pn[k].user)
              && pn[k].periodStart in Due(p0, users, pn[k].user, now, horizon)
              && IsPendingFor(pn[k], pn[k].user, RentDue(users[pn[k].user].rentAmount))
  {
    forall k | k in pn && k !in p0
      ensures && pn[k].user in done + {u} && Billed(users, failing, pn[k].user)
              && pn[k].periodStart in Due(p0, users, pn[k].user, now, horizon)
              && IsPendingFor(pn[k], pn[k].user, RentDue(users[pn[k].user].rentAmount))
    {
      if k in pc {
        assert pn[k] == pc[k];
      }
    }
  }

  lemma SweepCoversStep(p0: map<PaymentId, Payment>, pc: map<PaymentId, Payment>, pn: map<PaymentId, Payment>,
                        users: map<UserId, UserProfile>, failing: set<UserId>, now: Date, horizon: Date,
                        done: set<UserId>, u: UserId)
    requires AllWellFormed(p0) && AllWellDated(users) && ValidDate(now) && ValidDate(horizon)
    requires u in users && Billed(users, failing, u)
    requires SweptUsers(p0, pc, users, failing, now, horizon, done)
    requires Extends(pc, pn) && Covers(pc, pn, u, Due(p0, users, u, now, horizon))
    ensures forall u' | u' in done + {u} && Billed(users, failing, u') :: Covers(p0, pn, u', Due(p0, users, u', now, horizon))
  {
    forall u', d | u' in done + {u} && Billed(users, failing, u') && d in Due(p0, users, u', now, horizon)
      ensures exists k :: k in pn && k !in p0 && pn[k].user == u' && pn[k].periodStart == d
    {
      if u' == u {
        var k :| k in pn && k !in pc && pn[k].user == u && pn[k].periodStart == d;
        assert k !in p0;
      } else {
        assert Covers(p0, pc, u', Due(p0, users, u', now, horizon));
        var k :| k in pc && k !in p0 && pc[k].user == u' && pc[k].periodStart == d;
        assert k in pn && pn[k] == pc[k];
      }
    }
  }

  lemma SweepUniqueStep(p0: map<PaymentId, Payment>, pc: map<PaymentId, Payment>, pn: map<PaymentId, Payment>,
                        done: set<UserId>, u: UserId)
    requires p0.Keys <= pc.Keys <= pn.Keys && u !in done
    requires UniqueStarts(pc, pc.Keys - p0.Keys) && UniqueStarts(pn, pn.Keys - pc.Keys)
    requires Extends(pc, pn)
    requires forall k | k in pc && k !in p0 :: pc[k].user in done
    requires forall k | k in pn && k !in pc :: pn[k].user == u
    ensures UniqueStarts(pn, pn.Keys - p0.Keys)
  {
    forall k1, k2 | k1 in pn.Keys - p0.Keys && k2 in pn.Keys - p0.Keys && pn[k1].user == pn[k2].user && pn[k1].periodStart == pn[k2].periodStart
      ensures k1 == k2
    {
      if k1 in pc && k2 in pc {
        assert pc[k1] == pn[k1] && pc[k2] == pn[k2];
      }
    }
  }

  /** The sweep's loop invariant: one more user's step extends the users done. */
  lemma SweepStep(p0: map<PaymentId, Payment>, pc: map<PaymentId, Payment>, pn: map<PaymentId, Payment>,
                  users: map<UserId, UserProfile>, failing: set<UserId>, now: Date, horizon: Date,
                  done: set<UserId>, u: UserId)
    requires AllWellFormed(p0) && AllWellFormed(pc) && AllWellDated(users) && ValidDate(now) && ValidDate(horizon)
    requires u in users && u !in done && Billed(users, failing, u)
    requires SweptUsers(p0, pc, users, failing, now, horizon, done)
    requires UserBilled(pc, pn, users, u, now, horizon)
    ensures SweptUsers(p0, pn, users, failing, now, horizon, done + {u})
  {
    DueUnchanged(p0, pc, users, u, now, horizon);
    SweepAddedStep(p0, pc, pn, users, failing, now, horizon, done, u);
    SweepCoversStep(p0, pc, pn, users, failing, now, horizon, done, u);
    SweepUniqueStep(p0, pc, pn, done, u);
  }

  /** A user the sweep does not work on changes nothing. */
  lemma SweepSkip(p0: map<PaymentId, Payment>, pc: map<PaymentId, Payment>, users: map<UserId, UserProfile>,
                  failing: set<UserId>, now: Date, horizon: Date, done: set<UserId>, u: UserId)
    requires AllWellFormed(p0) && AllWellDated(users) && ValidDate(now) && ValidDate(horizon)
    requires SweptUsers(p0, pc, users, failing, now, horizon, done)
    requires !Billed(users, failing, u)
    ensures SweptUsers(p0, pc, users, failing, now, horizon, done + {u})
  {
  }

  /**
    `runBillingJob({ aheadDays })`: the horizon is `aheadDays` days after
    `now`; every active user is visited once, in the cursor's order; a user
    whose step throws before it saves anything (the users of `failing`,
    whose store reads fail) is skipped and the sweep goes on. Returns the number of payments created
    and the horizon.
  */
  method RunBillingJob(db: Db, now: Date, aheadDays: nat, failing: set<UserId>) returns (created: nat, horizon: Date)
    requires db.Valid() && ValidDate(now)
    modifies db
    ensures db.Valid()
    ensures horizon == AddDays(now, aheadDays) && ValidDate(horizon)
    ensures db.State() == old(db.State())
    ensures SweepResult(old(db.payments), db.payments, db.users, failing, now, horizon)
    ensures |db.payments| == |old(db.payments)| + created
  {
    horizon := AddDays(now, aheadDays);
    ghost var p0 := db.payments;
    var cursor := set u | u in db.users && db.users[u].isActive;
    created := 0;
    while cursor != {}
      invariant db.Valid() && db.State() == old(db.State())
      invariant cursor <= db.users.Keys
      invariant SweptUsers(p0, db.payments, db.users, failing, now, horizon, db.users.Keys - cursor)
      invariant |db.payments| == |p0| + created
      decreases cursor
    {
      var u :| u in cursor;
      ghost var done := db.users.Keys - cursor;
      cursor := cursor - {u};
      assert db.users.Keys - cursor == done + {u};
      if u in failing {
        // the store throws for this user: caught, logged, next user
        SweepSkip(p0, db.payments, db.users, failing, now, horizon, done, u);
      } else {
        ghost var pc := db.payments;
        var n := BillUser(db, u, now, horizon);
        SweepStep(p0, pc, db.payments, db.users, failing, now, horizon, done, u);
        created := created + n;
      }
    }
  }

  /** A sweep adds the due starts to a billed user's starts and leaves every other user's alone. */
  lemma SweptStarts(p0: map<PaymentId, Payment>, p1: map<PaymentId, Payment>, users: map<UserId, UserProfile>,
                    failing: set<UserId>, now: Date, horizon: Date, u: UserId)
    requires AllWellFormed(p0) && AllWellDated(users) && ValidDate(now) && ValidDate(horizon)
    requires SweepResult(p0, p1, users, failing, now, horizon)
    ensures Billed(users, failing, u) ==>
              StartsOf(p1, u) == StartsOf(p0, u) + Elements(Due(p0, users, u, now, horizon))
    ensures !Billed(users, failing, u) ==> StartsOf(p1, u) == StartsOf(p0, u)
  {
    if Billed(users, failing, u) {
      var due := Due(p0, users, u, now, horizon);
      forall d | d in StartsOf(p1, u) ensures d in StartsOf(p0, u) + Elements(due) {
        var k :| k in p1 && p1[k].user == u && p1[k].periodStart == d;
        if k in p0 {
          assert p0[k] == p1[k];
        }
      }
      forall d | d in StartsOf(p0, u) + Elements(due) ensures d in StartsOf(p1, u) {
        if d in StartsOf(p0, u) {
          var k :| k in p0 && p0[k].user == u && p0[k].periodStart == d;
          assert k in p1 && p1[k] == p0[k];
        } else {
          assert Covers(p0, p1, u, due);
          var k :| k in p1 && k !in p0 && p1[k].user == u && p1[k].periodStart == d;
        }
      }
    } else {
      StartsOfOthers(p0, p1, u);
    }
  }

  /** The due starts are after every start the user already had. */
  lemma DueAfterExisting(payments: map<PaymentId, Payment>, users: map<UserId, UserProfile>, u: UserId,
                         now: Date, horizon: Date, x: Date, i: nat)
    requires AllWellFormed(payments) && AllWellDated(users) && u in users && ValidDate(now) && ValidDate(horizon)
    requires x in StartsOf(payments, u) && i < |Due(payments, users, u, now, horizon)|
    ensures Less(x, Due(payments, users, u, now, horizon)[i])
  {
    CandidatesIncrease(NextPeriodStart(payments, u, users[u], now), horizon);
  }

  /** Adding the visited starts to starts that all precede them makes the last visited one the latest. */
  lemma LatestIsLastVisited(olds: set<Date>, start: Date, horizon: Date)
    requires ValidDate(start) && ValidDate(horizon) && Candidates(start, horizon) != []
    requires forall x | x in olds :: ValidDate(x) && Less(x, start)
    ensures Latest(olds + Elements(Candidates(start, horizon)))
         == Some(Candidates(start, horizon)[|Candidates(start, horizon)| - 1])
  {
    var due := Candidates(start, horizon);
    var all := olds + Elements(due);
    var last := due[|due| - 1];
    CandidatesIncrease(start, horizon);
    forall x | x in all ensures ValidDate(x) && LessEq(x, last) {
      if x !in olds {
        var i :| 0 <= i < |due| && due[i] == x;
      }
    }
    LatestUnique(last, all);
  }

  /** When nothing was due, the user's starts and so the next start stay as they were. */
  lemma NothingDueStaysSo(p0: map<PaymentId, Payment>, p1: map<PaymentId, Payment>, users: map<UserId, UserProfile>,
                          u: UserId, now: Date, horizon: Date)
    requires AllWellFormed(p0) && AllWellFormed(p1) && AllWellDated(users) && u in users && ValidDate(now) && ValidDate(horizon)
    requires Due(p0, users, u, now, horizon) == []
    requires StartsOf(p1, u) == StartsOf(p0, u) + Elements(Due(p0, users, u, now, horizon))
    ensures StartsOf(p1, u) == StartsOf(p0, u)
    ensures NextPeriodStart(p1, u, users[u], now) == NextPeriodStart(p0, u, users[u], now)
    ensures Due(p1, users, u, now, horizon) == []
  {
    assert Elements([]) == {};
    assert StartsOf(p1, u) == StartsOf(p0, u);
  }

  /** When starts were due, the last of them is the user's latest start and the next one is past the horizon. */
  lemma NothingDueAfterLast(p0: map<PaymentId, Payment>, p1: map<PaymentId, Payment>, users: map<UserId, UserProfile>,
                            u: UserId, now: Date, horizon: Date)
    requires AllWellFormed(p0) && AllWellFormed(p1) && AllWellDated(users) && u in users && ValidDate(now) && ValidDate(horizon)
    requires Due(p0, users, u, now, horizon) != []
    requires StartsOf(p1, u) == StartsOf(p0, u) + Elements(Due(p0, users, u, now, horizon))
    ensures Due(p1, users, u, now, horizon) == []
  {
    var start := NextPeriodStart(p0, u, users[u], now);
    var due := Candidates(start, horizon);
    forall x | x in StartsOf(p0, u) ensures ValidDate(x) {
      var k :| k in p0 && p0[k].user == u && p0[k].periodStart == x;
    }
    LatestIsLastVisited(StartsOf(p0, u), start, horizon);
    CandidatesStopAtHorizon(start, horizon);
  }

  /** After a sweep nothing is due for a user it billed. */
  lemma NothingDueAfterSweep(p0: map<PaymentId, Payment>, p1: map<PaymentId, Payment>, users: map<UserId, UserProfile>,
                             failing: set<UserId>, now: Date, horizon: Date, u: UserId)
    requires AllWellFormed(p0) && AllWellFormed(p1) && AllWellDated(users) && ValidDate(now) && ValidDate(horizon)
    requires SweepResult(p0, p1, users, failing, now, horizon)
    requires Billed(users, failing, u)
    ensures Due(p1, users, u, now, horizon) == []
  {
    SweptStarts(p0, p1, users, failing, now, horizon, u);
    if Due(p0, users, u, now, horizon) == [] {
      NothingDueStaysSo(p0, p1, users, u, now, horizon);
    } else {
      NothingDueAfterLast(p0, p1, users, u, now, horizon);
    }
  }

  /** Every payment a sweep adds is for a user it billed and for a start that was due. */
  lemma SweptPayment(p0: map<PaymentId, Payment>, p1: map<PaymentId, Payment>, users: map<UserId, UserProfile>,
                     failing: set<UserId>, now: Date, horizon: Date, k: PaymentId)
    requires AllWellFormed(p0) && AllWellDated(users) && ValidDate(now) && ValidDate(horizon)
    requires SweepResult(p0, p1, users, failing, now, horizon)
    requires k in p1 && k !in p0
    ensures Billed(users, failing, p1[k].user)
    ensures p1[k].periodStart in Due(p0, users, p1[k].user, now, horizon)
  {
  }

  /**
    Running the job again with the same `now` and horizon creates nothing,
    as long as no user skipped the first time is billed the second time
    (`failing1 <= failing2`): the per-period check in the inner loop is
    never what stops a duplicate.
  */
  lemma SweepIdempotent(p0: map<PaymentId, Payment>, p1: map<PaymentId, Payment>, p2: map<PaymentId, Payment>,
                        users: map<UserId, UserProfile>, failing1: set<UserId>, failing2: set<UserId>,
                        now: Date, horizon: Date)
    requires AllWellFormed(p0) && AllWellFormed(p1) && AllWellDated(users) && ValidDate(now) && ValidDate(horizon)
    requires failing1 <= failing2
    requires SweepResult(p0, p1, users, failing1, now, horizon)
    requires SweepResult(p1, p2, users, failing2, now, horizon)
    ensures p2 == p1
  {
    forall u | Billed(users, failing2, u) ensures Due(p1, users, u, now, horizon) == [] {
      NothingDueAfterSweep(p0, p1, users, failing1, now, horizon, u);
    }
    SweepOfNothingDue(p1, p2, users, failing2, now, horizon);
  }

  /** A sweep when nothing is due for any user it bills adds nothing. */
  lemma SweepOfNothingDue(p1: map<PaymentId, Payment>, p2: map<PaymentId, Payment>, users: map<UserId, UserProfile>,
                          failing: set<UserId>, now: Date, horizon: Date)
    requires AllWellFormed(p1) && AllWellDated(users) && ValidDate(now) && ValidDate(horizon)
    requires forall u | Billed(users, failing, u) :: Due(p1, users, u, now, horizon) == []
    requires SweepResult(p1, p2, users, failing, now, horizon)
    ensures p2 == p1
  {
    forall k | k in p2 ensures k in p1 {
      if k !in p1 {
        SweptPayment(p1, p2, users, failing, now, horizon, k);
      }
    }
    assert p2.Keys == p1.Keys;
  }

  /** The job never gives a user two payments for the same period, if there were none before. */
  lemma SweepKeepsStartsUnique(p0: map<PaymentId, Payment>, p1: map<PaymentId, Payment>, users: map<UserId, UserProfile>,
                               failing: set<UserId>, now: Date, horizon: Date)
    requires AllWellFormed(p0) && AllWellDated(users) && ValidDate(now) && ValidDate(horizon)
    requires SweepResult(p0, p1, users, failing, now, horizon)
    requires UniqueStarts(p0, p0.Keys)
    ensures UniqueStarts(p1, p1.Keys)
  {
    forall k1, k2 | k1 in p1 && k2 in p1 && p1[k1].user == p1[k2].user && p1[k1].periodStart == p1[k2].periodStart
      ensures k1 == k2
    {
      if k1 in p0 && k2 in p0 {
        assert p0[k1] == p1[k1] && p0[k2] == p1[k2];
      } else if k1 in p0 || k2 in p0 {
        var (old_k, new_k) := if k1 in p0 then (k1, k2) else (k2, k1);
        var u := p1[new_k].user;
        var due := Due(p0, users, u, now, horizon);
        var i :| 0 <= i < |due| && due[i] == p1[new_k].periodStart;
        assert p1[old_k] == p0[old_k];
        DueAfterExisting(p0, users, u, now, horizon, p0[old_k].periodStart, i);
      }
    }
  }
}
