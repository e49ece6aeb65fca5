/** The PostgreSQL task queue: its statements, the object that issues them, retry delays, and
    what every run keeps. */
module Queue {
  import opened Common

  datatype TaskStatus = Pending | Running | Completed | Failed

  datatype Task = Task(
    kind: string,
    org: nat,
    payload: string,
    status: TaskStatus,
    error: string,
    attempts: nat,
    maxAttempts: nat,
    createdAt: Time,
    claimedAt: Option<Time>,
    completedAt: Option<Time>,
    retryAfter: Option<Time>)

  type Tasks = map<string, Task>

  const MAX_ATTEMPTS := 3
  const SECOND: int := 1_000_000_000

  // ---- Retry delay ----

  function Pow2(n: nat): (p: nat)
    ensures p > 0
  {
    if n == 0 then 1 else 2 * Pow2(n - 1)
  }

  /** `1 << n` on int64. */
  function ShiftOne(n: nat): Int64 {
    if n < 64 then Wrap64(Pow2(n)) else 0
  }

  /** Five seconds doubled per attempt in wrapping int64 arithmetic, capped at five minutes. The
      values are multiples of large powers of two, so the float64 round trip is exact. */
  function Backoff(attempts: nat): int {
    var delay := Wrap64(5 * SECOND * ShiftOne(attempts));
    if delay <= 300 * SECOND then delay else 300 * SECOND
  }

  // ---- Statements ----

  function NewTask(kind: string, org: nat, payload: string, now: Time): Task {
    Task(kind, org, payload, Pending, "", 0, MAX_ATTEMPTS, now, None, None, None)
  }

  predicate Claimable(task: Task, now: Time) {
    task.status.Pending? && (task.retryAfter.Some? ==> task.retryAfter.value <= now)
  }

  /** Claimable tasks of the wanted kinds whose rows no other transaction has locked. */
  function Eligible(t: Tasks, kinds: seq<string>, locked: set<string>, now: Time): set<string> {
    set id | id in t && Claimable(t[id], now) && (kinds == [] || t[id].kind in kinds) && id !in locked
  }

  /** Pending, of a wanted kind unless any will do, not held back by a retry and not locked. */
  ghost predicate Wanted(task: Task, id: string, kinds: seq<string>, locked: set<string>, now: Time) {
    && task.status == Pending && (|kinds| == 0 || exists i :: 0 <= i < |kinds| && kinds[i] == task.kind)
    && id !in locked
    && match task.retryAfter { case None => true case Some(at) => !(now < at) }
  }

  lemma EligibleIsWanted(t: Tasks, kinds: seq<string>, locked: set<string>, now: Time)
    ensures forall id :: id in Eligible(t, kinds, locked, now) <==> id in t && Wanted(t[id], id, kinds, locked, now)
  {
  }

  /** Oldest first, ties by primary key. */
  predicate Before(t: Tasks, a: string, b: string)
    requires a in t && b in t
  {
    t[a].createdAt < t[b].createdAt || (t[a].createdAt == t[b].createdAt && NameLeq(a, b))
  }

  function Claimed(task: Task, now: Time): Task {
    task.(status := Running, claimedAt := Some(now), attempts := task.attempts + 1)
  }

  function Done(task: Task, now: Time): Task {
    task.(status := Completed, completedAt := Some(now))
  }

  /** What Fail writes, decided from the row it read: another try later, or the end. */
  datatype Verdict = Retry(at: Time) | GiveUp

  function Judge(read: Task, now: Time): Verdict {
    if read.attempts < read.maxAttempts then Retry(now + Backoff(read.attempts)) else GiveUp
  }

  function Apply(task: Task, v: Verdict, reason: string): Task {
    match v
    case Retry(at) => task.(status := Pending, retryAfter := Some(at), error := reason)
    case GiveUp => task.(status := Failed, error := reason)
  }

  predicate Stale(task: Task, now: Time, timeout: Time) {
    task.status.Running? && task.claimedAt.Some? && task.claimedAt.value < now - timeout
  }

  function Recovered(t: Tasks, now: Time, timeout: Time): Tasks {
    map id | id in t :: if Stale(t[id], now, timeout) then t[id].(status := Pending, claimedAt := None) else t[id]
  }

  function StaleIds(t: Tasks, now: Time, timeout: Time): set<string> {
    set id | id in t && Stale(t[id], now, timeout)
  }

  predicate Cancellable(task: Task, org: nat) {
    task.org == org && (task.status.Pending? || task.status.Running?)
  }

  // ---- The queue object ----

  lemma BeforeTotal(t: Tasks, a: string, b: string)
    requires a in t && b in t
    ensures Before(t, a, b) || Before(t, b, a)
  {
    LeqTotal(a, b);
  }

  lemma BeforeTransitive(t: Tasks, a: string, b: string, c: string)
    requires a in t && b in t && c in t && Before(t, a, b) && Before(t, b, c)
    ensures Before(t, a, c)
  {
    if t[a].createdAt == t[b].createdAt == t[c].createdAt {
      LeqTransitive(a, b, c);
    }
  }

  predicate IsOldest(t: Tasks, s: set<string>, m: string)
    requires forall id :: id in s ==> id in t
  {
    m in s && forall x :: x in s ==> Before(t, m, x)
  }

  lemma {:induction false} OldestExists(t: Tasks, s: set<string>)
    requires s != {} && forall id :: id in s ==> id in t
    ensures exists m :: IsOldest(t, s, m)
  {
    hide Before;
    var a :| a in s;
    BeforeTotal(t, a, a);
    if s == {a} {
      assert IsOldest(t, s, a);
    } else {
      OldestExists(t, s - {a});
      var m :| IsOldest(t, s - {a}, m);
      BeforeTotal(t, a, m);
      if Before(t, m, a) {
        assert IsOldest(t, s, m);
      } else {
        forall x | x in s ensures Before(t, a, x) {
          if x != a {
            BeforeTransitive(t, a, m, x);
          }
        }
        assert IsOldest(t, s, a);
      }
    }
  }

  datatype Outcome = Accepted | NoTasks | DuplicateId

  class PgQueue {
    var tasks: Tasks

    constructor ()
      ensures tasks == map[]
    {
      tasks := map[];
    }

    /** An empty task id is replaced by a generated one. */
    method Enqueue(id: string, kind: string, org: nat, payload: string, generated: string, now: Time)
      returns (r: Outcome)
      modifies this
      ensures var key := if id == "" then generated else id;
        && r == (if key in old(tasks) then DuplicateId else Accepted)
        && (r == DuplicateId ==> tasks == old(tasks))
        && (r == Accepted ==>
            tasks == old(tasks)[key := Task(kind, org, payload, Pending, "", 0, 3, now, None, None, None)])
        && (r == Accepted ==> tasks[key] == NewTask(kind, org, payload, now))
    {
      var key := id;
      if key == "" {
        key := generated;
      }
      if key in tasks {
        return DuplicateId;
      }
      var task := Task(kind, org, payload, Pending, "", 0, MAX_ATTEMPTS, now, None, None, None);
      tasks := tasks[key := task];
      return Accepted;
    }

    /** Takes the oldest eligible task. The clock is read once to select and once to stamp. */
    method Claim(kinds: seq<string>, locked: set<string>, selectAt: Time, stampAt: Time)
      returns (id: Option<string>)
      modifies this
      ensures id == None <==> forall x :: x in old(tasks) ==> !Wanted(old(tasks)[x], x, kinds, locked, selectAt)
      ensures id == None ==> tasks == old(tasks)
      ensures id.Some? ==>
        && id.value in old(tasks) && Wanted(old(tasks)[id.value], id.value, kinds, locked, selectAt)
        && (forall x :: x in old(tasks) && x != id.value && Wanted(old(tasks)[x], x, kinds, locked, selectAt) ==>
            || old(tasks)[id.value].createdAt < old(tasks)[x].createdAt
            || (old(tasks)[id.value].createdAt == old(tasks)[x].createdAt && NameLeq(id.value, x)))
        && tasks == old(tasks)[id.value := old(tasks)[id.value].(
             status := Running, claimedAt := Some(stampAt), attempts := old(tasks)[id.value].attempts + 1)]
      ensures id == None <==> Eligible(old(tasks), kinds, locked, selectAt) == {}
      ensures id.Some? ==>
        && IsOldest(old(tasks), Eligible(old(tasks), kinds, locked, selectAt), id.value)
        && tasks == old(tasks)[id.value := Claimed(old(tasks)[id.value], stampAt)]
    {
      EligibleIsWanted(tasks, kinds, locked, selectAt);
      hide Eligible, Wanted, NameLeq;
      var candidates := Eligible(tasks, kinds, locked, selectAt);
      if candidates == {} {
        return None;
      }
      OldestExists(tasks, candidates);
      var oldest :| IsOldest(tasks, candidates, oldest);
      var task := tasks[oldest];
      tasks := tasks[oldest := task.(status := Running, claimedAt := Some(stampAt), attempts := task.attempts + 1)];
      return Some(oldest);
    }

    method Complete(id: string, now: Time) returns (r: Outcome)
      modifies this
      ensures r == NoTasks <==> id !in old(tasks)
      ensures r == Accepted ==>
        tasks == old(tasks)[id := old(tasks)[id].(status := Completed, completedAt := Some(now))]
      ensures tasks == if id in old(tasks) then old(tasks)[id := Done(old(tasks)[id], now)] else old(tasks)
    {
      if id !in tasks {
        return NoTasks;
      }
      tasks := tasks[id := tasks[id].(status := Completed, completedAt := Some(now))];
      return Accepted;
    }

    method Fail(id: string, reason: string, now: Time) returns (r: Outcome)
      modifies this
      ensures r == NoTasks <==> id !in old(tasks)
      ensures id in old(tasks) ==> var task := old(tasks)[id];
        tasks == old(tasks)[id :=
          if task.attempts < task.maxAttempts then
            task.(status := Pending, error := reason, retryAfter := Some(now + Backoff(task.attempts)))
          else task.(status := Failed, error := reason)]
      ensures tasks == if id in old(tasks) then
                         old(tasks)[id := Apply(old(tasks)[id], Judge(old(tasks)[id], now), reason)]
                       else old(tasks)
    {
      if id !in tasks {
        return NoTasks;
      }
      var record := tasks[id];
      if record.attempts < record.maxAttempts {
        var retryAt := now + Backoff(record.attempts);
        tasks := tasks[id := tasks[id].(status := Pending, retryAfter := Some(retryAt), error := reason)];
      } else {
        tasks := tasks[id := tasks[id].(status := Failed, error := reason)];
      }
      return Accepted;
    }

    /** One tick of the recovery loop, its clock read at `now`. */
    method RecoverStale(timeout: Time, now: Time)
      modifies this
      ensures tasks.Keys == old(tasks).Keys
      ensures forall id :: id in tasks ==> var was := old(tasks)[id];
        tasks[id] ==
          if was.status == Running && was.claimedAt.Some? && was.claimedAt.value + timeout < now then
            was.(status := Pending, claimedAt := None)
          else was
      ensures StaleIds(tasks, now, timeout) == {}
      ensures tasks == Recovered(old(tasks), now, timeout)
    {
      var cutoff := now - timeout;
      tasks := map id | id in tasks ::
        if tasks[id].status == Running && tasks[id].claimedAt.Some? && tasks[id].claimedAt.value < cutoff then
          tasks[id].(status := Pending, claimedAt := None)
        else tasks[id];
    }

    method Cancel(id: string, org: nat) returns (found: bool)
      modifies this
      ensures found <==>
        && id in old(tasks) && old(tasks)[id].org == org
        && (old(tasks)[id].status == Pending || old(tasks)[id].status == Running)
      ensures tasks == if found then old(tasks)[id := old(tasks)[id].(status := Failed)] else old(tasks)
    {
      found := id in tasks && Cancellable(tasks[id], org);
      if found {
        tasks := tasks[id := tasks[id].(status := Failed)];
      }
    }
  }

  // ---- Delay facts ----

  lemma {:induction false} Pow2Grows(m: nat, n: nat)
    requires m <= n
    ensures Pow2(m) <= Pow2(n)
  {
    if m < n {
      Pow2Grows(m, n - 1);
    }
  }

  lemma Pow2Thirty()
    ensures Pow2(30) == 1_073_741_824 && Pow2(6) == 64
  {
    assert Pow2(5) == 32;
    assert Pow2(10) == 32 * Pow2(5) by { Pow2Add(5, 5); }
    assert Pow2(20) == Pow2(10) * Pow2(10) by { Pow2Add(10, 10); }
    Pow2Add(20, 10);
  }

  lemma {:induction false} Pow2Add(m: nat, n: nat)
    ensures Pow2(m + n) == Pow2(m) * Pow2(n)
  {
    if n > 0 {
      Pow2Add(m, n - 1);
    }
  }

  /** Up to thirty attempts nothing overflows: five seconds times 2^attempts, at most 300. */
  lemma BackoffExact(a: nat)
    requires a <= 30
    ensures 5 * SECOND * Pow2(a) < TWO_TO_63
    ensures Backoff(a) == if 5 * Pow2(a) <= 300 then 5 * Pow2(a) * SECOND else 300 * SECOND
  {
    Pow2Thirty();
    Pow2Grows(a, 30);
    WrapIsInt64(Pow2(a));
    WrapIsInt64(5 * SECOND * Pow2(a));
  }

  lemma BackoffMonotone(a: nat, b: nat)
    requires a <= b <= 30
    ensures 5 * SECOND <= Backoff(a) <= Backoff(b) <= 300 * SECOND
  {
    BackoffExact(a);
    BackoffExact(b);
    Pow2Grows(0, a);
    Pow2Grows(a, b);
  }

  /** Five seconds is this odd number times 2^9. */
  const ODD_PART := 9_765_625

  lemma Congruent(c: int, x: int)
    ensures Wrap64(c * Wrap64(x)) == Wrap64(c * x)
  {
    var q := (x + TWO_TO_63) / TWO_TO_64;
    assert Wrap64(x) == x - TWO_TO_64 * q;
    assert c * Wrap64(x) == c * x - TWO_TO_64 * (c * q);
    WrapShift(c * x, c * q);
  }

  lemma WrapShift(x: int, q: int)
    ensures Wrap64(x - TWO_TO_64 * q) == Wrap64(x)
  {
    var y := x + TWO_TO_63;
    assert (y - TWO_TO_64 * q) % TWO_TO_64 == y % TWO_TO_64;
  }

  lemma Pow2Big()
    ensures Pow2(9) == 512 && Pow2(40) == 1_099_511_627_776
    ensures Pow2(63) == TWO_TO_63 && Pow2(64) == TWO_TO_64
  {
    Pow2Thirty();
    assert Pow2(9) == 512 by { assert Pow2(8) == 256; }
    assert Pow2(10) == 1024;
    Pow2Add(30, 10);
    Pow2Add(30, 30);
    assert Pow2(63) == 8 * Pow2(60) by { assert Pow2(62) == 4 * Pow2(60); }
    assert Pow2(64) == 2 * Pow2(63);
  }

  lemma OddTimes(a: nat)
    ensures 5 * SECOND * Pow2(a) == ODD_PART * Pow2(9 + a)
  {
    hide Pow2;
    Pow2Big();
    Pow2Add(9, a);
    var p := Pow2(a);
    assert 5 * SECOND == ODD_PART * 512;
    assert ODD_PART * 512 * p == ODD_PART * (512 * p);
  }

  /** The wrapped product, before the cap, is the odd part times 2^(9 + attempts). */
  lemma UncappedDelay(a: nat)
    requires a < 64
    ensures Wrap64(5 * SECOND * ShiftOne(a)) == Wrap64(ODD_PART * Pow2(9 + a))
  {
    hide Wrap64, Pow2;
    Congruent(5 * SECOND, Pow2(a));
    OddTimes(a);
  }

  lemma DelayFromRemainder(n: nat, q: int, r: int)
    requires n <= 63 && ODD_PART == 2 * Pow2(n) * q + r && 0 <= r < 2 * Pow2(n)
    ensures Wrap64(ODD_PART * Pow2(63 - n)) == Wrap64(r * Pow2(63 - n))
    ensures r < Pow2(n) ==> r * Pow2(63 - n) < TWO_TO_63
    ensures r >= Pow2(n) ==> TWO_TO_63 <= r * Pow2(63 - n) < TWO_TO_64
  {
    hide Wrap64, Pow2;
    Pow2Big();
    Pow2Add(n, 63 - n);
    var m, k := Pow2(n), Pow2(63 - n);
    assert m * k == TWO_TO_63;
    Distribute(m, k, q, r);
    assert ODD_PART * k == 2 * TWO_TO_63 * q + r * k;
    WrapShift(ODD_PART * k, q);
    assert ODD_PART * k - TWO_TO_64 * q == r * k;
    Scale(r, m, k);
  }

  lemma Distribute(m: int, k: int, q: int, r: int)
    ensures (2 * m * q + r) * k == 2 * (m * k) * q + r * k
  {
  }

  lemma Scale(r: int, m: nat, k: nat)
    requires 0 <= r && 0 < k
    ensures r < m ==> r * k < m * k
    ensures r >= m ==> m * k <= r * k
    ensures r < 2 * m ==> r * k < 2 * (m * k)
    ensures r >= 1 ==> k <= r * k
  {
  }

  lemma WrapHigh(x: int)
    requires TWO_TO_63 <= x < TWO_TO_64
    ensures Wrap64(x) == x - TWO_TO_64
  {
  }

  /** Between 31 and 54 attempts the sign of the wrapped product is one bit of the odd part. */
  lemma WrappedDelay(a: nat)
    requires 31 <= a <= 54
    ensures (ODD_PART / Pow2(54 - a)) % 2 == 0 ==> Backoff(a) == 300 * SECOND
    ensures (ODD_PART / Pow2(54 - a)) % 2 == 1 ==> Backoff(a) < 0
  {
    hide Wrap64, Pow2, ShiftOne;
    var n := 54 - a;
    var m, k := Pow2(n), Pow2(63 - n);
    var q, r := ODD_PART / (2 * m), ODD_PART % (2 * m);
    Pow2Big();
    Pow2Grows(40, 63 - n);
    UncappedDelay(a);
    DelayFromRemainder(n, q, r);
    HalfDigit(ODD_PART, m, q, r);
    assert r >= 1 by { OddRemainder(m, q, r); }
    Scale(r, m, k);
    WrapIsInt64(r * k);
    if r >= m {
      WrapHigh(r * k);
    }
  }

  lemma OddRemainder(m: nat, q: int, r: int)
    requires ODD_PART == 2 * m * q + r && 0 <= r
    ensures r >= 1
  {
    assert 2 * m * q == 2 * (m * q);
  }

  lemma HalfDigit(c: nat, m: nat, q: int, r: int)
    requires 0 < m && c == 2 * m * q + r && 0 <= r < 2 * m
    ensures (c / m) % 2 == if r >= m then 1 else 0
  {
    var d := if r >= m then 1 else 0;
    assert c == m * (2 * q + d) + (r - m * d);
    QuotientIs(c, m, 2 * q + d, r - m * d);
  }

  lemma QuotientIs(c: int, m: nat, q: int, r: int)
    requires 0 <= r < m && c == m * q + r
    ensures c / m == q
  {
    var d := c / m - q;
    assert c == m * (c / m) + c % m;
    assert m * d == r - c % m;
    assert d >= 1 ==> m * d >= m;
    assert d <= -1 ==> m * d <= -(m as int);
  }

  /** From 55 attempts on the product is a multiple of 2^64. */
  lemma BackoffVanishes(a: nat)
    requires 55 <= a
    ensures Backoff(a) == 0
  {
    if a < 64 {
      UncappedDelay(a);
      Pow2Big();
      Pow2Add(64, a - 55);
      assert ODD_PART * Pow2(9 + a) == 0 - TWO_TO_64 * -(ODD_PART * Pow2(a - 55));
      WrapShift(0, -(ODD_PART * Pow2(a - 55)));
    }
  }

  /** The delay is the intended min(5 * 2^attempts, 300) seconds exactly for up to 30 attempts
      and, up to 54, when bit 54 - attempts of the odd part is clear. */
  lemma BackoffIntendedIff(a: nat)
    ensures Backoff(a) == (if 5 * Pow2(a) <= 300 then 5 * Pow2(a) * SECOND else 300 * SECOND)
       <==> a <= 30 || (a <= 54 && (ODD_PART / Pow2(54 - a)) % 2 == 0)
  {
    if a <= 30 {
      BackoffExact(a);
    } else {
      Pow2Thirty();
      Pow2Grows(30, a);
      if a <= 54 {
        WrappedDelay(a);
      } else {
        BackoffVanishes(a);
      }
    }
  }

  lemma DelayCapped(a: nat)
    ensures Backoff(a) <= 300 * SECOND
  {
  }

  /** The first attempt count that overflows gives a negative delay. */
  lemma BackoffOverflows()
    ensures Backoff(31) < 0
  {
    Pow2Thirty();
    assert Pow2(23) == 8_388_608 by {
      Pow2Add(20, 3);
      Pow2Add(10, 10);
      assert Pow2(10) == 1024 && Pow2(3) == 8;
    }
    WrappedDelay(31);
  }

  /** Every retry the queue schedules with at most 31 allowed attempts is in the exact range. */
  lemma RetryInRange(read: Task, now: Time)
    requires read.maxAttempts <= 31
    ensures Judge(read, now).Retry? ==>
      read.attempts <= 30 && now + 5 * SECOND <= Judge(read, now).at <= now + 300 * SECOND
  {
    if read.attempts <= 30 {
      BackoffMonotone(read.attempts, read.attempts);
    }
  }

  // ---- Runs of whole operations under a clock that never goes back ----

  datatype Event =
    | ClaimedAt(id: string, at: Time)
    | RetriedAt(id: string, at: Time, attempts: nat)
    | RecoveredAll(ids: set<string>)

  datatype State = State(tasks: Tasks, clock: Time, log: seq<Event>)

  /** A claim may take any claimable task, whatever the kinds, locks and order. A recovery may have
      read its clock `late` before its statement. */
  datatype Action =
    | Enqueue(id: string, kind: string, org: nat, payload: string)
    | Claim(id: string, lag: nat)
    | Complete(id: string)
    | Fail(id: string, reason: string)
    | Recover(timeout: Time, late: nat)
    | Cancel(id: string, org: nat)
    | Tick(amount: nat)

  function Step(s: State, a: Action): State {
    match a
    case Enqueue(id, kind, org, payload) =>
      if id in s.tasks then s else s.(tasks := s.tasks[id := NewTask(kind, org, payload, s.clock)])
    case Claim(id, lag) =>
      if id in s.tasks && Claimable(s.tasks[id], s.clock) then
        State(s.tasks[id := Claimed(s.tasks[id], s.clock + lag)], s.clock + lag, s.log + [ClaimedAt(id, s.clock)])
      else s
    case Complete(id) =>
      if id in s.tasks then s.(tasks := s.tasks[id := Done(s.tasks[id], s.clock)]) else s
    case Fail(id, reason) =>
      if id !in s.tasks then s
      else
        var task := s.tasks[id];
        var v := Judge(task, s.clock);
        s.(tasks := s.tasks[id := Apply(task, v, reason)],
           log := if v.Retry? then s.log + [RetriedAt(id, s.clock, task.attempts)] else s.log)
    case Recover(timeout, late) =>
      s.(tasks := Recovered(s.tasks, s.clock - late, timeout),
         log := s.log + [RecoveredAll(StaleIds(s.tasks, s.clock - late, timeout))])
    case Cancel(id, org) =>
      if id in s.tasks && Cancellable(s.tasks[id], org) then
        s.(tasks := s.tasks[id := s.tasks[id].(status := Failed)])
      else s
    case Tick(amount) => s.(clock := s.clock + amount)
  }

  function Run(s: State, actions: seq<Action>): State {
    if actions == [] then s else Step(Run(s, actions[..|actions| - 1]), actions[|actions| - 1])
  }

  function Init(clock: Time): State {
    State(map[], clock, [])
  }

  function Claims(log: seq<Event>, id: string): nat {
    if log == [] then 0
    else
      var e := log[|log| - 1];
      Claims(log[..|log| - 1], id) + if e.ClaimedAt? && e.id == id then 1 else 0
  }

  function Recoveries(log: seq<Event>, id: string): nat {
    if log == [] then 0
    else
      var e := log[|log| - 1];
      Recoveries(log[..|log| - 1], id) + if e.RecoveredAll? && id in e.ids then 1 else 0
  }

  predicate TaskOk(task: Task, claims: nat, recoveries: nat) {
    && task.maxAttempts == MAX_ATTEMPTS
    && task.attempts == claims
    && task.attempts <= MAX_ATTEMPTS + recoveries
    && (task.status.Pending? ==> task.attempts < MAX_ATTEMPTS + recoveries)
  }

  ghost predicate AttemptsOk(s: State) {
    && (forall id :: id in s.tasks ==> TaskOk(s.tasks[id], Claims(s.log, id), Recoveries(s.log, id)))
    && (forall id :: id !in s.tasks ==> Claims(s.log, id) == 0 && Recoveries(s.log, id) == 0)
  }

  lemma LogSnoc(log: seq<Event>, e: Event, id: string)
    ensures Claims(log + [e], id) == Claims(log, id) + if e.ClaimedAt? && e.id == id then 1 else 0
    ensures Recoveries(log + [e], id) == Recoveries(log, id) + if e.RecoveredAll? && id in e.ids then 1 else 0
  {
    assert (log + [e])[..|log|] == log;
  }

  lemma StepKeepsAttempts(s: State, a: Action)
    requires AttemptsOk(s)
    ensures AttemptsOk(Step(s, a))
  {
    hide Claims, Recoveries, Backoff;
    var s' := Step(s, a);
    assert s'.log == s.log || (|s'.log| == |s.log| + 1 && s'.log == s.log + [s'.log[|s.log|]]);
    forall id
      ensures id in s'.tasks ==> TaskOk(s'.tasks[id], Claims(s'.log, id), Recoveries(s'.log, id))
      ensures id !in s'.tasks ==> Claims(s'.log, id) == 0 && Recoveries(s'.log, id) == 0
    {
      if s'.log != s.log {
        LogSnoc(s.log, s'.log[|s.log|], id);
      }
    }
  }

  /** In every run a task's attempts is its number of claims, at most the maximum plus its
      recoveries, and strictly below that while it is pending. */
  lemma {:induction false} AttemptsBounded(clock: Time, actions: seq<Action>)
    ensures AttemptsOk(Run(Init(clock), actions))
  {
    if actions != [] {
      AttemptsBounded(clock, actions[..|actions| - 1]);
      StepKeepsAttempts(Run(Init(clock), actions[..|actions| - 1]), actions[|actions| - 1]);
    }
  }

  // ---- No claim before the delay is over ----

  predicate RetryHeld(s: State, e: Event)
    requires e.RetriedAt?
  {
    && e.at <= s.clock && e.attempts < MAX_ATTEMPTS
    && e.id in s.tasks && e.attempts <= s.tasks[e.id].attempts
    && s.tasks[e.id].maxAttempts == MAX_ATTEMPTS
    && s.tasks[e.id].retryAfter.Some? && e.at + Backoff(e.attempts) <= s.tasks[e.id].retryAfter.value
  }

  ghost predicate DelaysOk(s: State) {
    && (forall id :: id in s.tasks ==> s.tasks[id].maxAttempts == MAX_ATTEMPTS)
    && (forall i :: 0 <= i < |s.log| && s.log[i].RetriedAt? ==> RetryHeld(s, s.log[i]))
    && (forall i, j ::
        0 <= i < j < |s.log| && s.log[i].RetriedAt? && s.log[j].ClaimedAt? && s.log[i].id == s.log[j].id ==>
        s.log[i].at + Backoff(s.log[i].attempts) <= s.log[j].at)
  }

  lemma HeldAfterStep(s: State, a: Action, e: Event)
    requires e.RetriedAt? && RetryHeld(s, e)
    ensures RetryHeld(Step(s, a), e)
  {
    hide Backoff;
    if a.Fail? && a.id == e.id && s.tasks[a.id].attempts < MAX_ATTEMPTS {
      BackoffMonotone(e.attempts, s.tasks[a.id].attempts);
    }
  }

  lemma StepKeepsDelays(s: State, a: Action)
    requires DelaysOk(s)
    ensures DelaysOk(Step(s, a))
  {
    hide Backoff;
    var s' := Step(s, a);
    forall i | 0 <= i < |s'.log| && s'.log[i].RetriedAt? ensures RetryHeld(s', s'.log[i]) {
      if i < |s.log| {
        assert s'.log[i] == s.log[i];
        HeldAfterStep(s, a, s.log[i]);
      }
    }
    forall i, j | 0 <= i < j < |s'.log| && s'.log[i].RetriedAt? && s'.log[j].ClaimedAt? && s'.log[i].id == s'.log[j].id
      ensures s'.log[i].at + Backoff(s'.log[i].attempts) <= s'.log[j].at
    {
      assert s'.log[i] == s.log[i];
      assert RetryHeld(s, s.log[i]);
    }
  }

  /** In every run, no claim of a task happens before a retrying Fail's time plus its delay. */
  lemma {:induction false} NoEarlyClaim(clock: Time, actions: seq<Action>)
    ensures DelaysOk(Run(Init(clock), actions))
  {
    if actions != [] {
      NoEarlyClaim(clock, actions[..|actions| - 1]);
      StepKeepsDelays(Run(Init(clock), actions[..|actions| - 1]), actions[|actions| - 1]);
    }
  }

  // ---- Reports that do not look at the status ----

  /** A completed row that a late Fail puts back into the queue. */
  lemma CompletedRowReopens()
    ensures var done := [Action.Enqueue("t", "k", 0, ""), Action.Claim("t", 0), Action.Complete("t")];
      var s := Run(Init(0), done);
      var s' := Run(Init(0), done + [Action.Fail("t", "late"), Action.Tick(300 * SECOND)]);
      && "t" in s.tasks && s.tasks["t"].status == Completed
      && "t" in s'.tasks && s'.tasks["t"].status == Pending && Claimable(s'.tasks["t"], s'.clock)
  {
    hide Backoff, Run;
    var enqueue, claim := Action.Enqueue("t", "k", 0, ""), Action.Claim("t", 0);
    var done, fail, tick := [enqueue, claim, Action.Complete("t")], Action.Fail("t", "late"), Action.Tick(300 * SECOND);
    RunOne(Init(0), [], enqueue);
    RunOne(Init(0), [enqueue], claim);
    RunOne(Init(0), [enqueue, claim], Action.Complete("t"));
    RunOne(Init(0), done, fail);
    RunOne(Init(0), done + [fail], tick);
    assert [] + [enqueue] == [enqueue] && [enqueue] + [claim] == [enqueue, claim];
    assert [enqueue, claim] + [Action.Complete("t")] == done;
    assert done + [fail, tick] == done + [fail] + [tick];
    BackoffMonotone(1, 1);
  }

  lemma RunOne(s: State, actions: seq<Action>, a: Action)
    ensures Run(s, []) == s && Run(s, actions + [a]) == Step(Run(s, actions), a)
  {
    assert (actions + [a])[..|actions|] == actions;
  }

  /** Fail does not look at the status: it reopens a completed or cancelled task exactly when
      attempts are left, so both ends are final only for workers that keep to their lease. */
  lemma FailReopensIff(task: Task, now: Time, reason: string)
    requires task.status.Completed? || task.status.Failed?
    ensures Claimable(Apply(task, Judge(task, now), reason), now + 300 * SECOND) <==> task.attempts < task.maxAttempts
  {
    hide Backoff;
    DelayCapped(task.attempts);
  }
}
