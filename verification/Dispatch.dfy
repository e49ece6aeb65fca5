/** Workflow dispatch: the handler table, its lookup order, and which handlers one dispatch
    submits to an arbitrary executor. */
module Dispatch {
  import opened Common

  datatype Phase = Pre | Main | Post | Unknown(text: string)

  datatype Handler = Handler(resourceType: string, event: string, phase: Phase, priority: int, ref: string)

  function PhaseOrder(p: Phase): nat {
    match p case Pre => 0 case Main => 1 case Post => 2 case Unknown(_) => 3
  }

  predicate Less(a: Handler, b: Handler) {
    PhaseOrder(a.phase) < PhaseOrder(b.phase) || (PhaseOrder(a.phase) == PhaseOrder(b.phase) && a.priority < b.priority)
  }

  /** No later handler comes before an earlier one. */
  predicate Sorted(hs: seq<Handler>) {
    forall i, j :: 0 <= i < j < |hs| ==> !Less(hs[j], hs[i])
  }

  function DispatchKey(resourceType: string, event: string): string {
    resourceType + "." + event
  }

  // ---- Keys ----

  /** Two different pairs share a key exactly when a dot inside one resource type lets the text
      be cut twice. */
  ghost predicate CutTwice(rt: string, ev: string, rt': string, ev': string) {
    exists x :: rt' == rt + "." + x && ev == x + "." + ev'
  }

  lemma KeyCollisionIff(rt: string, ev: string, rt': string, ev': string)
    requires |rt| <= |rt'|
    ensures DispatchKey(rt, ev) == DispatchKey(rt', ev') <==>
            (rt == rt' && ev == ev') || CutTwice(rt, ev, rt', ev')
  {
    var a, b := DispatchKey(rt, ev), DispatchKey(rt', ev');
    if a == b && |rt| < |rt'| {
      var x := rt'[|rt| + 1..];
      assert rt' == b[..|rt'|] == rt + "." + x;
      assert ev == a[|rt| + 1..] == b[|rt| + 1..] == x + "." + ev';
    } else if a == b {
      assert rt == a[..|rt|] && rt' == b[..|rt|];
      assert ev == a[|rt| + 1..] && ev' == b[|rt| + 1..];
    }
    if x :| rt' == rt + "." + x && ev == x + "." + ev' {
      assert a == rt + "." + x + "." + ev' == b;
    }
  }

  /** So resource types without dots never share a key. */
  lemma KeyInjective(rt: string, ev: string, rt': string, ev': string)
    requires '.' !in rt && '.' !in rt'
    ensures DispatchKey(rt, ev) == DispatchKey(rt', ev') <==> rt == rt' && ev == ev'
  {
    if |rt| <= |rt'| {
      KeyCollisionIff(rt, ev, rt', ev');
      assert forall x :: (rt + "." + x)[|rt|] == '.';
    } else {
      KeyCollisionIff(rt', ev', rt, ev);
      assert forall x :: (rt' + "." + x)[|rt'|] == '.';
    }
  }

  function ForKey(all: seq<Handler>, key: string): seq<Handler> {
    if all == [] then []
    else
      var h := all[|all| - 1];
      ForKey(all[..|all| - 1], key) + if DispatchKey(h.resourceType, h.event) == key then [h] else []
  }

  /** The handlers under a key, as often as they are registered. */
  lemma {:induction false} ForKeyCounts(all: seq<Handler>, key: string)
    ensures forall h ::
      multiset(ForKey(all, key))[h] == if h.resourceType + "." + h.event == key then multiset(all)[h] else 0
  {
    if all != [] {
      var front, last := all[..|all| - 1], all[|all| - 1];
      ForKeyCounts(front, key);
      assert all == front + [last];
    }
  }

  function ForPair(all: seq<Handler>, rt: string, ev: string): seq<Handler> {
    if all == [] then []
    else
      var h := all[|all| - 1];
      ForPair(all[..|all| - 1], rt, ev) + if h.resourceType == rt && h.event == ev then [h] else []
  }

  /** Without dots a lookup finds exactly the handlers registered for its pair. */
  lemma {:induction false} KeyFindsPair(all: seq<Handler>, rt: string, ev: string)
    requires '.' !in rt && forall h :: h in all ==> '.' !in h.resourceType
    ensures ForKey(all, DispatchKey(rt, ev)) == ForPair(all, rt, ev)
  {
    if all != [] {
      var h := all[|all| - 1];
      assert h in all;
      KeyFindsPair(all[..|all| - 1], rt, ev);
      KeyInjective(rt, ev, h.resourceType, h.event);
    }
  }

  /** With a dot, handlers of another pair can be found. */
  lemma DottedLookupLeaks(h: Handler)
    requires h.resourceType == "a.b" && h.event == "c"
    ensures ForKey([h], DispatchKey("a", "b.c")) == [h] && ForPair([h], "a", "b.c") == []
  {
    assert DispatchKey("a.b", "c") == DispatchKey("a", "b.c");
    assert [h][..0] == [];
  }

  // ---- The table ----

  /** Sorting leaves the order of equal handlers open, as an unstable sort does. */
  method SortSlice(hs: seq<Handler>) returns (r: seq<Handler>)
    ensures Sorted(r) && multiset(r) == multiset(hs)
  {
    r := [];
    for i := 0 to |hs|
      invariant Sorted(r) && multiset(r) == multiset(hs[..i])
    {
      var h := hs[i];
      var k := |r|;
      while k > 0 && Less(h, r[k - 1])
        invariant 0 <= k <= |r|
        invariant forall j :: k <= j < |r| ==> Less(h, r[j])
      {
        k := k - 1;
      }
      assert hs[..i + 1] == hs[..i] + [h];
      InsertKeepsSorted(r, k, h);
      InsertKeepsElements(r, k, h);
      r := r[..k] + [h] + r[k..];
    }
    assert hs[..|hs|] == hs;
  }

  /** "Not before" is transitive. */
  lemma NotLessTransitive(a: Handler, b: Handler, c: Handler)
    requires !Less(b, a) && !Less(c, b)
    ensures !Less(c, a)
  {
  }

  lemma LessAsymmetric(a: Handler, b: Handler)
    requires Less(a, b)
    ensures !Less(b, a)
  {
  }

  lemma InsertKeepsElements(r: seq<Handler>, k: nat, h: Handler)
    requires k <= |r|
    ensures multiset(r[..k] + [h] + r[k..]) == multiset(r) + multiset{h}
  {
    assert r == r[..k] + r[k..];
  }

  lemma InsertKeepsSorted(r: seq<Handler>, k: nat, h: Handler)
    requires k <= |r| && Sorted(r)
    requires (k > 0 ==> !Less(h, r[k - 1])) && forall j :: k <= j < |r| ==> Less(h, r[j])
    ensures Sorted(r[..k] + [h] + r[k..])
  {
    hide Less;
    var s := r[..k] + [h] + r[k..];
    forall i, j | 0 <= i < j < |s| ensures !Less(s[j], s[i]) {
      if j == k {
        assert s[i] == r[i] && s[j] == h;
        if i < k - 1 {
          NotLessTransitive(r[i], r[k - 1], h);
        }
      } else if i == k {
        assert s[i] == h && s[j] == r[j - 1];
        LessAsymmetric(h, r[j - 1]);
      } else {
        assert s[i] == r[if i < k then i else i - 1] && s[j] == r[if j < k then j else j - 1];
      }
    }
  }

  class DispatchTable {
    var actions: map<string, seq<Handler>>
    ghost var registered: seq<Handler>

    ghost predicate Valid()
      reads this
    {
      forall key :: ForKey(registered, key) == if key in actions then actions[key] else []
    }

    constructor ()
      ensures Valid() && registered == []
    {
      actions, registered := map[], [];
    }

    method Register(h: Handler)
      requires Valid()
      modifies this
      ensures Valid() && registered == old(registered) + [h]
    {
      var key := DispatchKey(h.resourceType, h.event);
      actions := actions[key := (if key in actions then actions[key] else []) + [h]];
      registered := registered + [h];
      assert registered[..|registered| - 1] == old(registered);
    }

    method Lookup(resourceType: string, event: string) returns (hs: seq<Handler>)
      requires Valid()
      ensures Sorted(hs) && multiset(hs) == multiset(ForKey(registered, DispatchKey(resourceType, event)))
      ensures forall h ::
        multiset(hs)[h] ==
        if h.resourceType + "." + h.event == resourceType + "." + event then multiset(registered)[h] else 0
    {
      ForKeyCounts(registered, DispatchKey(resourceType, event));
      var key := DispatchKey(resourceType, event);
      hs := SortSlice(if key in actions then actions[key] else []);
    }
  }

  // ---- Dispatching ----

  datatype RunStatus = RunPending | RunRunning | RunCompleted | RunFailed

  type Input = map<string, string>

  datatype Run = Run(id: string, status: RunStatus, outputs: Option<Input>)

  predicate Terminal(s: RunStatus) {
    s.RunCompleted? || s.RunFailed?
  }

  datatype Response = SubmitError | Submitted(run: Run)

  datatype Submission = Submission(handler: Handler, input: Input)

  datatype Outcome = PreRejected(handler: Handler) | MainNotSubmitted(handler: Handler) | Dispatched(main: Option<Run>)

  datatype Target = Target(org: nat, name: string)

  datatype TrackedRun = TrackedRun(
    runId: string, resourceType: string, target: Target, event: string, submittedAt: Time)

  function OfPhase(hs: seq<Handler>, p: Phase): seq<Handler> {
    if hs == [] then []
    else OfPhase(hs[..|hs| - 1], p) + if hs[|hs| - 1].phase == p then [hs[|hs| - 1]] else []
  }

  function With(hs: seq<Handler>, input: Input): (subs: seq<Submission>)
    ensures |subs| == |hs|
  {
    seq(|hs|, i requires 0 <= i < |hs| => Submission(hs[i], input))
  }

  /** A pre handler stops the dispatch by an error or by a failed run. */
  predicate Stops(r: Response) {
    r.SubmitError? || r.run.status.RunFailed?
  }

  /** The executor's first stopping answer among its first `n`. */
  function FirstStop(executor: nat -> Response, n: nat): (r: Option<nat>)
    ensures r.Some? ==> r.value < n && Stops(executor(r.value)) && forall i :: 0 <= i < r.value ==> !Stops(executor(i))
    ensures r == None ==> forall i :: 0 <= i < n ==> !Stops(executor(i))
  {
    if n == 0 then None
    else match FirstStop(executor, n - 1)
      case Some(k) => Some(k)
      case None => if Stops(executor(n - 1)) then Some(n - 1) else None
  }

  method MergeInputs(base: Input, overlay: Input) returns (merged: Input)
    ensures merged == base + overlay
  {
    merged := map[];
    var left := base.Keys;
    while left != {}
      invariant left <= base.Keys && merged == base - left
    {
      var k :| k in left;
      merged := merged[k := base[k]];
      left := left - {k};
    }
    left := overlay.Keys;
    while left != {}
      invariant left <= overlay.Keys && merged == base + (overlay - left)
    {
      var k :| k in left;
      merged := merged[k := overlay[k]];
      left := left - {k};
    }
  }

  /** Outputs of the main run override the dispatch input. */
  function PostInput(input: Input, main: Option<Run>): Input {
    if main.Some? && main.value.outputs.Some? then input + main.value.outputs.value else input
  }

  /** What a dispatch over sorted handlers submits, the executor's k-th answer being
      `executor(k)`: all pre handlers up to the first that stops, then the first main handler
      unless its submission fails, then all post handlers. */
  function Plan(hs: seq<Handler>, input: Input, executor: nat -> Response): (Outcome, seq<Submission>) {
    var pres, mains, posts := OfPhase(hs, Pre), OfPhase(hs, Main), OfPhase(hs, Post);
    match FirstStop(executor, |pres|)
    case Some(k) => (PreRejected(pres[k]), With(pres[..k + 1], input))
    case None =>
      if mains == [] then (Dispatched(None), With(pres, input) + With(posts, input))
      else
        match executor(|pres|)
        case SubmitError => (MainNotSubmitted(mains[0]), With(pres + [mains[0]], input))
        case Submitted(run) =>
          (Dispatched(Some(run)), With(pres + [mains[0]], input) + With(posts, PostInput(input, Some(run))))
  }

  /** A main run is tracked when it was submitted for a target and has not ended yet. */
  function Tracking(tracked: map<string, TrackedRun>, o: Outcome, rt: string, ev: string,
                    target: Option<Target>, now: Time): map<string, TrackedRun>
  {
    if o.Dispatched? && o.main.Some? && !Terminal(o.main.value.status) && target.Some? then
      tracked[o.main.value.id := TrackedRun(o.main.value.id, rt, target.value, ev, now)]
    else tracked
  }

  lemma PhaseSnoc(hs: seq<Handler>, i: nat, p: Phase)
    requires i < |hs|
    ensures OfPhase(hs[..i + 1], p) == OfPhase(hs[..i], p) + if hs[i].phase == p then [hs[i]] else []
  {
    assert hs[..i + 1][..i] == hs[..i];
  }

  lemma {:induction false} PhasePrefix(hs: seq<Handler>, i: nat, p: Phase)
    requires i <= |hs|
    ensures OfPhase(hs[..i], p) <= OfPhase(hs, p)
    decreases |hs| - i
  {
    if i < |hs| {
      PhasePrefix(hs, i + 1, p);
      PhaseSnoc(hs, i, p);
    } else {
      assert hs[..i] == hs;
    }
  }

  lemma WithSnoc(hs: seq<Handler>, h: Handler, input: Input)
    ensures With(hs + [h], input) == With(hs, input) + [Submission(h, input)]
  {
  }

  lemma NoneYet(p: Phase, executor: nat -> Response)
    ensures OfPhase([], p) == [] && FirstStop(executor, 0) == None
  {
  }

  lemma NoStopYet(executor: nat -> Response, n: nat)
    requires FirstStop(executor, n) == None && !Stops(executor(n))
    ensures FirstStop(executor, n + 1) == None
  {
  }

  class Dispatcher {
    const table: DispatchTable
    var tracked: map<string, TrackedRun>

    constructor (table: DispatchTable)
      ensures this.table == table && tracked == map[]
    {
      this.table, this.tracked := table, map[];
    }

    /** Submits the pre handlers; `stop` is the one that stopped the dispatch. */
    method SubmitPre(hs: seq<Handler>, input: Input, executor: nat -> Response)
      returns (stop: Option<Handler>, subs: seq<Submission>)
      ensures var pres := OfPhase(hs, Pre);
        match FirstStop(executor, |pres|)
        case Some(k) => stop == Some(pres[k]) && subs == With(pres[..k + 1], input)
        case None => stop == None && subs == With(pres, input)
    {
      hide OfPhase, FirstStop;
      NoneYet(Pre, executor);
      subs := [];
      for i := 0 to |hs|
        invariant subs == With(OfPhase(hs[..i], Pre), input)
        invariant FirstStop(executor, |OfPhase(hs[..i], Pre)|) == None
      {
        PhaseSnoc(hs, i, Pre);
        if hs[i].phase != Pre {
          continue;
        }
        var before := OfPhase(hs[..i], Pre);
        WithSnoc(before, hs[i], input);
        subs := subs + [Submission(hs[i], input)];
        if Stops(executor(|before|)) {
          StopFound(hs, i, executor);
          return Some(hs[i]), subs;
        }
        NoStopYet(executor, |before|);
      }
      assert hs[..|hs|] == hs;
      return None, subs;
    }

    method SubmitPost(hs: seq<Handler>, input: Input, main: Option<Run>) returns (subs: seq<Submission>)
      ensures subs == With(OfPhase(hs, Post), PostInput(input, main))
    {
      subs := [];
      for i := 0 to |hs|
        invariant subs == With(OfPhase(hs[..i], Post), PostInput(input, main))
      {
        PhaseSnoc(hs, i, Post);
        if hs[i].phase != Post {
          continue;
        }
        var postInput := input;
        if main.Some? && main.value.outputs.Some? {
          postInput := MergeInputs(input, main.value.outputs.value);
        }
        WithSnoc(OfPhase(hs[..i], Post), hs[i], postInput);
        subs := subs + [Submission(hs[i], postInput)];
      }
      assert hs[..|hs|] == hs;
    }

    method FindMain(hs: seq<Handler>) returns (main: Option<Handler>)
      ensures main == if OfPhase(hs, Main) == [] then None else Some(OfPhase(hs, Main)[0])
    {
      for i := 0 to |hs|
        invariant OfPhase(hs[..i], Main) == []
      {
        PhaseSnoc(hs, i, Main);
        if hs[i].phase == Main {
          PhasePrefix(hs, i + 1, Main);
          return Some(hs[i]);
        }
      }
      assert hs[..|hs|] == hs;
      return None;
    }

    method Dispatch(resourceType: string, event: string, input: Input, target: Option<Target>,
                    executor: nat -> Response, now: Time)
      returns (outcome: Outcome, subs: seq<Submission>, ghost handlers: seq<Handler>)
      requires table.Valid()
      modifies this`tracked
      ensures Sorted(handlers)
      ensures multiset(handlers) == multiset(ForKey(table.registered, DispatchKey(resourceType, event)))
      ensures (outcome, subs) == Plan(handlers, input, executor)
      ensures var added :=
          && outcome.Dispatched? && outcome.main.Some? && target.Some?
          && outcome.main.value.status != RunCompleted && outcome.main.value.status != RunFailed;
        tracked == if added then old(tracked)[outcome.main.value.id :=
                     TrackedRun(outcome.main.value.id, resourceType, target.value, event, now)]
                   else old(tracked)
      ensures tracked == Tracking(old(tracked), outcome, resourceType, event, target, now)
    {
      hide OfPhase, FirstStop, Sorted, ForKey, With;
      var hs := table.Lookup(resourceType, event);
      handlers := hs;
      if |hs| == 0 {
        EmptyPlan(input, executor);
        return Dispatched(None), [], handlers;
      }
      var stop, preSubs := SubmitPre(hs, input, executor);
      subs := preSubs;
      if stop.Some? {
        return PreRejected(stop.value), subs, handlers;
      }
      var main := FindMain(hs);
      var mainRun := None;
      if main.Some? {
        var response := executor(|subs|);
        WithSnoc(OfPhase(hs, Pre), main.value, input);
        subs := subs + [Submission(main.value, input)];
        if response.SubmitError? {
          return MainNotSubmitted(main.value), subs, handlers;
        }
        mainRun := Some(response.run);
        if !Terminal(response.run.status) && target.Some? {
          tracked := tracked[response.run.id := TrackedRun(response.run.id, resourceType, target.value, event, now)];
        }
      }
      var postSubs := SubmitPost(hs, input, mainRun);
      subs := subs + postSubs;
      return Dispatched(mainRun), subs, handlers;
    }
  }

  lemma EmptyPlan(input: Input, executor: nat -> Response)
    ensures Plan([], input, executor) == (Dispatched(None), [])
  {
    assert With([], input) + With([], input) == [];
  }

  lemma StopFound(hs: seq<Handler>, i: nat, executor: nat -> Response)
    requires i < |hs| && hs[i].phase == Pre
    requires FirstStop(executor, |OfPhase(hs[..i], Pre)|) == None && Stops(executor(|OfPhase(hs[..i], Pre)|))
    ensures var k := |OfPhase(hs[..i], Pre)|; var pres := OfPhase(hs, Pre);
      && FirstStop(executor, |pres|) == Some(k) && k < |pres| && pres[k] == hs[i]
      && pres[..k + 1] == OfPhase(hs[..i + 1], Pre)
  {
    hide OfPhase, FirstStop;
    var k := |OfPhase(hs[..i], Pre)|;
    PhaseSnoc(hs, i, Pre);
    PhasePrefix(hs, i + 1, Pre);
    var stop := FirstStop(executor, |OfPhase(hs, Pre)|);
    assert stop.Some? && stop.value >= k;
  }

  // ---- What the plan promises ----

  function Handlers(subs: seq<Submission>): (hs: seq<Handler>)
    ensures |hs| == |subs|
  {
    seq(|subs|, i requires 0 <= i < |subs| => subs[i].handler)
  }

  lemma {:induction false} PhaseMembers(hs: seq<Handler>, p: Phase)
    ensures forall h :: h in OfPhase(hs, p) <==> h in hs && h.phase == p
    ensures forall h: Handler :: h.phase == p ==> multiset(OfPhase(hs, p))[h] == multiset(hs)[h]
  {
    if hs != [] {
      var front, last := hs[..|hs| - 1], hs[|hs| - 1];
      PhaseMembers(front, p);
      assert hs == front + [last];
    }
  }

  lemma SortedLast(hs: seq<Handler>, h: Handler)
    requires Sorted(hs) && hs != [] && h in hs[..|hs| - 1]
    ensures !Less(hs[|hs| - 1], h)
  {
  }

  lemma SortedSnoc(hs: seq<Handler>, last: Handler)
    requires Sorted(hs) && forall h :: h in hs ==> !Less(last, h)
    ensures Sorted(hs + [last])
  {
    hide Less;
  }

  lemma {:induction false} PhaseSorted(hs: seq<Handler>, p: Phase)
    requires Sorted(hs)
    ensures Sorted(OfPhase(hs, p))
  {
    hide Less;
    if hs != [] {
      var front, last := hs[..|hs| - 1], hs[|hs| - 1];
      PhaseSorted(front, p);
      PhaseMembers(front, p);
      forall h | h in OfPhase(front, p) ensures !Less(last, h) {
        SortedLast(hs, h);
      }
      SortedSnoc(OfPhase(front, p), last);
    }
  }

  lemma SortedConcat(a: seq<Handler>, b: seq<Handler>, p: Phase, q: Phase)
    requires Sorted(a) && Sorted(b) && PhaseOrder(p) < PhaseOrder(q)
    requires forall h :: h in a ==> PhaseOrder(h.phase) <= PhaseOrder(p)
    requires forall h :: h in b ==> h.phase == q
    ensures Sorted(a + b)
  {
    var s := a + b;
    forall i, j | 0 <= i < j < |s| ensures !Less(s[j], s[i]) {
      if i < |a| <= j {
        assert s[i] in a && s[j] in b;
      }
    }
  }

  /** Whatever the executor answers: submissions go pre, main, post and by priority within a
      phase; at most one main handler is submitted and none has a smaller priority; unless
      something stopped the dispatch every pre and post handler is submitted, each as often as
      it is registered. */
  lemma PlanInOrder(hs: seq<Handler>, input: Input, executor: nat -> Response)
    requires Sorted(hs)
    ensures var (outcome, subs) := Plan(hs, input, executor); var out := Handlers(subs);
      && Sorted(out)
      && (forall h :: h in out ==> h in hs && (h.phase == Pre || h.phase == Main || h.phase == Post))
      && |OfPhase(out, Main)| <= 1
      && (forall m, h :: m in out && m.phase == Main && h in hs && h.phase == Main ==> m.priority <= h.priority)
      && (outcome.Dispatched? ==> OfPhase(out, Pre) == OfPhase(hs, Pre) && OfPhase(out, Post) == OfPhase(hs, Post))
      && (outcome.Dispatched? ==> |OfPhase(out, Main)| == if OfPhase(hs, Main) == [] then 0 else 1)
  {
    hide Less, OfPhase, Sorted, Plan;
    var (outcome, subs) := Plan(hs, input, executor);
    var first, main, last := PlanShape(hs, input, executor);
    PartsSorted(hs, first, main, last);
    PartsByPhase(hs, first, main, last);
    MainIsMinimal(hs, first, main, last);
  }

  /** A dispatch is rejected exactly when a pre handler's submission fails or its run failed; the
      first such handler is the last submission. It ends without its main run exactly when no pre
      handler stops it and the main submission fails; then that is the last submission. */
  lemma PlanStopsIff(hs: seq<Handler>, input: Input, executor: nat -> Response)
    ensures var (outcome, subs) := Plan(hs, input, executor); var pres := OfPhase(hs, Pre);
      && (outcome.PreRejected? <==>
          exists k :: 0 <= k < |pres| && (executor(k).SubmitError? || executor(k).run.status == RunFailed))
      && (outcome.PreRejected? ==>
          && 0 < |subs| <= |pres| && Handlers(subs) == pres[..|subs|] && outcome.handler == pres[|subs| - 1]
          && Stops(executor(|subs| - 1)) && forall k :: 0 <= k < |subs| - 1 ==> !Stops(executor(k)))
      && (outcome.MainNotSubmitted? <==>
          && (forall k :: 0 <= k < |pres| ==> executor(k).Submitted? && executor(k).run.status != RunFailed)
          && OfPhase(hs, Main) != [] && executor(|pres|) == SubmitError)
      && (outcome.MainNotSubmitted? ==>
          Handlers(subs) == pres + [outcome.handler] && outcome.handler == OfPhase(hs, Main)[0])
      && (outcome.Dispatched? && outcome.main.Some? ==> executor(|pres|) == Submitted(outcome.main.value))
  {
    hide OfPhase;
    var pres := OfPhase(hs, Pre);
    var stop := FirstStop(executor, |pres|);
    assert stop.Some? ==> Stops(executor(stop.value));
  }

  /** Pre and main handlers get the dispatch input; post handlers get it with the main run's
      outputs put over it, key by key. */
  lemma PlanInputs(hs: seq<Handler>, input: Input, executor: nat -> Response, i: nat)
    requires i < |Plan(hs, input, executor).1|
    ensures var (outcome, subs) := Plan(hs, input, executor); var sub := subs[i];
      && (sub.handler.phase != Post ==> sub.input == input)
      && (sub.handler.phase == Post ==> outcome.Dispatched?)
      && (sub.handler.phase == Post && (outcome.main.None? || outcome.main.value.outputs.None?) ==> sub.input == input)
      && (sub.handler.phase == Post && outcome.main.Some? && outcome.main.value.outputs.Some? ==>
          var outputs := outcome.main.value.outputs.value;
          && sub.input.Keys == input.Keys + outputs.Keys
          && forall k :: k in sub.input ==> sub.input[k] == if k in outputs then outputs[k] else input[k])
  {
    hide OfPhase;
    PhaseMembers(hs, Pre);
    PhaseMembers(hs, Main);
    PhaseMembers(hs, Post);
    var pres, mains, posts := OfPhase(hs, Pre), OfPhase(hs, Main), OfPhase(hs, Post);
    var sub := Plan(hs, input, executor).1[i];
    if i < |pres| {
      assert sub.handler == pres[i] && pres[i] in pres;
    } else if mains != [] && i == |pres| {
      assert sub.handler == mains[0] && mains[0] in mains;
    } else {
      var j := i - |pres| - if mains == [] then 0 else 1;
      assert sub.handler == posts[j] && posts[j] in posts;
    }
  }

  lemma PlanShape(hs: seq<Handler>, input: Input, executor: nat -> Response)
    returns (first: seq<Handler>, main: seq<Handler>, last: seq<Handler>)
    ensures var (outcome, subs) := Plan(hs, input, executor);
      && Handlers(subs) == first + main + last
      && Parts(hs, first, main, last)
      && (outcome.Dispatched? ==> first == OfPhase(hs, Pre) && last == OfPhase(hs, Post))
      && (outcome.Dispatched? ==> |main| == if OfPhase(hs, Main) == [] then 0 else 1)
  {
    hide OfPhase;
    var pres, mains, posts := OfPhase(hs, Pre), OfPhase(hs, Main), OfPhase(hs, Post);
    var (outcome, subs) := Plan(hs, input, executor);
    main := if outcome.PreRejected? || mains == [] then [] else [mains[0]];
    first := if outcome.PreRejected? then pres[..|subs|] else pres;
    last := if outcome.Dispatched? then posts else [];
  }

  /** The three stretches of a plan, each cut from its phase. */
  predicate Parts(hs: seq<Handler>, first: seq<Handler>, main: seq<Handler>, last: seq<Handler>) {
    first <= OfPhase(hs, Pre) && main <= OfPhase(hs, Main) && |main| <= 1 && last <= OfPhase(hs, Post)
  }

  lemma PartsSorted(hs: seq<Handler>, first: seq<Handler>, main: seq<Handler>, last: seq<Handler>)
    requires Sorted(hs) && Parts(hs, first, main, last)
    ensures var out := first + main + last;
      Sorted(out) && forall h :: h in out ==> h in hs && (h.phase == Pre || h.phase == Main || h.phase == Post)
  {
    hide Less, OfPhase, Sorted;
    PrefixFacts(hs, first, Pre);
    PrefixFacts(hs, main, Main);
    PrefixFacts(hs, last, Post);
    SortedConcat(first, main, Pre, Main);
    SortedConcat(first + main, last, Main, Post);
  }

  lemma PartsByPhase(hs: seq<Handler>, first: seq<Handler>, main: seq<Handler>, last: seq<Handler>)
    requires Sorted(hs) && Parts(hs, first, main, last)
    ensures var out := first + main + last;
      OfPhase(out, Pre) == first && OfPhase(out, Main) == main && OfPhase(out, Post) == last
  {
    hide Less, OfPhase, Sorted;
    PrefixFacts(hs, first, Pre);
    PrefixFacts(hs, main, Main);
    PrefixFacts(hs, last, Post);
    PhaseSplit3(first, main, last, Pre);
    PhaseSplit3(first, main, last, Main);
    PhaseSplit3(first, main, last, Post);
  }

  lemma PhaseSplit3(a: seq<Handler>, b: seq<Handler>, c: seq<Handler>, p: Phase)
    ensures OfPhase(a + b + c, p) == OfPhase(a, p) + OfPhase(b, p) + OfPhase(c, p)
  {
    PhaseSplit(a + b, c, p);
    PhaseSplit(a, b, p);
  }

  lemma MainIsMinimal(hs: seq<Handler>, first: seq<Handler>, main: seq<Handler>, last: seq<Handler>)
    requires Sorted(hs) && Parts(hs, first, main, last)
    ensures forall m, h ::
      m in first + main + last && m.phase == Main && h in hs && h.phase == Main ==> m.priority <= h.priority
  {
    hide OfPhase;
    PrefixFacts(hs, first, Pre);
    PrefixFacts(hs, last, Post);
    PhaseMembers(hs, Main);
    PhaseSorted(hs, Main);
    var mains := OfPhase(hs, Main);
    forall m, h | m in first + main + last && m.phase == Main && h in hs && h.phase == Main
      ensures m.priority <= h.priority
    {
      assert m in main && m == mains[0];
      assert h in mains;
      var j :| 0 <= j < |mains| && mains[j] == h;
      assert j > 0 ==> !Less(mains[j], mains[0]);
      assert mains[0] in mains;
    }
  }

  lemma PrefixFacts(hs: seq<Handler>, part: seq<Handler>, p: Phase)
    requires Sorted(hs) && part <= OfPhase(hs, p)
    ensures Sorted(part) && (forall h :: h in part ==> h in hs && h.phase == p)
    ensures forall q :: OfPhase(part, q) == if q == p then part else []
  {
    PhaseMembers(hs, p);
    PhaseSorted(hs, p);
    forall q ensures OfPhase(part, q) == if q == p then part else [] {
      Uniform(part, p, q);
    }
  }

  lemma {:induction false} Uniform(part: seq<Handler>, p: Phase, q: Phase)
    requires forall h :: h in part ==> h.phase == p
    ensures OfPhase(part, q) == if q == p then part else []
  {
    if part != [] {
      var front, last := part[..|part| - 1], part[|part| - 1];
      assert last in part && part == front + [last];
      Uniform(front, p, q);
    }
  }

  lemma {:induction false} PhaseSplit(a: seq<Handler>, b: seq<Handler>, p: Phase)
    ensures OfPhase(a + b, p) == OfPhase(a, p) + OfPhase(b, p)
  {
    if b == [] {
      assert a + b == a;
    } else {
      PhaseSplit(a, b[..|b| - 1], p);
      assert (a + b)[..|a + b| - 1] == a + b[..|b| - 1];
    }
  }
}
