/** Status polling: one poller and any number of dispatches interleave at every point where
    the dispatcher's lock is free. */
module Tracking {
  import opened Common
  import opened Dispatch

  /** A status callback made by the poller. */
  datatype Call = Call(run: TrackedRun, status: RunStatus)

  /** Where the poller is: outside a round, between runs, or between a callback and the removal
      of its run. */
  datatype Poller = Idle | Polling(todo: seq<TrackedRun>) | Removing(run: TrackedRun, todo: seq<TrackedRun>)

  /** `ever` records every run ever tracked. */
  datatype State = State(
    tracked: map<string, TrackedRun>, ever: map<string, TrackedRun>, calls: seq<Call>, poller: Poller)

  datatype Action =
    | Track(run: TrackedRun)
    | BeginPoll(order: seq<string>)
    | Answer(response: Option<RunStatus>)
    | Remove
    | EndPoll

  /** Run identifiers are not reused; a round visits the tracked runs in some order. */
  predicate Enabled(s: State, a: Action) {
    match a
    case Track(run) => run.runId !in s.ever
    case BeginPoll(order) =>
      && s.poller.Idle? && Distinct(order)
      && (forall id :: id in order ==> id in s.tracked) && (forall id :: id in s.tracked ==> id in order)
    case Answer(_) => s.poller.Polling? && s.poller.todo != []
    case Remove => s.poller.Removing?
    case EndPoll => s.poller.Polling? && s.poller.todo == []
  }

  /** The tracked runs in the given order. */
  function RunsOf(tracked: map<string, TrackedRun>, order: seq<string>): (runs: seq<TrackedRun>)
    requires forall id :: id in order ==> id in tracked
    ensures |runs| == |order| && forall i :: 0 <= i < |order| ==> runs[i] == tracked[order[i]]
  {
    if order == [] then []
    else
      var n := |order| - 1;
      assert order[n] in order;
      RunsOf(tracked, order[..n]) + [tracked[order[n]]]
  }

  function Step(s: State, a: Action): State
    requires Enabled(s, a)
  {
    match a
    case Track(run) => s.(tracked := s.tracked[run.runId := run], ever := s.ever[run.runId := run])
    case BeginPoll(order) =>
      s.(poller := Polling(RunsOf(s.tracked, order)))
    case Answer(response) =>
      var run, rest := s.poller.todo[0], s.poller.todo[1..];
      if response.Some? && Terminal(response.value) then
        s.(calls := s.calls + [Call(run, response.value)], poller := Removing(run, rest))
      else s.(poller := Polling(rest))
    case Remove => s.(tracked := s.tracked - {s.poller.run.runId}, poller := Polling(s.poller.todo))
    case EndPoll => s.(poller := Idle)
  }

  ghost predicate Reaches(s: State, actions: seq<Action>, s': State)
    decreases actions
  {
    if actions == [] then s' == s
    else Enabled(s, actions[0]) && Reaches(Step(s, actions[0]), actions[1..], s')
  }

  const START := State(map[], map[], [], Idle)

  // ---- The invariant ----

  /** The runs called back. */
  function CallIds(calls: seq<Call>): set<string> {
    if calls == [] then {} else CallIds(calls[..|calls| - 1]) + {calls[|calls| - 1].run.runId}
  }

  /** Terminal statuses only, for runs that were tracked, and no run twice. */
  ghost predicate CallsOk(s: State) {
    && (forall c :: c in s.calls ==> Terminal(c.status) && c.run.runId in s.ever && s.ever[c.run.runId] == c.run)
    && |CallIds(s.calls)| == |s.calls|
  }

  /** Still to be polled in this round: distinct, tracked and not called back. */
  ghost predicate TodoOk(s: State, todo: seq<TrackedRun>) {
    && (forall i :: 0 <= i < |todo| ==>
        todo[i].runId in s.tracked && s.tracked[todo[i].runId] == todo[i] && todo[i].runId !in CallIds(s.calls))
    && (forall i, j :: 0 <= i < j < |todo| ==> todo[i].runId != todo[j].runId)
  }

  ghost predicate TrackedOk(s: State) {
    forall id :: id in s.tracked ==> id in s.ever && s.tracked[id] == s.ever[id] && s.tracked[id].runId == id
  }

  /** Every run is tracked or called back; only the one between its callback and its removal is
      both. */
  ghost predicate Accounted(s: State) {
    && (forall id :: id in s.ever ==> id in s.tracked || id in CallIds(s.calls))
    && (forall id :: id in CallIds(s.calls) ==> id in s.ever)
    && (forall id :: id in s.tracked && id in CallIds(s.calls) ==> s.poller.Removing? && s.poller.run.runId == id)
    && (s.poller.Removing? ==> s.poller.run.runId in CallIds(s.calls))
  }

  ghost predicate Inv(s: State) {
    CallsOk(s) && TrackedOk(s) && Accounted(s) && (!s.poller.Idle? ==> TodoOk(s, s.poller.todo))
  }

  lemma CallIdsSnoc(calls: seq<Call>, c: Call)
    ensures CallIds(calls + [c]) == CallIds(calls) + {c.run.runId}
  {
    assert (calls + [c])[..|calls|] == calls;
  }

  lemma TrackKeepsInv(s: State, run: TrackedRun)
    requires Inv(s) && Enabled(s, Track(run))
    ensures Inv(Step(s, Track(run)))
  {
    hide CallIds;
    var s' := Step(s, Track(run));
    assert CallsOk(s') && TrackedOk(s') && Accounted(s');
    if !s.poller.Idle? {
      TodoFrame(s, s', s.poller.todo);
    }
  }

  lemma TodoFrame(s: State, s': State, todo: seq<TrackedRun>)
    requires TodoOk(s, todo) && s'.calls == s.calls
    requires forall i :: 0 <= i < |todo| ==> todo[i].runId in s'.tracked && s'.tracked[todo[i].runId] == todo[i]
    ensures TodoOk(s', todo)
  {
    hide CallIds;
  }

  lemma BeginKeepsInv(s: State, order: seq<string>)
    requires Inv(s) && Enabled(s, BeginPoll(order))
    ensures Inv(Step(s, BeginPoll(order)))
  {
    hide CallIds;
    var s' := Step(s, BeginPoll(order));
    forall i | 0 <= i < |order|
      ensures order[i] in s.tracked && order[i] !in CallIds(s.calls) && s'.poller.todo[i] == s.tracked[order[i]]
      ensures s'.poller.todo[i].runId == order[i]
    {
      assert order[i] in order;
    }
    assert TodoOk(s', s'.poller.todo);
    assert CallsOk(s') && TrackedOk(s') && Accounted(s');
  }

  /** After the first run of the round, the others are still to do. */
  lemma TodoRest(s: State, todo: seq<TrackedRun>)
    requires TodoOk(s, todo) && todo != []
    ensures TodoOk(s, todo[1..])
    ensures forall i :: 0 <= i < |todo[1..]| ==> todo[1..][i].runId != todo[0].runId
  {
    hide CallIds;
  }

  lemma AnswerKeepsInv(s: State, response: Option<RunStatus>)
    requires Inv(s) && Enabled(s, Answer(response))
    ensures Inv(Step(s, Answer(response)))
  {
    hide CallIds;
    var s' := Step(s, Answer(response));
    var run, rest := s.poller.todo[0], s.poller.todo[1..];
    TodoRest(s, s.poller.todo);
    if response.Some? && Terminal(response.value) {
      CallBackOk(s, s', run, response.value);
      TodoAfterCall(s, s', rest, run, response.value);
    } else {
      TodoFrame(s, s', rest);
      assert CallsOk(s') && Accounted(s');
    }
  }

  lemma TodoAfterCall(s: State, s': State, todo: seq<TrackedRun>, run: TrackedRun, status: RunStatus)
    requires TodoOk(s, todo) && forall i :: 0 <= i < |todo| ==> todo[i].runId != run.runId
    requires s'.tracked == s.tracked && s'.calls == s.calls + [Call(run, status)]
    ensures TodoOk(s', todo)
  {
    hide CallIds;
    CallIdsSnoc(s.calls, Call(run, status));
  }

  lemma CallBackOk(s: State, s': State, run: TrackedRun, status: RunStatus)
    requires CallsOk(s) && TrackedOk(s) && Accounted(s) && s.poller.Polling? && Terminal(status)
    requires run.runId in s.tracked && s.tracked[run.runId] == run && run.runId !in CallIds(s.calls)
    requires s'.tracked == s.tracked && s'.ever == s.ever && s'.calls == s.calls + [Call(run, status)]
    requires s'.poller.Removing? && s'.poller.run == run
    ensures CallsOk(s') && TrackedOk(s') && Accounted(s')
  {
    hide CallIds;
    CallIdsSnoc(s.calls, Call(run, status));
  }

  lemma RemoveKeepsInv(s: State)
    requires Inv(s) && Enabled(s, Remove)
    ensures Inv(Step(s, Remove))
  {
    hide CallIds;
    var s' := Step(s, Remove);
    assert CallsOk(s') && TrackedOk(s') && Accounted(s');
    TodoFrame(s, s', s.poller.todo);
  }

  lemma StepKeepsInv(s: State, a: Action)
    requires Inv(s) && Enabled(s, a)
    ensures Inv(Step(s, a))
  {
    match a
    case Track(run) => TrackKeepsInv(s, run);
    case BeginPoll(order) => BeginKeepsInv(s, order);
    case Answer(response) => AnswerKeepsInv(s, response);
    case Remove => RemoveKeepsInv(s);
    case EndPoll =>
  }

  lemma {:induction false} RunKeepsInv(s: State, actions: seq<Action>, s': State)
    requires Inv(s) && Reaches(s, actions, s')
    ensures Inv(s')
    decreases actions
  {
    hide Inv;
    if actions != [] {
      StepKeepsInv(s, actions[0]);
      RunKeepsInv(Step(s, actions[0]), actions[1..], s');
    }
  }

  lemma StartInv()
    ensures Inv(START)
  {
  }

  /** As many different runs as calls means no run was called back twice. */
  lemma {:induction false} CallsDistinct(calls: seq<Call>, i: nat, j: nat)
    requires i < j < |calls| && |CallIds(calls)| == |calls|
    ensures calls[i].run.runId != calls[j].run.runId
  {
    var n := |calls| - 1;
    var front := calls[..n];
    CallIdsAtMost(front);
    if j < n {
      CallsDistinct(front, i, j);
    } else {
      CallIdsMember(front, i);
    }
  }

  lemma {:induction false} CallIdsAtMost(calls: seq<Call>)
    ensures |CallIds(calls)| <= |calls|
  {
    if calls != [] {
      CallIdsAtMost(calls[..|calls| - 1]);
    }
  }

  lemma {:induction false} CallIdsMember(calls: seq<Call>, i: nat)
    requires i < |calls|
    ensures calls[i].run.runId in CallIds(calls)
  {
    if i < |calls| - 1 {
      CallIdsMember(calls[..|calls| - 1], i);
    }
  }

  /** Conservation: except between a callback and its removal, every run ever tracked is either
      still tracked, with the data it was tracked with, or was called back exactly once with a
      terminal status; none is lost and none is both. */
  lemma RunsConserved(actions: seq<Action>, s: State)
    requires Reaches(START, actions, s) && !s.poller.Removing?
    ensures s.ever.Keys == s.tracked.Keys + CallIds(s.calls) && s.tracked.Keys !! CallIds(s.calls)
    ensures forall id :: id in s.tracked ==> id in s.ever && s.tracked[id] == s.ever[id]
    ensures forall c :: c in s.calls ==> Terminal(c.status) && c.run.runId in s.ever && s.ever[c.run.runId] == c.run
    ensures forall i, j :: 0 <= i < j < |s.calls| ==> s.calls[i].run.runId != s.calls[j].run.runId
    ensures |s.ever| == |s.tracked| + |s.calls|
  {
    hide CallIds;
    RunKeepsInv(START, actions, s) by { StartInv(); }
    forall i, j | 0 <= i < j < |s.calls| ensures s.calls[i].run.runId != s.calls[j].run.runId {
      CallsDistinct(s.calls, i, j);
    }
    assert s.ever.Keys == s.tracked.Keys + CallIds(s.calls);
    assert s.tracked.Keys !! CallIds(s.calls);
    assert |s.ever| == |s.ever.Keys| == |s.tracked.Keys| + |CallIds(s.calls)|;
  }

  /** Why identifiers must not be reused: after Track, BeginPoll and a terminal answer, a run
      tracked under the identifier that is being removed is removed with it, without a callback. */
  lemma ReusedIdIsLost(first: TrackedRun, second: TrackedRun)
    requires first.runId == second.runId && first != second
    ensures var actions := [Track(first), BeginPoll([first.runId]), Answer(Some(RunCompleted))];
      exists s ::
        && Reaches(START, actions, s) && !Enabled(s, Track(second)) && Enabled(s, Remove)
        && LostWith(s, second)
  {
    var id := first.runId;
    var s1 := Step(START, Track(first));
    assert Enabled(s1, BeginPoll([id]));
    var s2 := Step(s1, BeginPoll([id]));
    assert RunsOf(s1.tracked, [id]) == [first];
    var s3 := Step(s2, Answer(Some(RunCompleted)));
    assert s3.poller == Removing(first, []) && s3.calls == [Call(first, RunCompleted)];
    assert Reaches(s3, [], s3);
    assert Reaches(s2, [Answer(Some(RunCompleted))], s3);
    assert Reaches(s1, [BeginPoll([id]), Answer(Some(RunCompleted))], s3) by {
      assert [BeginPoll([id]), Answer(Some(RunCompleted))][1..] == [Answer(Some(RunCompleted))];
    }
    var actions := [Track(first), BeginPoll([id]), Answer(Some(RunCompleted))];
    assert actions[1..] == [BeginPoll([id]), Answer(Some(RunCompleted))];
    assert Reaches(START, actions, s3);
    assert LostWith(s3, second);
  }

  /** Tracked now, the run is neither tracked nor called back after the removal. */
  predicate LostWith(s: State, run: TrackedRun)
    requires Enabled(s, Remove)
  {
    var end := Step(s.(tracked := s.tracked[run.runId := run], ever := s.ever[run.runId := run]), Remove);
    run.runId !in end.tracked && forall c :: c in end.calls ==> c.run != run
  }

  // ---- The poller's loop ----

  lemma {:induction false} Extend(s: State, path: seq<Action>, mid: State, a: Action)
    requires Reaches(s, path, mid) && Enabled(mid, a)
    ensures Reaches(s, path + [a], Step(mid, a))
    decreases path
  {
    hide Step;
    if path == [] {
      assert [a][1..] == [];
      assert Reaches(Step(mid, a), [], Step(mid, a));
    } else {
      Extend(Step(s, path[0]), path[1..], mid, a);
      assert (path + [a])[1..] == path[1..] + [a];
    }
  }

  predicate Ends(answer: Option<RunStatus>) {
    answer.Some? && Terminal(answer.value)
  }

  /** The callbacks for the first `n` runs of a round. */
  function Answered(runs: seq<TrackedRun>, answers: nat -> Option<RunStatus>, n: nat): seq<Call>
    requires n <= |runs|
  {
    if n == 0 then []
    else Answered(runs, answers, n - 1) + if Ends(answers(n - 1)) then [Call(runs[n - 1], answers(n - 1).value)] else []
  }

  lemma {:induction false} CallIdsConcat(a: seq<Call>, b: seq<Call>)
    ensures CallIds(a + b) == CallIds(a) + CallIds(b)
  {
    if b == [] {
      assert a + b == a;
    } else {
      var n := |b| - 1;
      CallIdsConcat(a, b[..n]);
      assert (a + b)[..|a + b| - 1] == a + b[..n];
    }
  }

  lemma {:induction false} AnsweredIds(runs: seq<TrackedRun>, answers: nat -> Option<RunStatus>, n: nat, i: nat)
    requires n <= |runs| && i < |runs|
    requires forall j, k :: 0 <= j < k < |runs| ==> runs[j].runId != runs[k].runId
    ensures runs[i].runId in CallIds(Answered(runs, answers, n)) <==> i < n && Ends(answers(i))
  {
    if n > 0 {
      AnsweredIds(runs, answers, n - 1, i);
      var made := if Ends(answers(n - 1)) then [Call(runs[n - 1], answers(n - 1).value)] else [];
      CallIdsConcat(Answered(runs, answers, n - 1), made);
      assert made != [] ==> CallIds(made) == {runs[n - 1].runId};
    }
  }

  /** Distinct runs, all of them tracked. */
  ghost predicate RoundRuns(tracked: map<string, TrackedRun>, runs: seq<TrackedRun>) {
    && (forall i :: 0 <= i < |runs| ==> runs[i].runId in tracked)
    && forall j, k :: 0 <= j < k < |runs| ==> runs[j].runId != runs[k].runId
  }

  lemma TodoRuns(s: State, runs: seq<TrackedRun>)
    requires TodoOk(s, runs)
    ensures RoundRuns(s.tracked, runs)
  {
  }

  /** After a round exactly the runs of its snapshot that had ended are no longer tracked. */
  lemma RoundOutcome(s: State, s': State, before: seq<Action>, after: seq<Action>,
                     runs: seq<TrackedRun>, answers: nat -> Option<RunStatus>)
    requires Reaches(START, before, s) && s.poller.Idle? && Reaches(START, after, s') && s'.poller.Idle?
    requires s.ever.Keys <= s'.ever.Keys && s'.calls == s.calls + Answered(runs, answers, |runs|)
    requires RoundRuns(s.tracked, runs)
    ensures forall i :: 0 <= i < |runs| ==> (runs[i].runId in s'.tracked <==> !Ends(answers(i)))
  {
    hide Reaches, CallIds, Answered, Ends;
    RunsConserved(before, s);
    RunsConserved(after, s');
    CallIdsConcat(s.calls, Answered(runs, answers, |runs|));
    forall i | 0 <= i < |runs| ensures runs[i].runId in s'.tracked <==> !Ends(answers(i)) {
      AnsweredIds(runs, answers, |runs|, i);
      assert runs[i].runId in s'.ever.Keys;
    }
  }

  /** The tracked map of a dispatcher. `issued` are the run identifiers the executor has given
      out; `world` and `path` are the state of the machine above and how it was reached. */
  class TrackedRuns {
    var tracked: map<string, TrackedRun>
    var issued: set<string>
    ghost var world: State
    ghost var path: seq<Action>

    ghost predicate Valid()
      reads this
    {
      world.tracked == tracked && world.ever.Keys == issued && Reaches(START, path, world)
    }

    constructor ()
      ensures Valid() && world == START
    {
      tracked, issued, world, path := map[], {}, START, [];
    }

    ghost method Record(a: Action)
      requires Reaches(START, path, world) && Enabled(world, a)
      modifies this`world, this`path
      ensures Reaches(START, path, world) && world == Step(old(world), a) && path == old(path) + [a]
    {
      Extend(START, path, world, a);
      world, path := Step(world, a), path + [a];
    }

    /** The locked section of a dispatch whose main run is tracked. */
    method AddRun(run: TrackedRun)
      requires Valid() && run.runId !in issued
      modifies this
      ensures Valid() && world == Step(old(world), Track(run)) && path == old(path) + [Track(run)]
      ensures tracked == old(tracked)[run.runId := run] && issued == old(issued) + {run.runId}
    {
      tracked, issued := tracked[run.runId := run], issued + {run.runId};
      Record(Track(run));
    }

    /** Any dispatches that run while the lock is free. */
    method Others()
      requires Valid()
      modifies this
      ensures Valid() && world.poller == old(world.poller) && world.calls == old(world.calls)
      ensures old(path) <= path && old(issued) <= issued
    {
      hide Reaches;
      var n: nat := *;
      while n > 0
        invariant Valid() && world.poller == old(world.poller) && world.calls == old(world.calls)
        invariant old(path) <= path && old(issued) <= issued
      {
        var run: TrackedRun := *;
        if run.runId !in issued {
          AddRun(run);
        }
        n := n - 1;
      }
    }

    /** The tracked identifiers in the arbitrary order of a map walk. */
    method Order() returns (order: seq<string>)
      ensures Distinct(order) && |order| == |tracked| && forall id :: id in order <==> id in tracked
    {
      order := [];
      var rest := tracked.Keys;
      while rest != {}
        invariant Distinct(order) && rest <= tracked.Keys && |order| + |rest| == |tracked|
        invariant forall id :: id in order <==> id in tracked && id !in rest
        decreases rest
      {
        var id :| id in rest;
        order, rest := order + [id], rest - {id};
      }
    }

    /** One run of a round: a terminal answer is called back and then, after the lock was free
        once more, removed. */
    method PollRun(run: TrackedRun, answer: Option<RunStatus>) returns (made: seq<Call>)
      requires Valid() && world.poller.Polling? && world.poller.todo != [] && world.poller.todo[0] == run
      modifies this
      ensures Valid() && old(path) <= path && old(issued) <= issued
      ensures world.poller == Polling(old(world.poller.todo)[1..])
      ensures made ==
        if answer == Some(RunCompleted) || answer == Some(RunFailed) then [Call(run, answer.value)] else []
      ensures made == [] ==> tracked == old(tracked)
      ensures world.calls == old(world.calls) + made
      ensures run.runId in tracked ==> !Ends(answer)
    {
      hide Reaches;
      made := [];
      Record(Answer(answer));
      if answer.Some? && Terminal(answer.value) {
        made := [Call(run, answer.value)];
        Others();
        tracked := tracked - {run.runId};
        Record(Remove);
      }
    }

    /** The snapshot of the tracked runs that a round walks. */
    method BeginRound() returns (runs: seq<TrackedRun>)
      requires Valid() && world.poller.Idle?
      modifies this`world, this`path
      ensures Valid() && old(path) <= path && world.poller == Polling(runs) && world.calls == old(world.calls)
      ensures |runs| == |tracked| && forall id :: id in tracked ==> tracked[id] in runs
      ensures TodoOk(world, runs)
    {
      var order := Order();
      hide Reaches, Distinct, RunsOf;
      runs := RunsOf(tracked, order);
      Record(BeginPoll(order));
      forall id | id in tracked ensures tracked[id] in runs {
        var i :| 0 <= i < |order| && order[i] == id;
        assert runs[i] == tracked[id];
      }
      RunKeepsInv(START, path, world) by { StartInv(); }
    }

    /** The walk over that snapshot. */
    method PollEach(todo: seq<TrackedRun>, answers: nat -> Option<RunStatus>) returns (calls: seq<Call>)
      requires Valid() && world.poller == Polling(todo)
      modifies this
      ensures Valid() && old(path) <= path && old(issued) <= issued
      ensures world.poller == Polling([]) && world.calls == old(world.calls) + calls
      ensures calls == Answered(todo, answers, |todo|)
    {
      hide Reaches;
      calls := [];
      for i := 0 to |todo|
        invariant Valid() && old(path) <= path && old(issued) <= issued
        invariant world.poller == Polling(todo[i..]) && world.calls == old(world.calls) + calls
        invariant calls == Answered(todo, answers, i)
      {
        assert todo[i..][0] == todo[i] && todo[i..][1..] == todo[i + 1..];
        var made := PollRun(todo[i], answers(i));
        calls := calls + made;
        Others();
      }
    }

    /** One polling round; `answers(i)` is what the executor says of `runs[i]`, the i-th of the runs
        tracked at its start. Whatever is dispatched meanwhile, the round continues the run of the
        machine before it, calls back exactly the runs that have ended, and keeps the others. */
    method PollOnce(answers: nat -> Option<RunStatus>) returns (calls: seq<Call>, ghost runs: seq<TrackedRun>)
      requires Valid() && world.poller.Idle?
      modifies this
      ensures Valid() && old(path) <= path && world.poller.Idle? && world.calls == old(world.calls) + calls
      ensures |runs| == |old(tracked)| && forall id :: id in old(tracked) ==> old(tracked)[id] in runs
      ensures calls == Answered(runs, answers, |runs|)
      ensures forall i :: 0 <= i < |runs| ==> (runs[i].runId in tracked <==> !Ends(answers(i)))
    {
      hide Reaches, TodoOk, CallIds, Answered, RoundRuns;
      ghost var start, before := world, path;
      var todo := BeginRound();
      runs := todo;
      assert RoundRuns(start.tracked, runs) by { TodoRuns(world, runs); }
      Others();
      calls := PollEach(todo, answers);
      Record(EndPoll);
      RoundOutcome(start, world, before, path, runs, answers);
    }
  }
}
