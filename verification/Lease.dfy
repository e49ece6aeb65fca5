/** Workers that report each claim at most once and within the stale timeout: the timeout acts
    as a lease, even though no report looks at the row's status, Fail reads and writes in two
    statements, and anyone may cancel a row. */
module Lease {
  import opened Common
  import opened Queue

  datatype Phase = Working | Reading(record: Task) | Reported

  /** One claim: which row, the attempt number it took and when. */
  datatype Hold = Hold(id: string, attempt: nat, since: Time, phase: Phase)

  /** `cancelled` are the attempts during which a running row was cancelled. */
  datatype World = World(
    timeout: Time, tasks: Tasks, clock: Time, holds: map<nat, Hold>, cancelled: set<(string, nat)>)

  /** Single statements of many workers; `worker` names one claim. A recovery may have read its
      clock `late` before its statement. */
  datatype Move =
    | Enqueue(id: string, kind: string, org: nat, payload: string)
    | Claim(worker: nat, id: string, lag: nat)
    | Complete(worker: nat)
    | FailRead(worker: nat)
    | FailWrite(worker: nat, judgedAt: Time, reason: string)
    | Recover(late: nat)
    | Cancel(id: string, org: nat)
    | Tick(amount: nat)

  predicate InTime(w: World, h: Hold) {
    w.clock <= h.since + w.timeout
  }

  predicate MayReport(w: World, c: nat) {
    c in w.holds && InTime(w, w.holds[c]) && w.holds[c].id in w.tasks
  }

  predicate Enabled(w: World, m: Move) {
    match m
    case Enqueue(id, _, _, _) => id !in w.tasks
    case Claim(c, id, _) => c !in w.holds && id in w.tasks && Claimable(w.tasks[id], w.clock)
    case Complete(c) => MayReport(w, c) && w.holds[c].phase.Working?
    case FailRead(c) => MayReport(w, c) && w.holds[c].phase.Working?
    case FailWrite(c, _, _) => MayReport(w, c) && w.holds[c].phase.Reading?
    case Recover(_) => true
    case Cancel(id, org) => id in w.tasks && Cancellable(w.tasks[id], org)
    case Tick(_) => true
  }

  function SetPhase(w: World, c: nat, p: Phase): map<nat, Hold>
    requires c in w.holds
  {
    w.holds[c := w.holds[c].(phase := p)]
  }

  function Next(w: World, m: Move): World
    requires Enabled(w, m)
  {
    match m
    case Enqueue(id, kind, org, payload) => w.(tasks := w.tasks[id := NewTask(kind, org, payload, w.clock)])
    case Claim(c, id, lag) =>
      var now := w.clock + lag;
      World(w.timeout, w.tasks[id := Claimed(w.tasks[id], now)], now,
            w.holds[c := Hold(id, w.tasks[id].attempts + 1, now, Working)], w.cancelled)
    case Complete(c) =>
      var id := w.holds[c].id;
      w.(tasks := w.tasks[id := Done(w.tasks[id], w.clock)], holds := SetPhase(w, c, Reported))
    case FailRead(c) => w.(holds := SetPhase(w, c, Reading(w.tasks[w.holds[c].id])))
    case FailWrite(c, judgedAt, reason) =>
      var id := w.holds[c].id;
      var v := Judge(w.holds[c].phase.record, judgedAt);
      w.(tasks := w.tasks[id := Queue.Apply(w.tasks[id], v, reason)], holds := SetPhase(w, c, Reported))
    case Recover(late) => w.(tasks := Recovered(w.tasks, w.clock - late, w.timeout))
    case Cancel(id, _) =>
      w.(tasks := w.tasks[id := w.tasks[id].(status := Failed)],
         cancelled := if w.tasks[id].status.Running? then w.cancelled + {(id, w.tasks[id].attempts)} else w.cancelled)
    case Tick(amount) => w.(clock := w.clock + amount)
  }

  /** A run: each move is allowed where it is taken. */
  ghost predicate Reaches(w: World, moves: seq<Move>, w': World)
    decreases moves
  {
    if moves == [] then w' == w
    else Enabled(w, moves[0]) && Reaches(Next(w, moves[0]), moves[1..], w')
  }

  function Empty(timeout: Time, clock: Time): World {
    World(timeout, map[], clock, map[], {})
  }

  predicate WasCancelled(w: World, h: Hold) {
    (h.id, h.attempt) in w.cancelled
  }

  /** The row is under the hold's own attempt, running unless it was cancelled during that attempt,
      and a Fail in progress read that row, but for the status a cancellation wrote since. */
  predicate Holding(w: World, h: Hold) {
    && h.id in w.tasks
    && var task := w.tasks[h.id];
    && task.attempts == h.attempt
    && task.claimedAt == Some(h.since)
    && (if WasCancelled(w, h) then task.status.Failed? else task.status.Running?)
    && (h.phase.Reading? ==>
        h.phase.record == task || (WasCancelled(w, h) && h.phase.record == task.(status := Running)))
  }

  /** A claim not yet reported whose time has not run out. */
  predicate Active(w: World, h: Hold) {
    !h.phase.Reported? && InTime(w, h)
  }

  ghost predicate Inv(w: World) {
    && (forall c :: c in w.holds && Active(w, w.holds[c]) ==> Holding(w, w.holds[c]))
    && (forall c :: c in w.holds ==> w.holds[c].id in w.tasks && w.holds[c].attempt <= w.tasks[w.holds[c].id].attempts)
    && (forall c, d :: c in w.holds && d in w.holds && c != d && w.holds[c].id == w.holds[d].id ==>
        w.holds[c].attempt != w.holds[d].attempt)
    && (forall x :: x in w.cancelled ==> x.0 in w.tasks && x.1 <= w.tasks[x.0].attempts)
  }

  lemma ActiveUnique(w: World, c: nat, d: nat)
    requires Inv(w) && c in w.holds && d in w.holds && w.holds[c].id == w.holds[d].id
    requires Active(w, w.holds[c]) && Active(w, w.holds[d])
    ensures c == d
  {
    assert Holding(w, w.holds[c]) && Holding(w, w.holds[d]);
  }

  /** A report by `c` leaves every other active claim holding. */
  lemma ReportKeepsInv(w: World, c: nat, task: Task)
    requires Inv(w) && c in w.holds && Active(w, w.holds[c]) && w.holds[c].id in w.tasks
    requires task.attempts == w.tasks[w.holds[c].id].attempts
    ensures Inv(w.(tasks := w.tasks[w.holds[c].id := task], holds := SetPhase(w, c, Reported)))
  {
    var id := w.holds[c].id;
    var w' := w.(tasks := w.tasks[id := task], holds := SetPhase(w, c, Reported));
    forall d | d in w'.holds && Active(w', w'.holds[d]) ensures Holding(w', w'.holds[d]) {
      assert d != c && w'.holds[d] == w.holds[d] && Active(w, w.holds[d]);
      if w.holds[d].id == id {
        ActiveUnique(w, c, d);
        assert false;
      }
      assert Holding(w, w.holds[d]);
    }
  }

  lemma ClaimKeepsInv(w: World, c: nat, id: string, lag: nat)
    requires Inv(w) && Enabled(w, Move.Claim(c, id, lag))
    ensures Inv(Next(w, Move.Claim(c, id, lag)))
  {
    var w' := Next(w, Move.Claim(c, id, lag));
    forall d | d in w'.holds && Active(w', w'.holds[d]) ensures Holding(w', w'.holds[d]) {
      if d != c {
        assert Active(w, w.holds[d]) && Holding(w, w.holds[d]);
      }
    }
  }

  lemma RecoverKeepsInv(w: World, late: nat)
    requires Inv(w)
    ensures Inv(Next(w, Move.Recover(late)))
  {
    var w' := Next(w, Move.Recover(late));
    forall d | d in w'.holds && Active(w', w'.holds[d]) ensures Holding(w', w'.holds[d]) {
      assert Active(w, w.holds[d]) && Holding(w, w.holds[d]);
      assert !Stale(w.tasks[w.holds[d].id], w.clock - late, w.timeout);
    }
  }

  lemma CancelKeepsInv(w: World, id: string, org: nat)
    requires Inv(w) && Enabled(w, Move.Cancel(id, org))
    ensures Inv(Next(w, Move.Cancel(id, org)))
  {
    var w' := Next(w, Move.Cancel(id, org));
    forall d | d in w'.holds && Active(w', w'.holds[d]) ensures Holding(w', w'.holds[d]) {
      assert Active(w, w.holds[d]) && Holding(w, w.holds[d]);
    }
  }

  lemma QuietKeepsInv(w: World, m: Move)
    requires Inv(w) && Enabled(w, m) && (m.Enqueue? || m.FailRead? || m.Tick?)
    ensures Inv(Next(w, m))
  {
    var w' := Next(w, m);
    forall d | d in w'.holds && Active(w', w'.holds[d]) ensures Holding(w', w'.holds[d]) {
      assert Active(w, w.holds[d]) && Holding(w, w.holds[d]);
    }
  }

  lemma NextKeepsInv(w: World, m: Move)
    requires Inv(w) && Enabled(w, m)
    ensures Inv(Next(w, m))
  {
    hide Inv;
    match m
    case Enqueue(_, _, _, _) => QuietKeepsInv(w, m);
    case Claim(c, id, lag) => ClaimKeepsInv(w, c, id, lag);
    case Complete(c) => ReportKeepsInv(w, c, Done(w.tasks[w.holds[c].id], w.clock));
    case FailRead(_) => QuietKeepsInv(w, m);
    case FailWrite(c, at, reason) =>
      ReportKeepsInv(w, c, Queue.Apply(w.tasks[w.holds[c].id], Judge(w.holds[c].phase.record, at), reason));
    case Recover(late) => RecoverKeepsInv(w, late);
    case Cancel(id, org) => CancelKeepsInv(w, id, org);
    case Tick(_) => QuietKeepsInv(w, m);
  }

  lemma {:induction false} RunKeepsInv(w: World, moves: seq<Move>, w': World)
    requires Inv(w) && Reaches(w, moves, w')
    ensures Inv(w')
    decreases moves
  {
    hide Inv;
    if moves != [] {
      NextKeepsInv(w, moves[0]);
      RunKeepsInv(Next(w, moves[0]), moves[1..], w');
    }
  }

  // ---- Main results ----

  /** In every run, at most one claim of a task is unreported and in time. */
  lemma OneActive(timeout: Time, clock: Time, moves: seq<Move>, w: World, c: nat, d: nat)
    requires Reaches(Empty(timeout, clock), moves, w)
    requires c in w.holds && d in w.holds && w.holds[c].id == w.holds[d].id
    requires Active(w, w.holds[c]) && Active(w, w.holds[d])
    ensures c == d
  {
    RunKeepsInv(Empty(timeout, clock), moves, w);
    ActiveUnique(w, c, d);
  }

  /** Lease exclusivity: in every run, every report finds its row under the reporter's own attempt,
      still running unless it was cancelled during that attempt, and then failed; and a Fail writes
      over the very row it read, but for the status of a cancellation in between. */
  lemma ReportFindsOwnClaim(timeout: Time, clock: Time, moves: seq<Move>, w: World, m: Move)
    requires Reaches(Empty(timeout, clock), moves, w) && Enabled(w, m)
    requires m.Complete? || m.FailRead? || m.FailWrite?
    ensures var h := w.holds[m.worker]; var task := w.tasks[h.id];
      && task.attempts == h.attempt && task.claimedAt == Some(h.since)
      && (WasCancelled(w, h) ==> task.status.Failed?) && (!WasCancelled(w, h) ==> task.status.Running?)
      && (m.FailWrite? ==>
          h.phase.record == task || (WasCancelled(w, h) && h.phase.record == task.(status := Running)))
  {
    RunKeepsInv(Empty(timeout, clock), moves, w);
    assert Holding(w, w.holds[m.worker]);
  }

  predicate Finished(w: World, id: string) {
    id in w.tasks && (w.tasks[id].status.Completed? || w.tasks[id].status.Failed?)
  }

  lemma FinishedStep(w: World, m: Move, id: string)
    requires Inv(w) && Enabled(w, m) && Finished(w, id)
    ensures m.Claim? ==> m.id != id
    ensures id in Next(w, m).tasks && (Next(w, m).tasks[id] == w.tasks[id] || CancelledReport(w, m, id))
    ensures forall n :: (id, n) in Next(w, m).cancelled <==> (id, n) in w.cancelled
  {
    if m.Complete? || m.FailWrite? {
      assert Holding(w, w.holds[m.worker]);
    }
  }

  /** The move reports a claim of the row that was cancelled while it was held. */
  predicate CancelledReport(w: World, m: Move, id: string) {
    && (m.Complete? || m.FailWrite?) && m.worker in w.holds
    && w.holds[m.worker].id == id && WasCancelled(w, w.holds[m.worker])
    && id in w.tasks && w.holds[m.worker].attempt == w.tasks[id].attempts
  }

  /** In every run a completed or failed row is never claimed, and changes only by the report of
      the claim during whose attempt it was cancelled. */
  lemma FinishedChangesOnlyByCancelled(timeout: Time, clock: Time, moves: seq<Move>, w: World, m: Move, id: string)
    requires Reaches(Empty(timeout, clock), moves, w) && Enabled(w, m) && Finished(w, id)
    ensures m.Claim? ==> m.id != id
    ensures Next(w, m).tasks[id] != w.tasks[id] ==> CancelledReport(w, m, id)
  {
    RunKeepsInv(Empty(timeout, clock), moves, w);
    FinishedStep(w, m, id);
  }

  /** The row's last attempt was not cancelled while it was running. */
  predicate Undisturbed(w: World, id: string)
    requires id in w.tasks
  {
    (id, w.tasks[id].attempts) !in w.cancelled
  }

  lemma {:induction false} FinishedRun(w: World, moves: seq<Move>, w': World, id: string)
    requires Inv(w) && Reaches(w, moves, w') && Finished(w, id) && Undisturbed(w, id)
    ensures Finished(w', id) && w'.tasks[id] == w.tasks[id]
    ensures forall i :: 0 <= i < |moves| && moves[i].Claim? ==> moves[i].id != id
    decreases moves
  {
    hide Inv, Next;
    if moves != [] {
      FinishedStep(w, moves[0], id);
      NextKeepsInv(w, moves[0]);
      assert Undisturbed(Next(w, moves[0]), id);
      FinishedRun(Next(w, moves[0]), moves[1..], w', id);
    }
  }

  /** So a completed or failed row whose last attempt was not cancelled while running never changes
      again and is never claimed again. */
  lemma FinishedIsFinal(timeout: Time, clock: Time, before: seq<Move>, w: World,
                        after: seq<Move>, w': World, id: string)
    requires Reaches(Empty(timeout, clock), before, w) && Reaches(w, after, w')
    requires Finished(w, id) && Undisturbed(w, id)
    ensures Finished(w', id) && w'.tasks[id] == w.tasks[id]
    ensures forall i :: 0 <= i < |after| && after[i].Claim? ==> after[i].id != id
  {
    RunKeepsInv(Empty(timeout, clock), before, w);
    FinishedRun(w, after, w', id);
  }

  /** And one cancelled while running is put back by its worker's Fail, in time and reported once. */
  lemma CancelledRowReopens()
    ensures exists w, w' ::
      && Reaches(Empty(1, 0), [Move.Enqueue("t", "k", 0, ""), Move.Claim(0, "t", 0), Move.Cancel("t", 0)], w)
      && Finished(w, "t") && !Undisturbed(w, "t")
      && Reaches(w, [FailRead(0), FailWrite(0, 0, "late")], w')
      && "t" in w'.tasks && w'.tasks["t"].status.Pending?
  {
    var w := HeldAndCancelled();
    hide Backoff, Reaches;
    var read, write := FailRead(0), FailWrite(0, 0, "late");
    var w1 := Next(w, read);
    var w' := Next(w1, write);
    assert Reaches(w, [read, write], w') by {
      assert [write] + [] == [write] && [read] + [write] == [read, write];
      Stay(w');
      Prepend(w1, write, [], w');
      Prepend(w, read, [write], w');
    }
  }

  lemma HeldAndCancelled() returns (w: World)
    ensures Reaches(Empty(1, 0), [Move.Enqueue("t", "k", 0, ""), Move.Claim(0, "t", 0), Move.Cancel("t", 0)], w)
    ensures w.clock == 0 && w.timeout == 1 && w.holds == map[0 := Hold("t", 1, 0, Working)] && ("t", 1) in w.cancelled
    ensures "t" in w.tasks && w.tasks["t"].status.Failed? && w.tasks["t"].attempts == 1 && w.tasks["t"].maxAttempts == 3
  {
    hide Reaches;
    var a, b, c := Move.Enqueue("t", "k", 0, ""), Move.Claim(0, "t", 0), Move.Cancel("t", 0);
    var w1 := Next(Empty(1, 0), a);
    var w2 := Next(w1, b);
    w := Next(w2, c);
    assert [c] + [] == [c] && [b] + [c] == [b, c] && [a] + [b, c] == [a, b, c];
    Stay(w);
    Prepend(w2, c, [], w);
    Prepend(w1, b, [c], w);
    Prepend(Empty(1, 0), a, [b, c], w);
  }

  lemma Stay(w: World)
    ensures Reaches(w, [], w)
  {
  }

  lemma Prepend(w: World, m: Move, moves: seq<Move>, w': World)
    requires Enabled(w, m) && Reaches(Next(w, m), moves, w')
    ensures Reaches(w, [m] + moves, w')
  {
    assert ([m] + moves)[1..] == moves;
  }
}
