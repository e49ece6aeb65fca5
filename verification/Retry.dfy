/** What a conflict leaves behind: Update bumps the caller's object before its conditional write,
    so the object of a conflicting call can be sent again without a new Get. */
module Retry {
  import opened Common
  import opened Resources
  import opened Versions

  // ---- What snapshots and the log show ----

  /** Write `i` is the last one of its key. */
  predicate Last(log: seq<Write>, i: nat)
    requires i < |log|
  {
    Count(log[..i + 1], log[i].key) == Count(log, log[i].key)
  }

  /** The snapshot was taken right before write `i`. */
  predicate JustBefore(log: seq<Write>, n: Snapshot, i: nat)
    requires i < |log|
  {
    log[i].key == n.key && Count(log[..i], n.key) == n.at
  }

  /** A snapshot shows what the next write replaced, and the last write of a row still stands. */
  ghost predicate HistoryOk(s: State) {
    && (forall n, i :: n in s.seen && 0 <= i < |s.log| && JustBefore(s.log, n, i) ==> Same(n.row, s.log[i].before))
    && (forall i :: 0 <= i < |s.log| && Last(s.log, i) ==>
        s.log[i].key in s.table && Same(s.log[i].after, s.table[s.log[i].key]))
  }

  lemma SameTransitive(a: Row, b: Row, c: Row)
    requires Same(a, b) && Same(b, c)
    ensures Same(a, c)
  {
  }

  lemma QuietHistory(s: State, s': State)
    requires HistoryOk(s) && s'.log == s.log && s'.seen == s.seen
    requires forall k :: k in s.table ==> k in s'.table && Same(s.table[k], s'.table[k])
    ensures HistoryOk(s')
  {
    hide Count, Last, JustBefore, Same;
    forall i | 0 <= i < |s'.log| && Last(s'.log, i)
      ensures s'.log[i].key in s'.table && Same(s'.log[i].after, s'.table[s'.log[i].key])
    {
      var k := s.log[i].key;
      SameTransitive(s.log[i].after, s.table[k], s'.table[k]);
    }
  }

  lemma GetHistory(s: State, k: Key)
    requires HistoryOk(s)
    ensures HistoryOk(Step(s, Get(k)))
  {
    hide Count, Same;
    var s' := Step(s, Get(k));
    forall n, i | n in s'.seen && 0 <= i < |s'.log| && JustBefore(s'.log, n, i) ensures Same(n.row, s'.log[i].before) {
      CountGrows(s.log, i, |s.log|, n.key);
      assert s.log[..|s.log|] == s.log;
      assert n in s.seen;
    }
  }

  lemma CommitHistory(s: State, t: Table, w: Write)
    requires HistoryOk(s) && Commits(s, t, w)
    ensures HistoryOk(Commit(s, t, w))
  {
    hide Count, Same, Inv, WriteOk;
    var s' := Commit(s, t, w);
    var m := |s.log|;
    assert s'.log[..m] == s.log && s'.log[..m + 1] == s'.log;
    forall n, i | n in s'.seen && 0 <= i < |s'.log| && JustBefore(s'.log, n, i) ensures Same(n.row, s'.log[i].before) {
      if i < m {
        assert s'.log[..i] == s.log[..i];
        assert JustBefore(s.log, n, i);
      } else {
        SnapshotCurrent(s, n);
      }
    }
    forall i | 0 <= i < |s'.log| && Last(s'.log, i)
      ensures s'.log[i].key in s'.table && Same(s'.log[i].after, s'.table[s'.log[i].key])
    {
      if i < m {
        assert s'.log[..i + 1] == s.log[..i + 1];
        CountCommit(s.log, w, s.log[i].key);
        CountBound(s.log, i + 1, s.log[i].key);
        assert Last(s.log, i);
      } else {
        SameRow(w.after);
      }
    }
  }

  lemma SameRow(row: Row)
    ensures Same(row, row)
  {
  }

  lemma SnapshotCurrent(s: State, n: Snapshot)
    requires Inv(s) && n in s.seen && n.at == Count(s.log, n.key)
    ensures n.key in s.table && Same(n.row, s.table[n.key])
  {
    hide Count, Wrap64;
    assert SnapshotOk(s, n);
  }

  lemma StepKeepsHistory(s: State, a: Action)
    requires Inv(s) && HistoryOk(s)
    ensures HistoryOk(Step(s, a))
  {
    hide Inv, HistoryOk, Count, Wrap64;
    match a
    case Get(k) => GetHistory(s, k);
    case UpdateWrite(c) =>
      if c in s.pending {
        UpdateWriteHistory(s, c);
      }
    case PatchRow(k, v, p, basis) =>
      if Live(s.table, k) && s.table[k].version == v && WritesBack(s, k, v, basis) {
        PatchWriteOk(s, k, v, p, basis);
        var row := Patched(s.table[k], v, p);
        CommitHistory(s, s.table[k := row], Write(k, s.table[k], row, false, None, basis));
      }
    case UpdateRead(_, _, _, _) => QuietHistory(s, Step(s, a));
    case InsertRow(_, _) => QuietHistory(s, Step(s, a));
    case Mark(_, _) => QuietHistory(s, Step(s, a));
    case Drop(_, _) => QuietHistory(s, Step(s, a));
    case WriteStatus(_, _) => QuietHistory(s, Step(s, a));
  }

  lemma UpdateWriteHistory(s: State, c: nat)
    requires Inv(s) && HistoryOk(s) && c in s.pending
    ensures HistoryOk(Step(s, UpdateWrite(c)))
  {
    hide HistoryOk, Count, Wrap64;
    var p := s.pending[c];
    var s1 := s.(pending := s.pending - {c});
    PendingOnly(s, s1);
    QuietHistory(s, s1);
    assert PendingOk(s, p);
    if Live(s.table, p.key) && s.table[p.key].version == p.obj.version {
      assert PendingOk(s1, p);
      UpdateWriteOk(s1, p);
      var sent := Bumped(p.obj, p.compared);
      CommitHistory(s1, s.table[p.key := sent], Write(p.key, s.table[p.key], sent, true, p.compared, p.basis));
    }
  }

  lemma {:induction false} RunKeepsHistory(tracks: bool, actions: seq<Action>)
    ensures HistoryOk(Run(Init(tracks), actions))
  {
    hide Step, Inv;
    if actions != [] {
      RunKeepsHistory(tracks, actions[..|actions| - 1]);
      RunKeepsInv(tracks, actions[..|actions| - 1]);
      StepKeepsHistory(Run(Init(tracks), actions[..|actions| - 1]), actions[|actions| - 1]);
    }
  }

  /** Nothing is ever taken back from the log or unseen. */
  lemma {:induction false} RunGrows(s: State, before: seq<Action>, more: seq<Action>)
    ensures Run(s, before).log <= Run(s, before + more).log
    ensures Run(s, before).seen <= Run(s, before + more).seen
  {
    if more == [] {
      assert before + more == before;
    } else {
      var front := more[..|more| - 1];
      RunGrows(s, before, front);
      assert (before + more)[..|before + more| - 1] == before + front;
      StepGrows(Run(s, before + front), more[|more| - 1]);
    }
  }

  lemma StepGrows(s: State, a: Action)
    ensures s.log <= Step(s, a).log && s.seen <= Step(s, a).seen
  {
    hide Count, Wrap64;
  }

  lemma {:induction false} LastWrite(log: seq<Write>, k: Key) returns (i: nat)
    requires Count(log, k) > 0
    ensures i < |log| && log[i].key == k && Count(log[..i], k) == Count(log, k) - 1 && Last(log, i)
  {
    var n := |log| - 1;
    if log[n].key == k {
      i := n;
      assert log[..n + 1] == log;
    } else {
      i := LastWrite(log[..n], k);
      assert log[..n][..i] == log[..i] && log[..n][..i + 1] == log[..i + 1];
    }
  }

  /** A versioned write hits exactly when as many writes have happened as its version says. */
  lemma HitsAfter(s: State, n: Snapshot, m: nat, version: Int64)
    requires Inv(s) && n in s.seen && n.key in s.table && Count(s.log, n.key) < TWO_TO_64
    requires m <= 1 && version == Wrap64(n.row.version + m)
    ensures s.table[n.key].version == version <==> Count(s.log, n.key) == n.at + m
  {
    hide Count, Wrap64;
    assert SnapshotOk(s, n);
    var base, count := s.born[n.key].version, Count(s.log, n.key);
    WrapStep(base + n.at, m);
    WrapEqualIff(base, count, n.at + m);
  }

  // ---- The retried call ----

  /** The first call of a retried Update: client `c` writes back the version of snapshot `n` and
      gets a conflict. */
  ghost predicate Conflicted(s: State, c: nat, n: Snapshot) {
    && c in s.pending && n in s.seen && s.pending[c].key == n.key && s.pending[c].obj.version == n.row.version
    && Live(s.table, n.key) && Step(s, UpdateWrite(c)).log == s.log
  }

  /** The call repeated with the object the first one left in the caller's hands. */
  ghost predicate Retries(first: Pending, s: State, c: nat) {
    && c in s.pending && s.pending[c].key == first.key && Live(s.table, first.key)
    && s.pending[c].obj == Bumped(first.obj, first.compared)
  }

  /** Write `i`, made after the snapshot was taken and still standing, is replaced by `w`. */
  ghost predicate Overwritten(s: State, n: Snapshot, i: nat, w: Write) {
    && i < |s.log| && JustBefore(s.log, n, i) && Last(s.log, i)
    && Same(n.row, s.log[i].before) && w.key == n.key && Same(s.log[i].after, w.before)
  }

  lemma UpdateWriteEffect(s: State, c: nat)
    requires c in s.pending && Live(s.table, s.pending[c].key)
    ensures var p := s.pending[c]; var sent := Bumped(p.obj, p.compared); var s' := Step(s, UpdateWrite(c));
      if s.table[p.key].version == p.obj.version then
        && s'.log == s.log + [Write(p.key, s.table[p.key], sent, true, p.compared, p.basis)]
        && s'.table == s.table[p.key := sent]
      else s'.log == s.log
  {
    hide Bumped;
  }

  /** A conflict shows that the row has been written since the snapshot. */
  lemma MissMeansWritten(s: State, s': State, c: nat, n: Snapshot)
    requires Inv(s) && Conflicted(s, c, n) && s.log <= s'.log && Count(s'.log, n.key) < TWO_TO_64
    ensures n.at < Count(s.log, n.key)
  {
    hide Count, Wrap64, Step, Bumped;
    assert s'.log[..|s.log|] == s.log;
    CountBound(s'.log, |s.log|, n.key);
    assert SnapshotOk(s, n);
    UpdateWriteEffect(s, c);
    WrapIsInt64(n.row.version);
    HitsAfter(s, n, 0, n.row.version);
  }

  lemma WrittenEarlier(s: State, s': State, n: Snapshot, i: nat)
    requires s.log <= s'.log && n.at < Count(s.log, n.key)
    requires i < |s'.log| && Count(s'.log[..i], n.key) == n.at
    ensures i < |s.log|
  {
    hide Count;
    if |s.log| <= i {
      assert s'.log[..i][..|s.log|] == s.log;
      CountBound(s'.log[..i], |s.log|, n.key);
      assert false;
    }
  }

  lemma HistoryAt(s: State, n: Snapshot, i: nat)
    requires HistoryOk(s) && n in s.seen && i < |s.log| && JustBefore(s.log, n, i) && Last(s.log, i)
    ensures Same(n.row, s.log[i].before) && n.key in s.table && Same(s.log[i].after, s.table[n.key])
  {
  }

  predicate SpecChanged(compared: Option<Row>, obj: Row) {
    compared.Some? && SpecDiffers(compared.value, obj)
  }

  lemma BumpedTwice(obj: Row, a: Option<Row>, b: Option<Row>)
    ensures Bumped(obj, a).version == Wrap64(obj.version + 1)
    ensures var row := Bumped(Bumped(obj, a), b);
      && row == obj.(version := Wrap64(obj.version + 2), generation := row.generation)
      && (SpecChanged(a, obj) && SpecChanged(b, obj) ==> row.generation == Wrap64(obj.generation + 2))
  {
    hide Wrap64;
    WrapStep(obj.version + 1, 1);
    WrapStep(obj.generation + 1, 1);
  }

  /** After a conflict the caller's object carries the next version. In every run, repeating the
      Update with it, without a new Get, succeeds exactly when one single write has happened since
      the caller's snapshot. It then replaces that write, made before the first call and never
      seen by the caller, by the caller's columns; and when both calls found a different spec the
      generation has gone up by two. */
  lemma RetryWithoutGetOverwritesIff(tracks: bool, before: seq<Action>, more: seq<Action>, c: nat, d: nat, n: Snapshot)
    requires var s := Run(Init(tracks), before); var s' := Run(Init(tracks), before + [UpdateWrite(c)] + more);
      && Conflicted(s, c, n) && Retries(s.pending[c], s', d) && Count(s'.log, n.key) < TWO_TO_64
    ensures var s := Run(Init(tracks), before); var s' := Run(Init(tracks), before + [UpdateWrite(c)] + more);
      var end := Step(s', UpdateWrite(d)); var first, obj := s.pending[c], s.pending[c].obj;
      && (end.log != s'.log <==> Count(s'.log, n.key) == n.at + 1)
      && (end.log != s'.log ==>
          && |end.log| == |s'.log| + 1 && end.log[|s'.log|].after == end.table[n.key]
          && (exists i: nat :: i < |s.log| && Overwritten(s', n, i, end.log[|s'.log|]))
          && end.table[n.key] == obj.(version := Wrap64(n.row.version + 2), generation := end.table[n.key].generation)
          && (SpecChanged(first.compared, obj) && SpecChanged(s'.pending[d].compared, obj) ==>
              end.table[n.key].generation == Wrap64(obj.generation + 2)))
  {
    hide Step, Run, Count, Wrap64, Inv, HistoryOk, Same, Last, Bumped;
    var later := [UpdateWrite(c)] + more;
    assert before + [UpdateWrite(c)] + more == before + later;
    var s, s' := Run(Init(tracks), before), Run(Init(tracks), before + later);
    RunKeepsInv(tracks, before);
    RunKeepsInv(tracks, before + later);
    RunKeepsHistory(tracks, before + later);
    RunGrows(Init(tracks), before, later);
    var first, again := s.pending[c], s'.pending[d];
    UpdateWriteEffect(s, c);
    UpdateWriteEffect(s', d);
    MissMeansWritten(s, s', c, n);
    BumpedTwice(first.obj, first.compared, again.compared);
    HitsAfter(s', n, 1, again.obj.version);
    if Count(s'.log, n.key) == n.at + 1 {
      var i := LastWrite(s'.log, n.key);
      WrittenEarlier(s, s', n, i);
      HistoryAt(s', n, i);
      assert Overwritten(s', n, i, Step(s', UpdateWrite(d)).log[|s'.log|]);
    }
  }

  // ---- One such run ----

  lemma RunOne(s: State, actions: seq<Action>, a: Action)
    ensures Run(s, actions + [a]) == Step(Run(s, actions), a)
  {
    assert (actions + [a])[..|actions|] == actions;
  }

  const KEY := Key(0, "r")
  const ROW := Row(None, [], 1, 1, Some("first"), "", "", None, None)
  const MINE := ROW.(spec := Some("mine"))
  const THEIRS := Patch(None, None, None, Some(Some("theirs")), None, None, None, None)
  const SEEN := Snapshot(KEY, ROW, 0)

  const RETRY: seq<Action> := [
    InsertRow(KEY, ROW), Get(KEY), PatchRow(KEY, 1, THEIRS, None),
    UpdateRead(0, KEY, MINE, Some(SEEN)), UpdateWrite(0),
    UpdateRead(0, KEY, MINE.(version := 2, generation := 2), None), UpdateWrite(0)]

  const PATCHED := Write(KEY, ROW, ROW.(spec := Some("theirs"), version := 2), false, None, None)

  /** One such run: a client gets a row and another client patches its spec. The first client's
      Update conflicts, is repeated with the same object and replaces the patch, which nobody
      ever got; the generation counts two spec changes where it made one. */
  lemma RetryReplacesUnseenPatch()
    ensures var s := Run(Init(true), RETRY);
      && s.seen == {SEEN} && |s.log| == 2 && SpecChanges(s.log, KEY) == 1
      && s.log[0].after.spec == Some("theirs") && s.log[1].before == s.log[0].after
      && KEY in s.table && s.table[KEY] == MINE.(version := 3, generation := 3)
  {
    hide Run, Step, Count;
    BeforeRetry();
    assert RETRY[..6] + [RETRY[6]] == RETRY;
    RunOne(Init(true), RETRY[..6], RETRY[6]);
    var s := Run(Init(true), RETRY[..6]);
    UpdateWriteEffect(s, 0);
    StepGrows(s, UpdateWrite(0));
    UpdateWriteSees(s, 0);
    assert "theirs" != "mine" by { assert |"theirs"| == 6 && |"mine"| == 4; }
    WrapIsInt64(3);
    assert Bumped(s.pending[0].obj, s.pending[0].compared) == MINE.(version := 3, generation := 3);
    var w := Step(s, UpdateWrite(0)).log[1];
    SpecChangesCommit([], PATCHED, KEY);
    SpecChangesCommit([PATCHED], w, KEY);
    assert [] + [PATCHED] == [PATCHED];
  }

  lemma UpdateWriteSees(s: State, c: nat)
    ensures Step(s, UpdateWrite(c)).seen == s.seen
  {
  }

  lemma AfterPatch()
    ensures var s := Run(Init(true), RETRY[..3]);
      s.tracks && s.seen == {SEEN} && s.log == [PATCHED] && s.table == map[KEY := PATCHED.after]
  {
    assert RETRY[..0] == [] && RETRY[..0] + [RETRY[0]] == RETRY[..1];
    assert RETRY[..1] + [RETRY[1]] == RETRY[..2] && RETRY[..2] + [RETRY[2]] == RETRY[..3];
    RunOne(Init(true), RETRY[..0], RETRY[0]);
    RunOne(Init(true), RETRY[..1], RETRY[1]);
    RunOne(Init(true), RETRY[..2], RETRY[2]);
  }

  lemma AfterConflict()
    ensures var s := Run(Init(true), RETRY[..5]);
      s.tracks && s.seen == {SEEN} && s.log == [PATCHED] && s.table == map[KEY := PATCHED.after]
  {
    hide Run, Count;
    AfterPatch();
    assert RETRY[..3] + [RETRY[3]] == RETRY[..4] && RETRY[..4] + [RETRY[4]] == RETRY[..5];
    RunOne(Init(true), RETRY[..3], RETRY[3]);
    RunOne(Init(true), RETRY[..4], RETRY[4]);
  }

  lemma BeforeRetry()
    ensures var s := Run(Init(true), RETRY[..6]);
      && s.seen == {SEEN} && s.log == [PATCHED] && s.table == map[KEY := PATCHED.after]
      && 0 in s.pending
      && s.pending[0] == Pending(KEY, MINE.(version := 2, generation := 2), Some(PATCHED.after), 1, None)
  {
    hide Run, Count;
    AfterConflict();
    assert RETRY[..5] + [RETRY[5]] == RETRY[..6];
    RunOne(Init(true), RETRY[..5], RETRY[5]);
    CountCommit([], PATCHED, KEY);
    assert [] + [PATCHED] == [PATCHED];
    NoWrites(KEY);
  }

  lemma NoWrites(k: Key)
    ensures Count([], k) == 0
  {
  }
}
