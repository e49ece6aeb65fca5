/** Many clients whose single SQL statements interleave freely: what versions and generations
    count, and what an optimistic write replaces. */
module Versions {
  import opened Common
  import opened Resources
  import opened Store

  /** A row returned by Get, and how many versioned writes its key had seen by then. */
  datatype Snapshot = Snapshot(key: Key, row: Row, at: nat)

  /** A successful Update or PartialUpdate: the row it replaced and the row it left, the row an
      Update compared specs with, and the snapshot whose version the client wrote back, if any. */
  datatype Write = Write(
    key: Key, before: Row, after: Row, update: bool, compared: Option<Row>, basis: Option<Snapshot>)

  /** An Update between its read and its conditional write. */
  datatype Pending = Pending(key: Key, obj: Row, compared: Option<Row>, at: nat, basis: Option<Snapshot>)

  datatype State = State(
    tracks: bool,
    table: Table,
    born: Table,
    log: seq<Write>,
    seen: set<Snapshot>,
    pending: map<nat, Pending>)

  /** One statement by some client. Delete is its two possible writes, at any moment. */
  datatype Action =
    | InsertRow(key: Key, obj: Row)
    | Get(key: Key)
    | UpdateRead(client: nat, key: Key, obj: Row, basis: Option<Snapshot>)
    | UpdateWrite(client: nat)
    | PatchRow(key: Key, version: Int64, patch: Patch, basis: Option<Snapshot>)
    | Mark(key: Key, now: Time)
    | Drop(key: Key, now: Time)
    | WriteStatus(key: Key, status: string)

  function Count(log: seq<Write>, k: Key): nat {
    if log == [] then 0
    else Count(log[..|log| - 1], k) + if log[|log| - 1].key == k then 1 else 0
  }

  /** The client holds a snapshot it got earlier and writes back its version. */
  predicate WritesBack(s: State, k: Key, version: Int64, basis: Option<Snapshot>) {
    basis.Some? ==> basis.value in s.seen && basis.value.key == k && basis.value.row.version == version
  }

  function Commit(s: State, t: Table, w: Write): State {
    s.(table := t, log := s.log + [w])
  }

  function Step(s: State, a: Action): State {
    match a
    case InsertRow(k, obj) =>
      var r := Insert(s.table, k, BeforeCreate(obj));
      if r.hit then s.(table := r.table, born := s.born[k := BeforeCreate(obj)]) else s
    case Get(k) =>
      if Live(s.table, k) then s.(seen := s.seen + {Snapshot(k, s.table[k], Count(s.log, k))}) else s
    case UpdateRead(c, k, obj, basis) =>
      if (s.tracks && !Live(s.table, k)) || !WritesBack(s, k, obj.version, basis) then s
      else
        var compared := if s.tracks then Some(s.table[k]) else None;
        s.(pending := s.pending[c := Pending(k, obj, compared, Count(s.log, k), basis)])
    case UpdateWrite(c) =>
      if c !in s.pending then s
      else
        var p := s.pending[c];
        var s' := s.(pending := s.pending - {c});
        var sent := Bumped(p.obj, p.compared);
        var r := UpdateWhere(s.table, p.key, p.obj.version, sent);
        if r.hit then Commit(s', r.table, Write(p.key, s.table[p.key], sent, true, p.compared, p.basis)) else s'
    case PatchRow(k, v, p, basis) =>
      var r := PatchWhere(s.table, k, v, p);
      if r.hit && WritesBack(s, k, v, basis) then
        Commit(s, r.table, Write(k, s.table[k], r.table[k], false, None, basis))
      else s
    case Mark(k, now) => s.(table := MarkDeleting(s.table, k, now).table)
    case Drop(k, now) => s.(table := SoftDelete(s.table, k, now).table)
    case WriteStatus(k, status) => s.(table := SetStatus(s.table, k, status).table)
  }

  function Run(s: State, actions: seq<Action>): State {
    if actions == [] then s else Step(Run(s, actions[..|actions| - 1]), actions[|actions| - 1])
  }

  function Init(tracks: bool): State {
    State(tracks, map[], map[], [], {}, map[])
  }

  // ---- The invariant ----

  /** The version a row has after `n` versioned writes. */
  function VersionAfter(s: State, k: Key, n: nat): Int64
    requires k in s.born
  {
    Wrap64(s.born[k].version + n)
  }

  /** Equal except for the columns that are written without a new version. */
  predicate Same(a: Row, b: Row) {
    a == b.(status := a.status, deletionTimestamp := a.deletionTimestamp, deletedAt := a.deletedAt)
  }

  ghost predicate RowsOk(s: State) {
    && s.table.Keys == s.born.Keys
    && forall k :: k in s.table ==> s.table[k].version == VersionAfter(s, k, Count(s.log, k))
  }

  predicate SnapshotOk(s: State, n: Snapshot) {
    && n.key in s.table && n.key in s.born && n.at <= Count(s.log, n.key)
    && n.row.version == VersionAfter(s, n.key, n.at)
    && (n.at == Count(s.log, n.key) ==> Same(n.row, s.table[n.key]))
  }

  ghost predicate SnapshotsOk(s: State) {
    forall n :: n in s.seen ==> SnapshotOk(s, n)
  }

  predicate PendingOk(s: State, p: Pending) {
    && p.at <= Count(s.log, p.key)
    && (p.compared.Some? ==>
        p.key in s.table && (p.at == Count(s.log, p.key) ==> Same(p.compared.value, s.table[p.key])))
    && (p.basis.Some? ==>
        && p.basis.value in s.seen && p.basis.value.key == p.key
        && p.basis.value.row.version == p.obj.version && p.basis.value.at <= p.at)
  }

  ghost predicate AllPendingOk(s: State) {
    forall c :: c in s.pending ==> PendingOk(s, s.pending[c])
  }

  /** The write that found `n` earlier writes on its key. */
  predicate WriteOk(s: State, w: Write, n: nat) {
    && w.key in s.born
    && w.before.version == VersionAfter(s, w.key, n)
    && w.after.version == VersionAfter(s, w.key, n + 1)
    && (w.basis.Some? && n < TWO_TO_64 ==>
        Same(w.basis.value.row, w.before) && (w.compared.Some? ==> Same(w.compared.value, w.before)))
  }

  ghost predicate LogOk(s: State) {
    forall i :: 0 <= i < |s.log| ==> WriteOk(s, s.log[i], Count(s.log[..i], s.log[i].key))
  }

  ghost predicate Inv(s: State) {
    RowsOk(s) && SnapshotsOk(s) && AllPendingOk(s) && LogOk(s)
  }

  // ---- Steps that add no write ----

  /** The table changes only in rows that were not there and in unversioned columns. */
  ghost predicate Quiet(s: State, s': State) {
    && s'.log == s.log && s'.seen == s.seen && s'.pending == s.pending
    && (forall k :: k in s.table ==>
        k in s'.table && s'.table[k].version == s.table[k].version && Same(s.table[k], s'.table[k]))
    && (forall k :: k in s.born ==> k in s'.born && s'.born[k] == s.born[k])
    && s'.table.Keys == s'.born.Keys
    && (forall k :: k in s'.table && k !in s.table ==> s'.table[k] == s'.born[k])
  }

  lemma {:induction false} LogKeys(s: State, log: seq<Write>, k: Key)
    requires forall w :: w in log ==> w.key in s.born
    requires k !in s.born
    ensures Count(log, k) == 0
  {
    if log != [] {
      LogKeys(s, log[..|log| - 1], k);
    }
  }

  lemma QuietKeepsInv(s: State, s': State)
    requires Inv(s) && Quiet(s, s')
    ensures Inv(s')
  {
    hide Count, Wrap64;
    forall k | k in s'.table && k !in s.table
      ensures Count(s.log, k) == 0 && s'.table[k].version == VersionAfter(s', k, 0)
    {
      LogKeys(s, s.log, k);
      WrapIsInt64(s'.born[k].version);
    }
    assert RowsOk(s');
    forall n | n in s'.seen ensures SnapshotOk(s', n) {
      assert SnapshotOk(s, n);
    }
    forall c | c in s'.pending ensures PendingOk(s', s'.pending[c]) {
      assert PendingOk(s, s.pending[c]);
    }
    forall i | 0 <= i < |s'.log| ensures WriteOk(s', s'.log[i], Count(s'.log[..i], s'.log[i].key)) {
      assert WriteOk(s, s.log[i], Count(s.log[..i], s.log[i].key));
    }
  }

  // ---- Steps that add a write ----

  lemma CountCommit(log: seq<Write>, w: Write, k: Key)
    ensures Count(log + [w], k) == Count(log, k) + if w.key == k then 1 else 0
  {
    assert (log + [w])[..|log|] == log;
  }

  /** The written row, at the position the commit gives it. */
  ghost predicate Commits(s: State, t: Table, w: Write) {
    && Inv(s) && w.key in s.table
    && t == s.table[w.key := w.after] && w.before == s.table[w.key]
    && WriteOk(s, w, Count(s.log, w.key))
  }

  lemma CommitRows(s: State, t: Table, w: Write, k: Key)
    requires Commits(s, t, w) && k in t
    ensures var s' := Commit(s, t, w);
      k in s'.born && s'.table[k].version == VersionAfter(s', k, Count(s'.log, k))
  {
    hide Count, WriteOk, Wrap64;
    CountCommit(s.log, w, k);
    if k == w.key {
      assert w.after.version == VersionAfter(s, k, Count(s.log, k) + 1) by { WriteVersions(s, w, Count(s.log, k)); }
    }
  }

  lemma WriteVersions(s: State, w: Write, n: nat)
    requires WriteOk(s, w, n)
    ensures w.key in s.born && w.after.version == VersionAfter(s, w.key, n + 1)
  {
  }

  lemma CommitSnapshot(s: State, t: Table, w: Write, n: Snapshot)
    requires Commits(s, t, w) && n in s.seen
    ensures SnapshotOk(Commit(s, t, w), n)
  {
    hide Count, WriteOk, Wrap64;
    assert SnapshotOk(s, n);
    CountCommit(s.log, w, n.key);
  }

  lemma CommitPending(s: State, t: Table, w: Write, p: Pending)
    requires Commits(s, t, w) && PendingOk(s, p)
    ensures PendingOk(Commit(s, t, w), p)
  {
    hide Count, WriteOk, Wrap64;
    CountCommit(s.log, w, p.key);
  }

  lemma CommitKeepsInv(s: State, t: Table, w: Write)
    requires Commits(s, t, w)
    ensures Inv(Commit(s, t, w))
  {
    hide Count, SnapshotOk, PendingOk, WriteOk, Wrap64;
    var s' := Commit(s, t, w);
    forall k | k in s'.table
      ensures k in s'.born && s'.table[k].version == VersionAfter(s', k, Count(s'.log, k))
    {
      CommitRows(s, t, w, k);
    }
    forall n | n in s'.seen ensures SnapshotOk(s', n) {
      CommitSnapshot(s, t, w, n);
    }
    forall c | c in s'.pending ensures PendingOk(s', s'.pending[c]) {
      CommitPending(s, t, w, s.pending[c]);
    }
    forall i | 0 <= i < |s'.log| ensures WriteOk(s', s'.log[i], Count(s'.log[..i], s'.log[i].key)) {
      assert s'.log[..i] == s.log[..i];
      WriteOkFrame(s, s', s'.log[i], Count(s.log[..i], s'.log[i].key));
    }
  }

  lemma WriteOkFrame(s: State, s': State, w: Write, n: nat)
    requires s'.born == s.born && WriteOk(s, w, n)
    ensures WriteOk(s', w, n)
  {
  }

  /** A snapshot whose version is still current shows the row as it is. */
  lemma CurrentSnapshot(s: State, n: Snapshot)
    requires Inv(s) && n in s.seen && n.key in s.table
    requires n.row.version == s.table[n.key].version && Count(s.log, n.key) < TWO_TO_64
    ensures n.at == Count(s.log, n.key) && Same(n.row, s.table[n.key])
  {
    assert SnapshotOk(s, n);
    WrapInjective(s.born[n.key].version, n.at, Count(s.log, n.key));
  }

  lemma UpdateWriteOk(s: State, p: Pending)
    requires Inv(s) && PendingOk(s, p) && Live(s.table, p.key) && s.table[p.key].version == p.obj.version
    ensures var w := Write(p.key, s.table[p.key], Bumped(p.obj, p.compared), true, p.compared, p.basis);
      WriteOk(s, w, Count(s.log, p.key))
  {
    hide Count, Wrap64;
    WrapStep(s.born[p.key].version + Count(s.log, p.key), 1);
    if p.basis.Some? && Count(s.log, p.key) < TWO_TO_64 {
      CurrentSnapshot(s, p.basis.value);
    }
  }

  lemma PatchWriteOk(s: State, k: Key, v: Int64, p: Patch, basis: Option<Snapshot>)
    requires Inv(s) && Live(s.table, k) && s.table[k].version == v && WritesBack(s, k, v, basis)
    ensures WriteOk(s, Write(k, s.table[k], Patched(s.table[k], v, p), false, None, basis), Count(s.log, k))
  {
    hide Count, Wrap64;
    WrapStep(s.born[k].version + Count(s.log, k), 1);
    if basis.Some? && Count(s.log, k) < TWO_TO_64 {
      CurrentSnapshot(s, basis.value);
    }
  }

  lemma StepKeepsInv(s: State, a: Action)
    requires Inv(s)
    ensures Inv(Step(s, a))
  {
    hide Inv, Step;
    match a
    case Get(k) => GetKeepsInv(s, k);
    case UpdateRead(c, k, obj, basis) => UpdateReadKeepsInv(s, c, k, obj, basis);
    case UpdateWrite(c) => UpdateWriteKeepsInv(s, c);
    case PatchRow(k, v, p, basis) => PatchKeepsInv(s, k, v, p, basis);
    case InsertRow(k, obj) => QuietStep(s, a);
    case Mark(k, now) => QuietStep(s, a);
    case Drop(k, now) => QuietStep(s, a);
    case WriteStatus(k, status) => QuietStep(s, a);
  }

  /** Inserts, marks, soft deletions and status writes are quiet. */
  lemma QuietStep(s: State, a: Action)
    requires Inv(s) && (a.InsertRow? || a.Mark? || a.Drop? || a.WriteStatus?)
    ensures Inv(Step(s, a))
  {
    hide Inv;
    match a
    case InsertRow(k, obj) => InsertKeepsInv(s, k, BeforeCreate(obj));
    case Mark(k, now) =>
      if Live(s.table, k) {
        RowKeepsInv(s, k, s.table[k].(deletionTimestamp := Some(now)));
      }
    case Drop(k, now) =>
      if Live(s.table, k) {
        RowKeepsInv(s, k, s.table[k].(deletedAt := Some(now)));
      }
    case WriteStatus(k, status) =>
      if Live(s.table, k) {
        RowKeepsInv(s, k, s.table[k].(status := status));
      }
  }

  lemma InsertKeepsInv(s: State, k: Key, row: Row)
    requires Inv(s)
    ensures k !in s.table ==> Inv(s.(table := s.table[k := row], born := s.born[k := row]))
  {
    hide Count, SnapshotsOk, AllPendingOk, LogOk, Wrap64;
    if k !in s.table {
      var s' := s.(table := s.table[k := row], born := s.born[k := row]);
      assert Quiet(s, s');
      QuietKeepsInv(s, s');
    }
  }

  lemma RowKeepsInv(s: State, k: Key, row: Row)
    requires Inv(s) && k in s.table && row.version == s.table[k].version && Same(s.table[k], row)
    ensures Inv(s.(table := s.table[k := row]))
  {
    hide Count, SnapshotsOk, AllPendingOk, LogOk, Wrap64;
    var s' := s.(table := s.table[k := row]);
    assert Quiet(s, s');
    QuietKeepsInv(s, s');
  }

  lemma PatchKeepsInv(s: State, k: Key, v: Int64, p: Patch, basis: Option<Snapshot>)
    requires Inv(s)
    ensures Inv(Step(s, PatchRow(k, v, p, basis)))
  {
    hide Count, SnapshotsOk, AllPendingOk, LogOk, WriteOk;
    if Live(s.table, k) && s.table[k].version == v && WritesBack(s, k, v, basis) {
      PatchWriteOk(s, k, v, p, basis);
      var row := Patched(s.table[k], v, p);
      CommitKeepsInv(s, s.table[k := row], Write(k, s.table[k], row, false, None, basis));
    }
  }

  lemma GetKeepsInv(s: State, k: Key)
    requires Inv(s)
    ensures Inv(Step(s, Get(k)))
  {
    hide Count, Wrap64;
    var s' := Step(s, Get(k));
    forall n | n in s'.seen ensures SnapshotOk(s', n) {
      if n in s.seen {
        assert SnapshotOk(s, n);
      }
    }
    forall c | c in s'.pending ensures PendingOk(s', s'.pending[c]) {
      assert PendingOk(s, s.pending[c]);
    }
    forall i | 0 <= i < |s'.log| ensures WriteOk(s', s'.log[i], Count(s'.log[..i], s'.log[i].key)) {
      assert WriteOk(s, s.log[i], Count(s.log[..i], s.log[i].key));
    }
  }

  lemma UpdateReadKeepsInv(s: State, c: nat, k: Key, obj: Row, basis: Option<Snapshot>)
    requires Inv(s)
    ensures Inv(Step(s, UpdateRead(c, k, obj, basis)))
  {
    hide Count, Wrap64;
    var s' := Step(s, UpdateRead(c, k, obj, basis));
    if basis.Some? && basis.value in s.seen {
      assert SnapshotOk(s, basis.value);
    }
    PendingOnly(s, s');
  }

  lemma PendingOnly(s: State, s': State)
    requires Inv(s) && s' == s.(pending := s'.pending)
    requires forall c :: c in s'.pending ==>
      PendingOk(s', s'.pending[c]) || (c in s.pending && s'.pending[c] == s.pending[c])
    ensures Inv(s')
  {
    hide Count, Wrap64;
    forall n | n in s'.seen ensures SnapshotOk(s', n) {
      assert SnapshotOk(s, n);
    }
    forall c | c in s'.pending ensures PendingOk(s', s'.pending[c]) {
      assert c in s.pending ==> PendingOk(s, s.pending[c]);
    }
    forall i | 0 <= i < |s'.log| ensures WriteOk(s', s'.log[i], Count(s'.log[..i], s'.log[i].key)) {
      assert WriteOk(s, s.log[i], Count(s.log[..i], s.log[i].key));
    }
  }

  lemma UpdateWriteKeepsInv(s: State, c: nat)
    requires Inv(s)
    ensures Inv(Step(s, UpdateWrite(c)))
  {
    hide Count, Wrap64;
    if c in s.pending {
      var p := s.pending[c];
      var s1 := s.(pending := s.pending - {c});
      PendingOnly(s, s1);
      assert PendingOk(s, p);
      if Live(s.table, p.key) && s.table[p.key].version == p.obj.version {
        assert PendingOk(s1, p);
        UpdateWriteOk(s1, p);
        var sent := Bumped(p.obj, p.compared);
        CommitKeepsInv(s1, s.table[p.key := sent], Write(p.key, s.table[p.key], sent, true, p.compared, p.basis));
      }
    }
  }

  lemma {:induction false} RunKeepsInv(tracks: bool, actions: seq<Action>)
    ensures Inv(Run(Init(tracks), actions))
  {
    hide Inv;
    if actions == [] {
      InitInv(tracks);
    } else {
      RunKeepsInv(tracks, actions[..|actions| - 1]);
      StepKeepsInv(Run(Init(tracks), actions[..|actions| - 1]), actions[|actions| - 1]);
    }
  }

  lemma InitInv(tracks: bool)
    ensures Inv(Init(tracks))
  {
  }

  // ---- Main results, for every interleaving of every clients' statements ----

  /** A row's version is its creation version plus the number of its successful Updates and
      PartialUpdates, and the n-th of those replaced version n. */
  lemma VersionCountsWrites(tracks: bool, actions: seq<Action>, k: Key)
    ensures var s := Run(Init(tracks), actions);
      && (k in s.table ==> k in s.born && s.table[k].version == Wrap64(s.born[k].version + Count(s.log, k)))
      && (forall i :: 0 <= i < |s.log| && s.log[i].key == k ==>
          && k in s.born
          && s.log[i].before.version == Wrap64(s.born[k].version + Count(s.log[..i], k))
          && s.log[i].after.version == Wrap64(s.born[k].version + Count(s.log[..i], k) + 1))
  {
    hide Step, Count, Wrap64;
    RunKeepsInv(tracks, actions);
    var s := Run(Init(tracks), actions);
    forall i | 0 <= i < |s.log| && s.log[i].key == k
      ensures k in s.born && s.log[i].before.version == Wrap64(s.born[k].version + Count(s.log[..i], k))
      ensures s.log[i].after.version == Wrap64(s.born[k].version + Count(s.log[..i], k) + 1)
    {
      assert WriteOk(s, s.log[i], Count(s.log[..i], s.log[i].key));
    }
  }

  lemma {:induction false} CountGrows(log: seq<Write>, i: nat, j: nat, k: Key)
    requires i < j <= |log| && log[i].key == k
    ensures Count(log[..i], k) < Count(log[..j], k)
  {
    assert log[..j][..j - 1] == log[..j - 1];
    if i < j - 1 {
      CountGrows(log, i, j - 1, k);
    }
  }

  lemma {:induction false} CountBound(log: seq<Write>, i: nat, k: Key)
    requires i <= |log|
    ensures Count(log[..i], k) <= Count(log, k)
    decreases |log| - i
  {
    if i < |log| {
      assert log[..i + 1][..i] == log[..i];
      CountBound(log, i + 1, k);
    } else {
      assert log[..i] == log;
    }
  }

  /** Two successful writes to a row never start from the same version (in fewer than 2^64). */
  lemma OneWritePerVersion(tracks: bool, actions: seq<Action>, i: nat, j: nat)
    requires var log := Run(Init(tracks), actions).log;
      i < j < |log| && log[i].key == log[j].key && Count(log, log[i].key) < TWO_TO_64
    ensures var log := Run(Init(tracks), actions).log; log[i].before.version != log[j].before.version
  {
    hide Step, Count, Wrap64;
    var s := Run(Init(tracks), actions);
    var k := s.log[i].key;
    VersionCountsWrites(tracks, actions, k);
    CountGrows(s.log, i, j, k);
    CountBound(s.log, j, k);
    var m, n := Count(s.log[..i], k), Count(s.log[..j], k);
    if Wrap64(s.born[k].version + m) == Wrap64(s.born[k].version + n) {
      WrapInjective(s.born[k].version, m, n);
      assert false;
    }
  }

  /** No lost update: a client that writes back the version it got replaces the very row it
      got, but for status and deletion marks; and its Update compared specs with that row. */
  lemma NoLostUpdate(tracks: bool, actions: seq<Action>, i: nat)
    requires var log := Run(Init(tracks), actions).log;
      i < |log| && log[i].basis.Some? && Count(log, log[i].key) < TWO_TO_64
    ensures var w := Run(Init(tracks), actions).log[i];
      Same(w.basis.value.row, w.before) && (w.compared.Some? ==> Same(w.compared.value, w.before))
  {
    hide Step, Count, Wrap64;
    RunKeepsInv(tracks, actions);
    var s := Run(Init(tracks), actions);
    CountBound(s.log, i, s.log[i].key);
    assert WriteOk(s, s.log[i], Count(s.log[..i], s.log[i].key));
  }

  // ---- Generations ----

  /** Successful Updates that replaced a row by one with a different spec. */
  function SpecChanges(log: seq<Write>, k: Key): nat {
    if log == [] then 0
    else
      var w := log[|log| - 1];
      SpecChanges(log[..|log| - 1], k) + if w.key == k && w.update && SpecDiffers(w.before, w.after) then 1 else 0
  }

  /** Updates write back the version and generation of a snapshot; patches leave generations. */
  predicate GenerationDiscipline(a: Action) {
    match a
    case UpdateRead(_, _, obj, basis) => basis.Some? && obj.generation == basis.value.row.generation
    case PatchRow(_, _, p, _) => p.generation == None
    case _ => true
  }

  ghost predicate GenOk(s: State) {
    && s.tracks
    && (forall c :: c in s.pending ==>
        && s.pending[c].basis.Some? && s.pending[c].compared.Some?
        && s.pending[c].obj.generation == s.pending[c].basis.value.row.generation)
    && (forall k :: k in s.table && k in s.born && Count(s.log, k) <= TWO_TO_64 ==>
        s.table[k].generation == Wrap64(s.born[k].generation + SpecChanges(s.log, k)))
  }

  lemma SpecChangesCommit(log: seq<Write>, w: Write, k: Key)
    ensures SpecChanges(log + [w], k) ==
            SpecChanges(log, k) + if w.key == k && w.update && SpecDiffers(w.before, w.after) then 1 else 0
  {
    assert (log + [w])[..|log|] == log;
  }

  lemma {:induction false} NoChangesYet(log: seq<Write>, k: Key)
    requires Count(log, k) == 0
    ensures SpecChanges(log, k) == 0
  {
    if log != [] {
      NoChangesYet(log[..|log| - 1], k);
    }
  }

  /** A committed write moves the generation by the spec change it makes. */
  lemma CommitKeepsGen(s: State, t: Table, w: Write)
    requires GenOk(s) && w.key in s.table && w.key in s.born
    requires t == s.table[w.key := w.after] && w.before == s.table[w.key]
    requires Count(s.log, w.key) < TWO_TO_64 ==>
      w.after.generation ==
      if w.update && SpecDiffers(w.before, w.after) then Wrap64(w.before.generation + 1) else w.before.generation
    ensures GenOk(Commit(s, t, w))
  {
    hide Count, SpecChanges, Wrap64;
    var s' := Commit(s, t, w);
    forall k | k in s'.table && k in s'.born && Count(s'.log, k) <= TWO_TO_64
      ensures s'.table[k].generation == Wrap64(s'.born[k].generation + SpecChanges(s'.log, k))
    {
      CountCommit(s.log, w, k);
      SpecChangesCommit(s.log, w, k);
      WrapStep(s.born[k].generation + SpecChanges(s.log, k), 1);
    }
  }

  lemma UpdateWriteGen(s: State, c: nat)
    requires Inv(s) && GenOk(s) && c in s.pending
    ensures GenOk(Step(s, UpdateWrite(c)))
  {
    hide Count, SpecChanges, Wrap64;
    var p := s.pending[c];
    var s1 := s.(pending := s.pending - {c});
    var sent := Bumped(p.obj, p.compared);
    assert GenOk(s1);
    assert PendingOk(s, p);
    if Live(s.table, p.key) && s.table[p.key].version == p.obj.version {
      var before := s.table[p.key];
      if Count(s.log, p.key) < TWO_TO_64 {
        CurrentSnapshot(s, p.basis.value);
      }
      CommitKeepsGen(s1, s.table[p.key := sent], Write(p.key, before, sent, true, p.compared, p.basis));
    }
  }

  lemma StepKeepsGen(s: State, a: Action)
    requires Inv(s) && GenOk(s) && GenerationDiscipline(a)
    ensures GenOk(Step(s, a))
  {
    hide Inv, GenOk, Step;
    match a
    case UpdateWrite(c) =>
      if c in s.pending {
        UpdateWriteGen(s, c);
      } else {
        QuietGen(s, a);
      }
    case PatchRow(k, v, p, basis) => PatchGen(s, k, v, p, basis);
    case InsertRow(k, obj) => InsertGen(s, k, obj);
    case Get(k) => QuietGen(s, a);
    case UpdateRead(c, k, obj, basis) => UpdateReadGen(s, c, k, obj, basis);
    case Mark(_, _) => QuietGen(s, a);
    case Drop(_, _) => QuietGen(s, a);
    case WriteStatus(_, _) => QuietGen(s, a);
  }

  lemma QuietGen(s: State, a: Action)
    requires GenOk(s) && (a.UpdateWrite? ==> a.client !in s.pending)
    requires a.UpdateWrite? || a.Get? || a.Mark? || a.Drop? || a.WriteStatus?
    ensures GenOk(Step(s, a))
  {
    hide Count, SpecChanges, Wrap64;
  }

  lemma UpdateReadGen(s: State, c: nat, k: Key, obj: Row, basis: Option<Snapshot>)
    requires GenOk(s) && GenerationDiscipline(UpdateRead(c, k, obj, basis))
    ensures GenOk(Step(s, UpdateRead(c, k, obj, basis)))
  {
    hide Count, SpecChanges, Wrap64;
  }

  lemma InsertGen(s: State, k: Key, obj: Row)
    requires Inv(s) && GenOk(s)
    ensures GenOk(Step(s, InsertRow(k, obj)))
  {
    hide Count, SpecChanges, SnapshotsOk, AllPendingOk;
    if k !in s.table {
      LogKeysOk(s, k);
      NoChangesYet(s.log, k);
    }
  }

  lemma PatchGen(s: State, k: Key, v: Int64, p: Patch, basis: Option<Snapshot>)
    requires Inv(s) && GenOk(s) && p.generation == None
    ensures GenOk(Step(s, PatchRow(k, v, p, basis)))
  {
    hide Count, SpecChanges, SnapshotsOk, AllPendingOk, LogOk;
    if Live(s.table, k) && s.table[k].version == v && WritesBack(s, k, v, basis) {
      var row := Patched(s.table[k], v, p);
      CommitKeepsGen(s, s.table[k := row], Write(k, s.table[k], row, false, None, basis));
    }
  }

  lemma LogKeysOk(s: State, k: Key)
    requires Inv(s) && k !in s.born
    ensures Count(s.log, k) == 0
  {
    hide Count, Wrap64;
    forall w | w in s.log ensures w.key in s.born {
      var i :| 0 <= i < |s.log| && s.log[i] == w;
      assert WriteOk(s, s.log[i], Count(s.log[..i], s.log[i].key));
    }
    LogKeys(s, s.log, k);
  }

  lemma {:induction false} RunKeepsGen(actions: seq<Action>)
    requires forall a :: a in actions ==> GenerationDiscipline(a)
    ensures GenOk(Run(Init(true), actions))
  {
    hide GenOk, Inv, Step;
    if actions == [] {
      InitGen();
    } else {
      RunKeepsGen(actions[..|actions| - 1]);
      RunKeepsInv(true, actions[..|actions| - 1]);
      StepKeepsGen(Run(Init(true), actions[..|actions| - 1]), actions[|actions| - 1]);
    }
  }

  lemma InitGen()
    ensures GenOk(Init(true))
  {
  }

  /** With such clients a row's generation is its initial one plus the number of successful
      Updates that changed its spec. */
  lemma GenerationCountsSpecChanges(actions: seq<Action>, k: Key)
    requires forall a :: a in actions ==> GenerationDiscipline(a)
    requires k in Run(Init(true), actions).table && Count(Run(Init(true), actions).log, k) < TWO_TO_64
    ensures var s := Run(Init(true), actions);
      k in s.born && s.table[k].generation == Wrap64(s.born[k].generation + SpecChanges(s.log, k))
  {
    hide Step, Count, SpecChanges, Wrap64;
    RunKeepsGen(actions);
    RunKeepsInv(true, actions);
  }

  // ---- Statements and whole operations ----

  /** The two statements of an Update, with nothing between them, are the whole operation. */
  lemma UndisturbedUpdate(s: State, c: nat, k: Key, obj: Row)
    requires ParentCheck(s.table, k, obj) == Done
    ensures var r := Step(s, UpdateRead(c, k, obj, None)); var u := UpdateOp(s.table, s.tracks, k, obj);
      u.status != NotFound ==>
        Step(r, UpdateWrite(c)).table == u.table && (u.status == Done <==> Step(r, UpdateWrite(c)).log != s.log)
  {
    hide Count, Wrap64;
  }
}
