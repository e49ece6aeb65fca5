/** Runs of whole store operations: the parent forest and the deletion protocol. */
module Hierarchy {
  import opened Common
  import opened Resources
  import opened Nesting
  import opened Store

  datatype Op =
    | Create(key: Key, obj: Row)
    | Update(key: Key, obj: Row)
    | PartialUpdate(key: Key, version: Int64, patch: Patch)
    | Delete(key: Key, now: Time)
    | UpdateStatus(key: Key, status: string)

  ghost function Apply(t: Table, tracks: bool, op: Op): Table {
    match op
    case Create(k, obj) => CreateOp(t, k, obj).table
    case Update(k, obj) => UpdateOp(t, tracks, k, obj).table
    case PartialUpdate(k, v, p) => PartialUpdateOp(t, k, v, p).0
    case Delete(k, now) => DeleteOp(t, k, now).0
    case UpdateStatus(k, s) => SetStatus(t, k, s).table
  }

  ghost function Run(t: Table, tracks: bool, ops: seq<Op>): Table {
    if ops == [] then t else Apply(Run(t, tracks, ops[..|ops| - 1]), tracks, ops[|ops| - 1])
  }

  /** Callers leave soft deletion to Delete and re-parenting to Create and Update. */
  predicate Disciplined(op: Op) {
    && (op.Update? ==> op.obj.deletedAt == None)
    && (op.PartialUpdate? ==> op.patch.parent == None && op.patch.deletedAt == None)
  }

  /** Every live row's parent is a live row of its organisation, and every chain ends. */
  ghost predicate Forest(t: Table) {
    && (forall k :: Live(t, k) && IsParent(t[k].parent) ==> Live(t, Key(k.org, t[k].parent.value)))
    && (forall k :: Live(t, k) ==> Ends(t, k.org, k.name))
  }

  // ---- Chains after one row changed ----

  /** The two tables give every name other than `name` the same parent. */
  ghost predicate SameParents(t: Table, u: Table, org: OrgId, name: string) {
    forall n :: n != name ==> ParentOf(t, org, n) == ParentOf(u, org, n)
  }

  lemma {:induction false} ChainSame(t: Table, u: Table, org: OrgId, name: string, x: string, k: nat)
    requires SameParents(t, u, org, name)
    requires forall i :: 0 <= i < k ==> Chain(t, org, x, i) != Some(name)
    ensures Chain(u, org, x, k) == Chain(t, org, x, k)
  {
    if k > 0 {
      ChainSame(t, u, org, name, x, k - 1);
    }
  }

  lemma {:induction false} FirstReach(t: Table, org: OrgId, x: string, name: string, k: nat) returns (i: nat)
    requires Chain(t, org, x, k) == Some(name)
    ensures i <= k && Chain(t, org, x, i) == Some(name)
    ensures forall j :: 0 <= j < i ==> Chain(t, org, x, j) != Some(name)
  {
    if j: nat :| j < k && Chain(t, org, x, j) == Some(name) {
      i := FirstReach(t, org, x, name, j);
    } else {
      i := k;
    }
  }

  /** A chain that avoids the changed name is unchanged, so it still ends. */
  lemma AvoidingEnds(t: Table, u: Table, org: OrgId, name: string, x: string)
    requires SameParents(t, u, org, name) && Ends(t, org, x) && !Reaches(t, org, x, name)
    ensures Ends(u, org, x)
  {
    var k: nat :| Chain(t, org, x, k) == None;
    ChainSame(t, u, org, name, x, k);
  }

  /** When the changed name itself has an ending chain, all chains still end. */
  lemma ReachingEnds(t: Table, u: Table, org: OrgId, name: string, x: string)
    requires SameParents(t, u, org, name) && Ends(t, org, x) && Ends(u, org, name)
    ensures Ends(u, org, x)
  {
    if Reaches(t, org, x, name) {
      var k: nat :| Chain(t, org, x, k) == Some(name);
      var i := FirstReach(t, org, x, name, k);
      ChainSame(t, u, org, name, x, i);
      var j: nat :| Chain(u, org, name, j) == None;
      ChainFrom(u, org, x, i, name, j);
    } else {
      AvoidingEnds(t, u, org, name, x);
    }
  }

  /** A chain that goes on to a parent whose chain ends, ends. */
  lemma ParentEnds(u: Table, org: OrgId, name: string)
    requires ParentOf(u, org, name).Some? ==> Ends(u, org, ParentOf(u, org, name).value)
    ensures Ends(u, org, name)
  {
    var p := ParentOf(u, org, name);
    ChainStart(u, org, name);
    if name != "" {
      ChainStep(u, org, name, 0, name);
      if p.Some? {
        var j: nat :| Chain(u, org, p.value, j) == None;
        ChainFrom(u, org, name, 1, p.value, j);
      } else {
        assert Chain(u, org, name, 1) == None;
      }
    }
  }

  lemma OtherRows(t: Table, k: Key, row: Row)
    ensures SameParents(t, t[k := row], k.org, k.name)
  {
  }

  lemma OtherOrgEnds(t: Table, k: Key, row: Row, org: OrgId, x: string)
    requires org != k.org && Ends(t, org, x)
    ensures Ends(t[k := row], org, x)
  {
    forall i: nat ensures Chain(t, org, x, i) != Some("") {
      ChainNames(t, org, x, i);
    }
    AvoidingEnds(t, t[k := row], org, "", x);
  }

  // ---- One write ----

  /** Writing a live row keeps the forest when the parent check accepts it. */
  lemma CheckedWriteKeeps(t: Table, k: Key, row: Row)
    requires Forest(t) && row.deletedAt == None && ParentCheck(t, k, row) == Done
    ensures Forest(t[k := row])
  {
    var u := t[k := row];
    OtherRows(t, k, row);
    assert Ends(u, k.org, k.name) by {
      if ParentOf(u, k.org, k.name).Some? {
        var p := row.parent.value;
        assert Live(t, Key(k.org, p)) && !Reaches(t, k.org, p, k.name);
        AvoidingEnds(t, u, k.org, k.name, p);
      }
      ParentEnds(u, k.org, k.name);
    }
    forall x | Live(u, x) ensures Ends(u, x.org, x.name) {
      if x != k {
        if x.org == k.org {
          ReachingEnds(t, u, k.org, k.name, x.name);
        } else {
          OtherOrgEnds(t, k, row, x.org, x.name);
        }
      }
    }
  }

  /** In a forest no chain comes back to where it started. */
  lemma NoReturn(t: Table, org: OrgId, name: string, p: string)
    requires Ends(t, org, name) && ParentOf(t, org, name) == Some(p) && name != ""
    ensures !Reaches(t, org, p, name)
  {
    EndsMeansNoLoop(t, org, name);
    ChainStart(t, org, name);
    ChainStep(t, org, name, 0, name);
    forall j: nat ensures Chain(t, org, p, j) != Some(name) {
      ChainFrom(t, org, name, 1, p, j);
      assert Chain(t, org, name, 0) != Chain(t, org, name, 1 + j);
    }
  }

  /** If the written row belongs to a forest, the parent check would have accepted it. */
  lemma KeptWriteChecked(t: Table, k: Key, row: Row)
    requires Forest(t) && Live(t, k) && row.deletedAt == None && Forest(t[k := row])
    ensures ParentCheck(t, k, row) == Done
  {
    var u := t[k := row];
    OtherRows(t, k, row);
    if IsParent(row.parent) && k.name != "" {
      var p := row.parent.value;
      assert Live(u, k) && Live(u, Key(k.org, p));
      NoReturn(u, k.org, k.name, p);
      ChainStart(u, k.org, p);
      assert p != k.name;
      assert Live(t, Key(k.org, p));
      EndsMeansNoLoop(t, k.org, p);
      if Reaches(t, k.org, p, k.name) {
        var j: nat :| Chain(t, k.org, p, j) == Some(k.name);
        var i := FirstReach(t, k.org, p, k.name, j);
        ChainSame(t, u, k.org, k.name, p, i);
        assert false;
      }
    } else if IsParent(row.parent) {
      var p := row.parent.value;
      assert Live(u, k) && Live(u, Key(k.org, p)) && Live(t, Key(k.org, p));
      EndsMeansNoLoop(t, k.org, p);
      forall j: nat ensures Chain(t, k.org, p, j) != Some("") {
        ChainNames(t, k.org, p, j);
      }
    }
  }

  /** Exactly when a write of a live row keeps the forest, parent check or not. */
  lemma WriteKeepsForestIff(t: Table, k: Key, row: Row)
    requires Forest(t) && Live(t, k) && row.deletedAt == None
    ensures Forest(t[k := row]) <==> ParentCheck(t, k, row) == Done
  {
    if ParentCheck(t, k, row) == Done {
      CheckedWriteKeeps(t, k, row);
    }
    if Forest(t[k := row]) {
      KeptWriteChecked(t, k, row);
    }
  }

  /** Exactly when soft-deleting a row keeps the forest: no live row names it as parent. The
      empty name is no parent, so its row may always go. */
  lemma SoftDeleteKeepsForestIff(t: Table, k: Key, row: Row)
    requires Forest(t) && Live(t, k) && row.deletedAt.Some?
    ensures Forest(t[k := row]) <==> k.name == "" || !Parented(t, k)
  {
    var u := t[k := row];
    OtherRows(t, k, row);
    if k.name == "" || !Parented(t, k) {
      forall x | Live(u, x) ensures Ends(u, x.org, x.name) {
        if x.org == k.org {
          ParentEnds(u, k.org, k.name);
          ReachingEnds(t, u, k.org, k.name, x.name);
        } else {
          OtherOrgEnds(t, k, row, x.org, x.name);
        }
      }
      forall x | Live(u, x) && IsParent(u[x].parent) ensures Live(u, Key(x.org, u[x].parent.value)) {
        assert Live(t, x) && Live(t, Key(x.org, t[x].parent.value));
      }
    } else {
      var c :| Live(t, c) && c.org == k.org && t[c].parent == Some(k.name);
      if c == k {
        ChainStart(t, k.org, k.name);
        ChainStep(t, k.org, k.name, 0, k.name);
        EndsMeansNoLoop(t, k.org, k.name);
        assert false;
      } else {
        assert Live(u, c) && !Live(u, k);
      }
    }
  }

  lemma {:induction false} SameColumnsKeep(t: Table, k: Key, row: Row)
    requires Forest(t) && Live(t, k)
    requires row.parent == t[k].parent && row.deletedAt == None
    ensures Forest(t[k := row])
  {
    assert t[k := t[k]] == t;
    WriteKeepsForestIff(t, k, t[k]);
    WriteKeepsForestIff(t, k, row);
  }

  // ---- Every run ----

  lemma StepKeepsForest(t: Table, tracks: bool, op: Op)
    requires Forest(t) && Disciplined(op)
    ensures Forest(Apply(t, tracks, op))
  {
    hide Forest;
    var u := Apply(t, tracks, op);
    if u != t {
      match op
      case Create(k, obj) =>
        CreateKeeps(t, k, BeforeCreate(obj));
      case Update(k, obj) =>
        var sent := Bumped(obj, if tracks then Some(t[k]) else None);
        CheckedWriteKeeps(t, k, sent);
      case PartialUpdate(k, v, p) =>
        SameColumnsKeep(t, k, Patched(t[k], v, p));
      case Delete(k, now) =>
        if t[k].finalizers != [] {
          SameColumnsKeep(t, k, t[k].(deletionTimestamp := Some(now)));
        } else {
          SoftDeleteKeepsForestIff(t, k, t[k].(deletedAt := Some(now)));
        }
      case UpdateStatus(k, s) =>
        SameColumnsKeep(t, k, t[k].(status := s));
    }
  }

  lemma CreateKeeps(t: Table, k: Key, row: Row)
    requires Forest(t) && k !in t && ParentCheck(t, k, row) == Done
    ensures Forest(t[k := row])
  {
    if row.deletedAt == None {
      CheckedWriteKeeps(t, k, row);
    } else {
      var u := t[k := row];
      OtherRows(t, k, row);
      forall x | Live(u, x) ensures Ends(u, x.org, x.name) {
        if x.org == k.org {
          ParentEnds(u, k.org, k.name);
          ReachingEnds(t, u, k.org, k.name, x.name);
        } else {
          OtherOrgEnds(t, k, row, x.org, x.name);
        }
      }
    }
  }

  /** In every run of disciplined operations the parents form a forest. */
  lemma {:induction false} RunKeepsForest(t: Table, tracks: bool, ops: seq<Op>)
    requires Forest(t)
    requires forall op :: op in ops ==> Disciplined(op)
    ensures Forest(Run(t, tracks, ops))
  {
    if ops != [] {
      RunKeepsForest(t, tracks, ops[..|ops| - 1]);
      StepKeepsForest(Run(t, tracks, ops[..|ops| - 1]), tracks, ops[|ops| - 1]);
    }
  }

  /** The chain of `k` has exactly `n` further names and the last one is a live root. */
  ghost predicate RootAt(t: Table, k: Key, n: nat) {
    && Chain(t, k.org, k.name, n).Some? && Chain(t, k.org, k.name, n + 1) == None
    && var root := Key(k.org, Chain(t, k.org, k.name, n).value);
       Live(t, root) && !IsParent(t[root].parent)
  }

  /** From an empty table: no cycle ever, and every chain ends at a live root. */
  lemma HierarchyHolds(tracks: bool, ops: seq<Op>, k: Key)
    requires forall op :: op in ops ==> Disciplined(op)
    requires Live(Run(map[], tracks, ops), k) && k.name != ""
    ensures !Loops(Run(map[], tracks, ops), k.org, k.name)
    ensures exists n :: RootAt(Run(map[], tracks, ops), k, n)
  {
    RunKeepsForest(map[], tracks, ops);
    ForestRoots(Run(map[], tracks, ops), k);
  }

  lemma ForestRoots(t: Table, k: Key)
    requires Forest(t) && Live(t, k) && k.name != ""
    ensures !Loops(t, k.org, k.name)
    ensures exists n :: RootAt(t, k, n)
  {
    hide Chain;
    EndsMeansNoLoop(t, k.org, k.name);
    var m: nat :| Chain(t, k.org, k.name, m) == None;
    var n := FirstEnd(t, k.org, k.name, m);
    ChainStart(t, k.org, k.name);
    ChainLive(t, k, n - 1);
    ChainStep(t, k.org, k.name, n - 1, Chain(t, k.org, k.name, n - 1).value);
    assert RootAt(t, k, n - 1);
  }

  lemma {:induction false} ChainLive(t: Table, k: Key, i: nat)
    requires Forest(t) && Live(t, k) && Chain(t, k.org, k.name, i).Some?
    ensures Live(t, Key(k.org, Chain(t, k.org, k.name, i).value))
  {
    if i > 0 {
      ChainLive(t, k, i - 1);
    }
  }

  // ---- Where the check does not reach ----

  const ROOT := Row(None, [], 1, 1, None, "", "", None, None)
  const NO_CHANGE := Patch(None, None, None, None, None, None, None, None)

  /** PartialUpdate does not check parents: one call makes a row its own parent. */
  lemma UncheckedPatchMakesCycle(k: Key)
    requires k.name != ""
    ensures var t := map[k := ROOT];
      && Forest(t)
      && !Forest(Apply(t, true, PartialUpdate(k, 1, NO_CHANGE.(parent := Some(Some(k.name))))))
  {
    var t := map[k := ROOT];
    var row := Patched(ROOT, 1, NO_CHANGE.(parent := Some(Some(k.name))));
    assert forall x :: Live(t, x) ==> x == k;
    ParentEnds(t, k.org, k.name);
    WriteKeepsForestIff(t, k, row);
  }

  /** The check and the write are separate statements: two re-parentings that both pass their
      checks on the same table leave a cycle once both have written. */
  lemma CrossingChecksMakeCycle(org: OrgId)
    ensures
      var a, b := Key(org, "a"), Key(org, "b");
      var t := map[a := ROOT, b := ROOT];
      var rowA, rowB := ROOT.(parent := Some("b")), ROOT.(parent := Some("a"));
      && Forest(t)
      && ParentCheck(t, a, rowA) == Done && ParentCheck(t, b, rowB) == Done
      && UpdateWhere(t, a, 1, Bumped(rowA, None)).hit
      && UpdateWhere(UpdateWhere(t, a, 1, Bumped(rowA, None)).table, b, 1, Bumped(rowB, None)).hit
      && !Forest(UpdateWhere(UpdateWhere(t, a, 1, Bumped(rowA, None)).table, b, 1, Bumped(rowB, None)).table)
  {
    var a, b := Key(org, "a"), Key(org, "b");
    var t := map[a := ROOT, b := ROOT];
    var rowA, rowB := Bumped(ROOT.(parent := Some("b")), None), Bumped(ROOT.(parent := Some("a")), None);
    assert forall x :: Live(t, x) ==> x == a || x == b;
    ParentEnds(t, org, "a");
    ParentEnds(t, org, "b");
    assert Forest(t);
    var u := t[a := rowA];
    RootsReachNothing(t, org, "b", "a");
    RootsReachNothing(t, org, "a", "b");
    WriteKeepsForestIff(t, a, rowA);
    WriteKeepsForestIff(u, b, rowB);
    ChainStart(u, org, "a");
    ChainStep(u, org, "a", 0, "a");
    assert Reaches(u, org, "a", "b");
  }

  lemma RootsReachNothing(t: Table, org: OrgId, name: string, other: string)
    requires ParentOf(t, org, name) == None && name != other && name != ""
    ensures !Reaches(t, org, name, other) && !Loops(t, org, name)
  {
    ChainStart(t, org, name);
    ChainStep(t, org, name, 0, name);
    ParentEnds(t, org, name);
    EndsMeansNoLoop(t, org, name);
    forall k: nat ensures Chain(t, org, name, k) != Some(other) {
      if k >= 1 && Chain(t, org, name, k).Some? {
        ChainPrefix(t, org, name, 1, k);
        assert false;
      }
    }
  }

  // ---- Frame ----

  lemma StepTouchesOneRow(t: Table, tracks: bool, op: Op, k: Key)
    requires op.key != k
    ensures k in Apply(t, tracks, op) <==> k in t
    ensures k in t ==> Apply(t, tracks, op)[k] == t[k]
  {
    hide ParentCheck, Parented, Wrap64;
  }

  /** No operation touches a row other than the one it names, of any organisation. */
  lemma {:induction false} OtherRowsUntouched(t: Table, tracks: bool, ops: seq<Op>, k: Key)
    requires forall op :: op in ops ==> op.key != k
    ensures k in Run(t, tracks, ops) <==> k in t
    ensures k in t ==> Run(t, tracks, ops)[k] == t[k]
  {
    hide Apply;
    if ops != [] {
      OtherRowsUntouched(t, tracks, ops[..|ops| - 1], k);
      assert ops[|ops| - 1] in ops;
      StepTouchesOneRow(Run(t, tracks, ops[..|ops| - 1]), tracks, ops[|ops| - 1], k);
    }
  }

  // ---- Deletion ----

  /** A row becomes soft-deleted only by a Delete that finds no finalizers and no children. */
  lemma DeletedOnlyWhenFree(t: Table, tracks: bool, op: Op, k: Key)
    requires Disciplined(op) && Live(t, k) && !Live(Apply(t, tracks, op), k)
    ensures op.Delete? && op.key == k && t[k].finalizers == [] && !Parented(t, k)
  {
  }

  lemma DeletedStep(t: Table, tracks: bool, op: Op, k: Key)
    requires k in t && !Live(t, k)
    ensures k in Apply(t, tracks, op) && Apply(t, tracks, op)[k] == t[k]
  {
    hide ParentCheck, Parented, Wrap64;
  }

  /** Whatever operations follow, disciplined or not, a soft-deleted row never changes. */
  lemma {:induction false} DeletedStaysDeleted(t: Table, tracks: bool, ops: seq<Op>, k: Key)
    requires k in t && !Live(t, k)
    ensures k in Run(t, tracks, ops) && Run(t, tracks, ops)[k] == t[k]
  {
    hide Apply;
    if ops != [] {
      DeletedStaysDeleted(t, tracks, ops[..|ops| - 1], k);
      DeletedStep(Run(t, tracks, ops[..|ops| - 1]), tracks, ops[|ops| - 1], k);
    }
  }

  /** So its key is never created again and never found again. */
  lemma DeletedKeyIsGone(t: Table, tracks: bool, ops: seq<Op>, k: Key, obj: Row)
    requires k in t && !Live(t, k)
    ensures var u := Run(t, tracks, ops);
      && !Live(u, k)
      && CreateOp(u, k, obj).status != Done && CreateOp(u, k, obj).table == u
      && UpdateOp(u, tracks, k, obj).status != Done && UpdateOp(u, tracks, k, obj).table == u
  {
    DeletedStaysDeleted(t, tracks, ops, k);
  }
}
