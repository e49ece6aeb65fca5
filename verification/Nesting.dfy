/** Parent references: the ancestor chain of a resource and the check that guards it. */
module Nesting {
  import opened Common
  import opened Resources

  /** A root has no parent or an empty one. */
  predicate IsParent(p: Option<string>) {
    p.Some? && p.value != ""
  }

  /** The parent named by a live row. */
  function ParentOf(t: Table, org: OrgId, name: string): Option<string> {
    if Live(t, Key(org, name)) && IsParent(t[Key(org, name)].parent) then t[Key(org, name)].parent
    else None
  }

  /** The `k`-th name on the chain that starts at `name` and follows parents, if it is that long. */
  function Chain(t: Table, org: OrgId, name: string, k: nat): Option<string> {
    if k == 0 then if name == "" then None else Some(name)
    else match Chain(t, org, name, k - 1)
      case None => None
      case Some(n) => ParentOf(t, org, n)
  }

  /** Every chain that reaches `k` steps has all the shorter ones. */
  lemma {:induction false} ChainPrefix(t: Table, org: OrgId, name: string, i: nat, k: nat)
    requires i <= k && Chain(t, org, name, k).Some?
    ensures Chain(t, org, name, i).Some?
  {
    if i < k {
      ChainPrefix(t, org, name, i, k - 1);
    }
  }

  lemma {:induction false} ChainNames(t: Table, org: OrgId, name: string, k: nat)
    ensures Chain(t, org, name, k).Some? ==> Chain(t, org, name, k).value != ""
  {
  }

  /** Chains compose: from the name at step `i`, `j` more steps are steps `i + j`. */
  lemma {:induction false} ChainFrom(t: Table, org: OrgId, name: string, i: nat, n: string, j: nat)
    requires Chain(t, org, name, i) == Some(n)
    ensures Chain(t, org, n, j) == Chain(t, org, name, i + j)
  {
    ChainNames(t, org, name, i);
    if j > 0 {
      ChainFrom(t, org, name, i, n, j - 1);
    }
  }

  /** Some name comes back. */
  ghost predicate Loops(t: Table, org: OrgId, name: string) {
    exists i: nat, j: nat ::
      i < j && Chain(t, org, name, i).Some? && Chain(t, org, name, i) == Chain(t, org, name, j)
  }

  ghost predicate Reaches(t: Table, org: OrgId, name: string, goal: string) {
    exists k: nat :: Chain(t, org, name, k) == Some(goal)
  }

  ghost predicate Ends(t: Table, org: OrgId, name: string) {
    exists k: nat :: Chain(t, org, name, k) == None
  }

  /** A chain that ends after exactly `n` names repeats none of them. */
  lemma EndsNoRepeat(t: Table, org: OrgId, name: string, n: nat, i: nat, j: nat)
    requires Chain(t, org, name, n) == None
    requires i < j && Chain(t, org, name, i).Some?
    requires n > 0 ==> Chain(t, org, name, n - 1).Some?
    ensures Chain(t, org, name, i) != Chain(t, org, name, j)
  {
    if j < n && Chain(t, org, name, i) == Chain(t, org, name, j) {
      var m := Chain(t, org, name, i).value;
      ChainFrom(t, org, name, i, m, n - j);
      ChainFrom(t, org, name, j, m, n - j);
      ChainPrefix(t, org, name, i + (n - j), n - 1);
      assert false;
    } else if n <= j && Chain(t, org, name, j).Some? {
      ChainPrefix(t, org, name, n, j);
      assert false;
    }
  }

  lemma {:induction false} FirstEnd(t: Table, org: OrgId, name: string, k: nat) returns (n: nat)
    requires Chain(t, org, name, k) == None
    ensures n <= k && Chain(t, org, name, n) == None
    ensures n > 0 ==> Chain(t, org, name, n - 1).Some?
  {
    if k == 0 || Chain(t, org, name, k - 1).Some? {
      n := k;
    } else {
      n := FirstEnd(t, org, name, k - 1);
    }
  }

  lemma EndsMeansNoLoop(t: Table, org: OrgId, name: string)
    requires Ends(t, org, name)
    ensures !Loops(t, org, name)
  {
    var k: nat :| Chain(t, org, name, k) == None;
    var n := FirstEnd(t, org, name, k);
    forall i: nat, j: nat | i < j && Chain(t, org, name, i).Some?
      ensures Chain(t, org, name, i) != Chain(t, org, name, j)
    {
      EndsNoRepeat(t, org, name, n, i, j);
    }
  }

  /** On a finite table every chain ends or loops, and not both. */
  lemma EndsXorLoops(t: Table, org: OrgId, name: string)
    ensures Ends(t, org, name) <==> !Loops(t, org, name)
  {
    WalkOn(t, org, name, []);
    if Ends(t, org, name) {
      EndsMeansNoLoop(t, org, name);
    }
  }

  lemma {:induction false} WalkOn(t: Table, org: OrgId, start: string, trail: seq<string>)
    requires Trail(t, org, start, trail)
    requires forall n :: n in trail ==> n in LiveNames(t, org)
    ensures Ends(t, org, start) || Loops(t, org, start)
    decreases LiveNames(t, org) - set n | n in trail
  {
    hide Chain;
    var next := Chain(t, org, start, |trail|);
    if next.Some? {
      var n := next.value;
      ChainStep(t, org, start, |trail|, n);
      if n in trail {
        var i :| 0 <= i < |trail| && trail[i] == n;
        assert Chain(t, org, start, i) == next;
      } else if Live(t, Key(org, n)) {
        assert Key(org, n).name in LiveNames(t, org);
        TrailGrows(t, org, start, trail, n);
        WalkOn(t, org, start, trail + [n]);
      } else {
        assert Chain(t, org, start, |trail| + 1) == None;
      }
    }
  }

  datatype Verdict = Accepted | ParentNotFound | Circular

  /** What the parent check decides, said without walking: the parent is a live row of the
      same organisation whose chain neither comes back to the resource nor repeats. */
  ghost function ParentVerdict(t: Table, org: OrgId, name: string, parent: string): Verdict {
    if parent == name then Circular
    else if !Live(t, Key(org, parent)) then ParentNotFound
    else if Reaches(t, org, parent, name) || Loops(t, org, parent) then Circular
    else Accepted
  }

  ghost function LiveNames(t: Table, org: OrgId): set<string> {
    set k | k in t && k.org == org && t[k].deletedAt.None? :: k.name
  }

  /** Walks the ancestor chain with a visited set; ends on every table, cyclic ones included. */
  method ValidateParent(t: Table, org: OrgId, name: string, parentName: string) returns (v: Verdict)
    ensures v == ParentNotFound <==>
      parentName != name && !(Key(org, parentName) in t && t[Key(org, parentName)].deletedAt.None?)
    ensures v == Circular <==>
      parentName == name || (v != ParentNotFound && (Reaches(t, org, parentName, name) || Loops(t, org, parentName)))
    ensures v == Accepted ==> Ends(t, org, parentName)
    ensures v == ParentVerdict(t, org, name, parentName)
  {
    if parentName == name {
      return Circular;
    }
    if !Live(t, Key(org, parentName)) {
      return ParentNotFound;
    }
    hide Chain;
    var visited := {name};
    var current := parentName;
    ghost var trail := [];
    ChainStart(t, org, parentName);
    while current != ""
      invariant Trail(t, org, parentName, trail)
      invariant Chain(t, org, parentName, |trail|) == if current == "" then None else Some(current)
      invariant name !in trail
      invariant visited == {name} + set x | x in trail
      decreases LiveNames(t, org) - visited
    {
      if current in visited {
        WalkStops(t, org, name, parentName, trail, current);
        return Circular;
      }
      visited := visited + {current};
      ChainStep(t, org, parentName, |trail|, current);
      TrailGrows(t, org, parentName, trail, current);
      trail := trail + [current];
      var k := Key(org, current);
      var parent := if Live(t, k) then t[k].parent else None;
      if parent == None {
        current := "";
        break;
      }
      assert current in LiveNames(t, org) by { assert k in t && k.name == current; }
      current := parent.value;
    }
    WalkEnds(t, org, name, parentName, trail);
    return Accepted;
  }

  /** The names a walk has passed, in order. */
  ghost predicate Trail(t: Table, org: OrgId, start: string, trail: seq<string>) {
    forall i :: 0 <= i < |trail| ==> Chain(t, org, start, i) == Some(trail[i])
  }

  lemma ChainStart(t: Table, org: OrgId, start: string)
    ensures Chain(t, org, start, 0) == if start == "" then None else Some(start)
  {
  }

  lemma ChainStep(t: Table, org: OrgId, start: string, k: nat, n: string)
    requires Chain(t, org, start, k) == Some(n)
    ensures Chain(t, org, start, k + 1) == ParentOf(t, org, n)
  {
  }

  lemma TrailGrows(t: Table, org: OrgId, start: string, trail: seq<string>, n: string)
    requires Trail(t, org, start, trail) && Chain(t, org, start, |trail|) == Some(n)
    ensures Trail(t, org, start, trail + [n])
    ensures (set x | x in trail + [n]) == (set x | x in trail) + {n}
  {
    hide Chain;
  }

  lemma WalkStops(t: Table, org: OrgId, name: string, parent: string, trail: seq<string>, current: string)
    requires parent != name && Live(t, Key(org, parent))
    requires Trail(t, org, parent, trail) && Chain(t, org, parent, |trail|) == Some(current)
    requires current == name || current in trail
    ensures ParentVerdict(t, org, name, parent) == Circular
  {
    hide Chain;
    if current != name {
      var i :| 0 <= i < |trail| && trail[i] == current;
      assert Chain(t, org, parent, i) == Some(current);
      assert Loops(t, org, parent);
    }
  }

  lemma WalkEnds(t: Table, org: OrgId, name: string, parent: string, trail: seq<string>)
    requires parent != name && Live(t, Key(org, parent))
    requires Trail(t, org, parent, trail) && Chain(t, org, parent, |trail|) == None
    requires name !in trail
    ensures ParentVerdict(t, org, name, parent) == Accepted && Ends(t, org, parent)
  {
    EndsMeansNoLoop(t, org, parent);
    forall k: nat ensures Chain(t, org, parent, k) != Some(name) {
      if |trail| <= k && Chain(t, org, parent, k).Some? {
        ChainPrefix(t, org, parent, |trail|, k);
        assert false;
      }
    }
  }

  /** Counts the rows that name `k` as parent. */
  method HasChildren(t: Table, k: Key) returns (r: bool)
    ensures r <==> Parented(t, k)
    ensures !r <==> forall c :: c in t && c.org == k.org && t[c].parent == Some(k.name) ==> t[c].deletedAt.Some?
  {
    var children := set c | c in t && t[c].deletedAt.None? && c.org == k.org && t[c].parent == Some(k.name);
    var count := |children|;
    if Parented(t, k) {
      var c :| Live(t, c) && c.org == k.org && t[c].parent == Some(k.name);
      assert c in children;
    } else {
      assert forall c :: c in children ==> Live(t, c);
      assert children == {};
    }
    return count > 0;
  }

  /** Some live row of the same organisation names `k` as its parent. */
  ghost predicate Parented(t: Table, k: Key) {
    exists c :: Live(t, c) && c.org == k.org && t[c].parent == Some(k.name)
  }
}
