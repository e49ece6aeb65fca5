/** Dependencies as the provider guide describes them, on features, against the registry, which
    resolves them as provider names. */
module Features {
  import opened Common
  import opened Registry

  type FeatureMap = map<string, string>

  /** Every dependency is an available feature. */
  ghost predicate Offered(ps: Providers, features: FeatureMap) {
    forall a, d :: DependsOn(ps, a, d) ==> d in features
  }

  /** `a` depends on a feature of `b`. */
  ghost predicate Needs(ps: Providers, features: FeatureMap, a: string, b: string) {
    exists d :: DependsOn(ps, a, d) && d in features && features[d] == b
  }

  ghost predicate NeedsPath(ps: Providers, features: FeatureMap, p: seq<string>) {
    forall i :: 0 <= i < |p| - 1 ==> Needs(ps, features, p[i], p[i + 1])
  }

  ghost predicate FeatureCyclic(ps: Providers, features: FeatureMap) {
    exists p :: |p| >= 2 && NeedsPath(ps, features, p) && p[0] == p[|p| - 1]
  }

  /** What the guide promises of an order: the providers of needed features come first. */
  ghost predicate FeaturesFirst(ps: Providers, features: FeatureMap, order: seq<string>)
    requires Offered(ps, features)
  {
    forall i, d :: 0 <= i < |order| && DependsOn(ps, order[i], d) ==> features[d] in order[..i]
  }

  /** Each dependency names a provider that offers a feature of its own name. */
  ghost predicate Eponymous(ps: Providers, features: FeatureMap) {
    forall a, d :: DependsOn(ps, a, d) ==> d in features && features[d] == d
  }

  // ---- The promise fails ----

  /** A dependency that is a feature but no provider's name is never resolved. */
  lemma FeatureNameFails(ps: Providers, features: FeatureMap, a: string, d: string)
    requires DependsOn(ps, a, d) && d in features && d !in ps
    ensures !Resolvable(ps)
  {
  }

  const NET := Provider("a", ["net"], [])
  const USER := Provider("b", [], ["net"])
  const EXAMPLE: Providers := map["a" := NET, "b" := USER]
  const EXAMPLE_FEATURES: FeatureMap := map["net" := "a"]

  /** `b` depends on the feature `net` of `a`: available and without a cycle, yet not resolved. */
  lemma AvailableButUnresolved()
    ensures Listed(map[], NET.features, "a") == (EXAMPLE_FEATURES, true)
    ensures Listed(EXAMPLE_FEATURES, USER.features, "b") == (EXAMPLE_FEATURES, true)
    ensures Offered(EXAMPLE, EXAMPLE_FEATURES) && !FeatureCyclic(EXAMPLE, EXAMPLE_FEATURES)
    ensures !Resolvable(EXAMPLE)
  {
    assert DependsOn(EXAMPLE, "b", "net") && "net" !in EXAMPLE;
    FeatureNameFails(EXAMPLE, EXAMPLE_FEATURES, "b", "net");
    forall p | |p| >= 2 && NeedsPath(EXAMPLE, EXAMPLE_FEATURES, p) ensures p[0] != p[|p| - 1] {
      assert Needs(EXAMPLE, EXAMPLE_FEATURES, p[0], p[1]);
      assert Needs(EXAMPLE, EXAMPLE_FEATURES, p[|p| - 2], p[|p| - 1]);
    }
  }

  const SHADOW: Providers := map["a" := NET, "b" := USER, "net" := Provider("net", [], [])]

  /** With another provider named `net`, resolution succeeds, and walking the map in this order
      leaves it: `b` before `a`, whose feature it needs. */
  lemma ShadowedFeatureComesLate()
    ensures FeaturesOk(SHADOW, EXAMPLE_FEATURES) && Offered(SHADOW, EXAMPLE_FEATURES)
    ensures InitOrder(SHADOW, ["net", "b", "a"]) && Resolvable(SHADOW)
    ensures !FeaturesFirst(SHADOW, EXAMPLE_FEATURES, ["net", "b", "a"])
  {
    var order := ["net", "b", "a"];
    assert order[..1] == ["net"];
    forall i, d | 0 <= i < |order| && DependsOn(SHADOW, order[i], d) ensures d in order[..i] {
      assert i == 1 && d == "net";
    }
    assert InitOrder(SHADOW, order);
    OrderMeansResolvable(SHADOW, order);
    assert DependsOn(SHADOW, order[1], "net") && EXAMPLE_FEATURES["net"] !in order[..1];
  }

  // ---- When it is kept ----

  lemma NeedsIsDependsOn(ps: Providers, features: FeatureMap, a: string, b: string)
    requires Eponymous(ps, features)
    ensures Needs(ps, features, a, b) <==> DependsOn(ps, a, b)
  {
    if DependsOn(ps, a, b) {
      assert features[b] == b;
    }
  }

  /** With dependencies on features named after their providers the registry keeps the guide's
      promise: it resolves exactly when the feature graph has no cycle, and puts the provider of
      every needed feature first. */
  lemma EponymousKeeps(ps: Providers, features: FeatureMap)
    requires FeaturesOk(ps, features) && Eponymous(ps, features)
    ensures Resolvable(ps) <==> !FeatureCyclic(ps, features)
    ensures forall order :: InitOrder(ps, order) ==> FeaturesFirst(ps, features, order)
  {
    forall p: seq<string> ensures NeedsPath(ps, features, p) <==> Path(ps, p) {
      forall i | 0 <= i < |p| - 1 ensures Needs(ps, features, p[i], p[i + 1]) <==> DependsOn(ps, p[i], p[i + 1]) {
        NeedsIsDependsOn(ps, features, p[i], p[i + 1]);
      }
    }
    assert Cyclic(ps) <==> FeatureCyclic(ps, features) by {
      if p :| |p| >= 2 && Path(ps, p) && p[0] == p[|p| - 1] {
        assert NeedsPath(ps, features, p);
      }
      if p :| |p| >= 2 && NeedsPath(ps, features, p) && p[0] == p[|p| - 1] {
        assert Path(ps, p);
      }
    }
    forall order | InitOrder(ps, order) ensures FeaturesFirst(ps, features, order) {
      forall i, d | 0 <= i < |order| && DependsOn(ps, order[i], d) ensures features[d] in order[..i] {
        assert features[d] == d;
      }
    }
  }

  // ---- Exactly when every order keeps it ----

  /** `b` lies below `a` along dependencies read as provider names. */
  ghost predicate Below(ps: Providers, a: string, b: string) {
    exists p :: |p| >= 2 && Path(ps, p) && p[0] == a && p[|p| - 1] == b
  }

  ghost predicate AtOrBelow(ps: Providers, a: string, x: string) {
    x == a || Below(ps, a, x)
  }

  lemma BelowExtends(ps: Providers, a: string, x: string, d: string)
    requires AtOrBelow(ps, a, x) && DependsOn(ps, x, d)
    ensures Below(ps, a, d)
  {
    if x == a {
      var p := [a, d];
      assert Path(ps, p) && p[0] == a && p[|p| - 1] == d;
    } else {
      var p :| |p| >= 2 && Path(ps, p) && p[0] == a && p[|p| - 1] == x;
      PathGrows(ps, p, d);
      var q := p + [d];
      assert |q| >= 2 && q[0] == a && q[|q| - 1] == d;
    }
  }

  /** The names of `order` that do or do not lie at or below `a`, in order. */
  ghost function Part(ps: Providers, order: seq<string>, a: string, below: bool): (part: seq<string>)
    ensures forall x :: x in part <==> x in order && (AtOrBelow(ps, a, x) <==> below)
  {
    if order == [] then []
    else
      var front, last := order[..|order| - 1], order[|order| - 1];
      Part(ps, front, a, below) + if AtOrBelow(ps, a, last) <==> below then [last] else []
  }

  lemma {:induction false} PartDistinct(ps: Providers, order: seq<string>, a: string, below: bool)
    requires Distinct(order)
    ensures Distinct(Part(ps, order, a, below))
  {
    hide AtOrBelow;
    if order != [] {
      PartDistinct(ps, order[..|order| - 1], a, below);
    }
  }

  lemma PartSnoc(ps: Providers, order: seq<string>, a: string, below: bool)
    requires order != []
    ensures var front, last := order[..|order| - 1], order[|order| - 1];
      Part(ps, order, a, below) == Part(ps, front, a, below) + if AtOrBelow(ps, a, last) <==> below then [last] else []
  {
  }

  /** `d` stands before every occurrence of `x`. */
  ghost predicate Precedes(order: seq<string>, d: string, x: string) {
    forall i :: 0 <= i < |order| && order[i] == x ==> d in order[..i]
  }

  lemma PrecedesFront(order: seq<string>, d: string, x: string)
    requires order != [] && Precedes(order, d, x)
    ensures Precedes(order[..|order| - 1], d, x)
    ensures order[|order| - 1] == x ==> d in order[..|order| - 1]
  {
    var front := order[..|order| - 1];
    forall i | 0 <= i < |front| && front[i] == x ensures d in front[..i] {
      assert order[..i] == front[..i];
    }
  }

  /** What stands before a name of the order stands before it in its part, when on the same side. */
  lemma {:induction false} PartKeepsOrder(ps: Providers, order: seq<string>, a: string, below: bool, j: nat, d: string)
    requires j < |Part(ps, order, a, below)| && Precedes(order, d, Part(ps, order, a, below)[j])
    requires AtOrBelow(ps, a, d) <==> below
    ensures d in Part(ps, order, a, below)[..j]
  {
    assert order != [];
    PartSnoc(ps, order, a, below);
    hide AtOrBelow, Part, Precedes;
    var front := order[..|order| - 1];
    var part, rest := Part(ps, order, a, below), Part(ps, front, a, below);
    PrecedesFront(order, d, part[j]);
    if j < |rest| {
      assert part[j] == rest[j] && part[..j] == rest[..j];
      PartKeepsOrder(ps, front, a, below, j, d);
    } else {
      assert part[..j] == rest;
    }
  }

  /** Everything at or below `a` first: again an order with dependencies first. */
  ghost function Regrouped(ps: Providers, order: seq<string>, a: string): seq<string> {
    Part(ps, order, a, true) + Part(ps, order, a, false)
  }

  lemma RegroupedIsOrder(ps: Providers, order: seq<string>, a: string)
    requires InitOrder(ps, order)
    ensures InitOrder(ps, Regrouped(ps, order, a))
  {
    hide AtOrBelow, Part;
    var low, high := Part(ps, order, a, true), Part(ps, order, a, false);
    PartDistinct(ps, order, a, true);
    PartDistinct(ps, order, a, false);
    var o := low + high;
    forall i, j | 0 <= i < j < |o| ensures o[i] != o[j] {
      if i < |low| <= j {
        assert o[i] in low && o[j] in high;
      }
    }
    forall i, d | 0 <= i < |o| && DependsOn(ps, o[i], d) ensures d in o[..i] {
      if i < |low| {
        assert o[i] in low;
        AtOrBelowDown(ps, a, o[i], d);
        EarlierDependency(ps, order, a, true, i, d);
        assert o[..i] == low[..i];
      } else {
        var j := i - |low|;
        assert o[i] == high[j] && high[j] in high;
        assert o[..i] == low + high[..j];
        HighDependency(ps, order, a, j, d);
      }
    }
  }

  lemma AtOrBelowDown(ps: Providers, a: string, x: string, d: string)
    requires AtOrBelow(ps, a, x) && DependsOn(ps, x, d)
    ensures AtOrBelow(ps, a, d)
  {
    BelowExtends(ps, a, x, d);
  }

  lemma EarlierDependency(ps: Providers, order: seq<string>, a: string, below: bool, j: nat, d: string)
    requires InitOrder(ps, order) && j < |Part(ps, order, a, below)| && (AtOrBelow(ps, a, d) <==> below)
    requires DependsOn(ps, Part(ps, order, a, below)[j], d)
    ensures d in Part(ps, order, a, below)[..j]
  {
    hide AtOrBelow, Part;
    assert Precedes(order, d, Part(ps, order, a, below)[j]);
    PartKeepsOrder(ps, order, a, below, j, d);
  }

  lemma HighDependency(ps: Providers, order: seq<string>, a: string, j: nat, d: string)
    requires InitOrder(ps, order) && j < |Part(ps, order, a, false)| && DependsOn(ps, Part(ps, order, a, false)[j], d)
    ensures d in Part(ps, order, a, true) || d in Part(ps, order, a, false)[..j]
  {
    hide AtOrBelow, Part;
    var high := Part(ps, order, a, false);
    assert high[j] in high;
    var i :| 0 <= i < |order| && order[i] == high[j];
    assert d in order[..i];
    if !AtOrBelow(ps, a, d) {
      EarlierDependency(ps, order, a, false, j, d);
    }
  }

  /** The guide's promise holds of every order with dependencies first, each of which some walk of
      the map leaves, exactly when each needed feature's provider lies below the one that needs it
      along the names. */
  lemma FeaturesFirstIff(ps: Providers, features: FeatureMap, order: seq<string>)
    requires Offered(ps, features) && InitOrder(ps, order)
    ensures (forall o :: InitOrder(ps, o) ==> FeaturesFirst(ps, features, o)) <==>
            forall a, d :: DependsOn(ps, a, d) ==> Below(ps, a, features[d])
  {
    hide InitOrder, Below;
    if forall a, d :: DependsOn(ps, a, d) ==> Below(ps, a, features[d]) {
      forall o | InitOrder(ps, o) ensures FeaturesFirst(ps, features, o) {
        BelowMeansFirst(ps, features, o);
      }
    }
    if forall o :: InitOrder(ps, o) ==> FeaturesFirst(ps, features, o) {
      forall a, d | DependsOn(ps, a, d) ensures Below(ps, a, features[d]) {
        RegroupedIsOrder(ps, order, a);
        FirstMeansBelow(ps, features, order, a, d);
      }
    }
  }

  lemma BelowMeansFirst(ps: Providers, features: FeatureMap, order: seq<string>)
    requires Offered(ps, features) && InitOrder(ps, order)
    requires forall a, d :: DependsOn(ps, a, d) ==> Below(ps, a, features[d])
    ensures FeaturesFirst(ps, features, order)
  {
    forall i, d | 0 <= i < |order| && DependsOn(ps, order[i], d) ensures features[d] in order[..i] {
      var p :| |p| >= 2 && Path(ps, p) && p[0] == order[i] && p[|p| - 1] == features[d];
      PathDescends(ps, order, p, i, |p| - 1);
    }
  }

  lemma FirstMeansBelow(ps: Providers, features: FeatureMap, order: seq<string>, a: string, d: string)
    requires Offered(ps, features) && InitOrder(ps, order) && DependsOn(ps, a, d)
    requires InitOrder(ps, Regrouped(ps, order, a)) && FeaturesFirst(ps, features, Regrouped(ps, order, a))
    ensures Below(ps, a, features[d])
  {
    hide Below, Part;
    var low := Part(ps, order, a, true);
    assert a in order && AtOrBelow(ps, a, a);
    var i :| 0 <= i < |low| && low[i] == a;
    var o := Regrouped(ps, order, a);
    assert o[i] == a && o[..i] == low[..i];
    var b := features[d];
    assert b in low[..i];
    assert b in low && b != a by {
      var j :| 0 <= j < i && low[j] == b;
      assert o[j] == b && Distinct(o);
    }
  }
}
