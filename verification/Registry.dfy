/** Provider registration, dependency resolution by depth-first search, and the start and stop
    orders that follow from it. */
module Registry {
  import opened Common

  datatype Provider = Provider(name: string, features: seq<string>, dependencies: seq<string>)

  type Providers = map<string, Provider>

  // ---- What resolution is about ----

  predicate DependsOn(ps: Providers, a: string, b: string) {
    a in ps && b in ps[a].dependencies
  }

  ghost predicate AllRegistered(ps: Providers) {
    forall a, b :: DependsOn(ps, a, b) ==> b in ps
  }

  /** Each name depends on the next one. */
  ghost predicate Path(ps: Providers, p: seq<string>) {
    forall i :: 0 <= i < |p| - 1 ==> DependsOn(ps, p[i], p[i + 1])
  }

  ghost predicate Cyclic(ps: Providers) {
    exists p :: |p| >= 2 && Path(ps, p) && p[0] == p[|p| - 1]
  }

  ghost predicate Resolvable(ps: Providers) {
    AllRegistered(ps) && !Cyclic(ps)
  }

  /** Every dependency of a listed name is listed before it. */
  ghost predicate DependenciesFirst(ps: Providers, order: seq<string>) {
    forall i, d :: 0 <= i < |order| && DependsOn(ps, order[i], d) ==> d in order[..i]
  }

  /** Each registered provider once, dependencies first. */
  ghost predicate InitOrder(ps: Providers, order: seq<string>) {
    Distinct(order) && (forall n :: n in order <==> n in ps) && DependenciesFirst(ps, order)
  }

  lemma {:induction false} PathDescends(ps: Providers, order: seq<string>, p: seq<string>, i: nat, j: nat)
    requires DependenciesFirst(ps, order) && Path(ps, p)
    requires i < |order| && 0 < j < |p| && p[0] == order[i]
    ensures p[j] in order[..i]
  {
    if j == 1 {
      assert DependsOn(ps, p[0], p[1]);
    } else {
      PathDescends(ps, order, p, i, j - 1);
      var k :| 0 <= k < i && order[k] == p[j - 1];
      assert DependsOn(ps, p[j - 1], p[j]);
      assert p[j] in order[..k];
    }
  }

  /** An initialisation order exists only for resolvable providers. */
  lemma OrderMeansResolvable(ps: Providers, order: seq<string>)
    requires InitOrder(ps, order)
    ensures Resolvable(ps)
  {
    forall a, b | DependsOn(ps, a, b) ensures b in ps {
      var i :| 0 <= i < |order| && order[i] == a;
      assert b in order[..i];
    }
    forall p | |p| >= 2 && Path(ps, p) ensures p[0] != p[|p| - 1] {
      assert DependsOn(ps, p[0], p[1]);
      var i :| 0 <= i < |order| && order[i] == p[0];
      PathDescends(ps, order, p, i, |p| - 1);
    }
  }

  /** Every dependency of the provider is listed. */
  predicate ListedAll(ps: Providers, name: string, order: seq<string>) {
    name in ps && forall d :: d in ps[name].dependencies ==> d in order
  }

  // ---- Depth-first search ----

  datatype Failure = Circular(name: string) | Missing(name: string)

  /** Following dependencies leads from `n` back to it. */
  ghost predicate OnCycle(ps: Providers, n: string) {
    exists p :: |p| >= 2 && Path(ps, p) && p[0] == n && p[|p| - 1] == n
  }

  /** The failure is true of the providers: a missing name is not registered and is what was asked
      for or some provider's dependency; a circular one lies on a cycle. */
  ghost predicate Explains(ps: Providers, name: string, f: Failure) {
    match f
    case Missing(d) => d !in ps && (d == name || exists a :: DependsOn(ps, a, d))
    case Circular(n) => OnCycle(ps, n)
  }

  /** The state of one resolution: 1 marks a provider in progress, 2 a finished one. */
  class Resolver {
    const providers: Providers
    var visited: map<string, int>
    var order: seq<string>

    constructor (providers: Providers)
      ensures this.providers == providers && visited == map[] && order == [] && Valid([])
    {
      this.providers, this.visited, this.order := providers, map[], [];
    }

    /** `stack` is the path of providers in progress, outermost first. */
    ghost predicate Valid(stack: seq<string>)
      reads this
    {
      && (forall n :: n in visited ==> visited[n] == 1 || visited[n] == 2)
      && (forall n :: n in visited && visited[n] == 1 <==> n in stack)
      && (forall n :: n in visited && visited[n] == 2 <==> n in order)
      && (forall n :: n in order ==> n in providers)
      && Distinct(order) && DependenciesFirst(providers, order)
      && Path(providers, stack)
    }

    method Visit(name: string, ghost stack: seq<string>) returns (failure: Option<Failure>)
      requires Valid(stack)
      requires stack != [] ==> DependsOn(providers, stack[|stack| - 1], name)
      modifies this
      ensures failure == None ==>
        Valid(stack) && name in order && old(order) <= order && old(visited.Keys) <= visited.Keys
      ensures failure.Some? ==> name !in providers || !Resolvable(providers)
      ensures failure.Some? ==> Explains(providers, name, failure.value)
      ensures name in old(order) ==> failure == None && order == old(order)
      ensures failure == None && name !in old(order) && ListedAll(providers, name, old(order)) ==>
        order == old(order) + [name]
      decreases providers.Keys - visited.Keys
    {
      hide Path, DependenciesFirst, Distinct, Resolvable, OnCycle;
      if name in visited && visited[name] == 2 {
        return None;
      }
      if name in visited && visited[name] == 1 {
        CycleFound(providers, stack, name);
        return Some(Circular(name));
      }
      Begin(name, stack);
      if name !in providers {
        return Some(Missing(name));
      }
      var dependencies := providers[name].dependencies;
      ghost var deeper := stack + [name];
      for i := 0 to |dependencies|
        invariant Valid(deeper)
        invariant old(order) <= order && old(visited.Keys) + {name} <= visited.Keys
        invariant forall j :: 0 <= j < i ==> dependencies[j] in order
        invariant ListedAll(providers, name, old(order)) ==> order == old(order)
      {
        var dep := dependencies[i];
        assert DependsOn(providers, name, dep);
        if dep !in providers {
          MissingFound(providers, name, dep);
          return Some(Missing(dep));
        }
        var inner := Visit(dep, deeper);
        if inner.Some? {
          return inner;
        }
      }
      Finish(name, stack);
      return None;
    }

    /** Marks a provider in progress. */
    method Begin(name: string, ghost stack: seq<string>)
      requires Valid(stack) && name !in visited
      requires stack != [] ==> DependsOn(providers, stack[|stack| - 1], name)
      modifies this`visited
      ensures Valid(stack + [name]) && name !in stack && visited == old(visited)[name := 1]
    {
      hide Path, DependenciesFirst, Distinct;
      PathGrows(providers, stack, name);
      visited := visited[name := 1];
    }

    /** Marks the innermost provider finished and lists it. */
    method Finish(name: string, ghost stack: seq<string>)
      requires Valid(stack + [name]) && name !in stack && name in providers
      requires forall d :: d in providers[name].dependencies ==> d in order
      modifies this
      ensures Valid(stack) && order == old(order) + [name] && visited == old(visited)[name := 2]
    {
      assert name in stack + [name];
      assert forall n :: n in stack + [name] <==> n in stack || n == name;
      visited := visited[name := 2];
      order := order + [name];
      assert Path(providers, stack) by {
        forall i | 0 <= i < |stack| - 1 ensures DependsOn(providers, stack[i], stack[i + 1]) {
          assert stack[i] == (stack + [name])[i] && stack[i + 1] == (stack + [name])[i + 1];
        }
      }
      assert order[..|old(order)|] == old(order);
      forall i, d | 0 <= i < |order| && DependsOn(providers, order[i], d) ensures d in order[..i] {
        if i < |old(order)| {
          assert order[..i] == old(order)[..i] && order[i] == old(order)[i];
        }
      }
    }
  }

  lemma PathGrows(ps: Providers, stack: seq<string>, name: string)
    requires Path(ps, stack) && (stack != [] ==> DependsOn(ps, stack[|stack| - 1], name))
    ensures Path(ps, stack + [name])
  {
    var p := stack + [name];
    forall i | 0 <= i < |p| - 1 ensures DependsOn(ps, p[i], p[i + 1]) {
      if i < |stack| - 1 {
        assert p[i] == stack[i] && p[i + 1] == stack[i + 1];
      }
    }
  }

  /** Meeting a provider in progress closes a cycle along the stack. */
  lemma CycleFound(ps: Providers, stack: seq<string>, name: string)
    requires Path(ps, stack) && name in stack && DependsOn(ps, stack[|stack| - 1], name)
    ensures !Resolvable(ps) && OnCycle(ps, name)
  {
    PathGrows(ps, stack, name);
    var i :| 0 <= i < |stack| && stack[i] == name;
    var p := (stack + [name])[i..];
    forall j | 0 <= j < |p| - 1 ensures DependsOn(ps, p[j], p[j + 1]) {
      assert p[j] == (stack + [name])[i + j] && p[j + 1] == (stack + [name])[i + j + 1];
    }
    assert Path(ps, p) && p[0] == p[|p| - 1];
  }

  lemma MissingFound(ps: Providers, name: string, dep: string)
    requires DependsOn(ps, name, dep) && dep !in ps
    ensures !Resolvable(ps)
  {
  }

  // ---- Features ----

  /** The feature map after listing `fs` for `name`, and whether all of them were free. */
  function Listed(features: map<string, string>, fs: seq<string>, name: string): (map<string, string>, bool)
    decreases fs
  {
    if fs == [] then (features, true)
    else if fs[0] in features then (features, false)
    else Listed(features[fs[0] := name], fs[1..], name)
  }

  /** No feature changes hands, and on success every listed one belongs to the provider. */
  lemma {:induction false} ListedKeeps(features: map<string, string>, fs: seq<string>, name: string)
    ensures var (m, ok) := Listed(features, fs, name);
      && (forall f :: f in features ==> f in m && m[f] == features[f])
      && (forall f :: f in m && f !in features ==> m[f] == name && f in fs)
      && (ok ==> forall f :: f in fs ==> f in m && f !in features && m[f] == name)
      && (ok <==> Distinct(fs) && forall f :: f in fs ==> f !in features)
    decreases fs
  {
    if fs != [] && fs[0] !in features {
      ListedKeeps(features[fs[0] := name], fs[1..], name);
      assert fs == [fs[0]] + fs[1..];
      assert Distinct(fs) <==> Distinct(fs[1..]) && fs[0] !in fs[1..] by { DistinctCons(fs); }
    } else if fs != [] {
      assert fs[0] in fs;
    }
  }

  lemma DistinctCons(fs: seq<string>)
    requires fs != []
    ensures Distinct(fs) <==> Distinct(fs[1..]) && fs[0] !in fs[1..]
  {
    if Distinct(fs) {
      assert forall i, j :: 0 <= i < j < |fs[1..]| ==> fs[1..][i] == fs[i + 1] && fs[1..][j] == fs[j + 1];
      assert forall j :: 0 <= j < |fs[1..]| ==> fs[1..][j] == fs[j + 1] != fs[0];
    } else {
      var i, j :| 0 <= i < j < |fs| && fs[i] == fs[j];
      assert fs[j] == fs[1..][j - 1];
      assert i > 0 ==> fs[i] == fs[1..][i - 1];
    }
  }

  // ---- The registry ----

  /** Every feature belongs to a registered provider that lists it. */
  ghost predicate FeaturesOk(ps: Providers, features: map<string, string>) {
    forall f :: f in features ==> features[f] in ps && f in ps[features[f]].features
  }

  lemma RegisterKeepsFeatures(ps: Providers, features: map<string, string>, p: Provider)
    ensures FeaturesOk(ps, features) && p.name !in ps ==>
      FeaturesOk(ps[p.name := p], Listed(features, p.features, p.name).0)
  {
    hide Listed;
    ListedKeeps(features, p.features, p.name);
  }

  class Registry {
    var providers: Providers
    var features: map<string, string>
    var order: seq<string>

    constructor ()
      ensures providers == map[] && features == map[] && order == []
    {
      providers, features, order := map[], map[], [];
    }

    /** A feature conflict leaves the provider registered with the features before it. Every feature
        still belongs to a registered provider that lists it. */
    method Register(p: Provider) returns (ok: bool)
      modifies this`providers, this`features
      ensures p.name in old(providers) ==> !ok && providers == old(providers) && features == old(features)
      ensures p.name !in old(providers) ==>
        && providers == old(providers)[p.name := p]
        && (features, ok) == Listed(old(features), p.features, p.name)
      ensures FeaturesOk(old(providers), old(features)) ==> FeaturesOk(providers, features)
    {
      RegisterKeepsFeatures(providers, features, p);
      if p.name in providers {
        return false;
      }
      providers := providers[p.name := p];
      for i := 0 to |p.features|
        invariant providers == old(providers)[p.name := p]
        invariant Listed(old(features), p.features, p.name) == Listed(features, p.features[i..], p.name)
      {
        var f := p.features[i];
        assert p.features[i..][0] == f && p.features[i..][1..] == p.features[i + 1..];
        if f in features {
          return false;
        }
        features := features[f := p.name];
      }
      return true;
    }

    /** Succeeds exactly on resolvable providers, whatever order `walk` the map is walked in, and
        then leaves an initialisation order; a failure leaves the old one. Walking the map in an
        initialisation order leaves that very order. */
    method ResolveDependencies(walk: seq<string>) returns (failure: Option<Failure>)
      requires Walk(providers, walk)
      modifies this`order
      ensures failure == None <==> Resolvable(providers)
      ensures failure == None ==> InitOrder(providers, order)
      ensures failure.Some? ==> order == old(order)
      ensures InitOrder(providers, walk) ==> order == walk
      ensures failure.Some? ==>
        match failure.value
        case Missing(d) => d !in providers && exists a :: DependsOn(providers, a, d)
        case Circular(n) => OnCycle(providers, n)
    {
      hide Resolvable, InitOrder, Walk, DependenciesFirst, Distinct, Path, ListedAll, OnCycle, DependsOn;
      var search := new Resolver(providers);
      for i := 0 to |walk|
        invariant search.providers == providers && fresh(search) && search.Valid([])
        invariant forall j :: 0 <= j < i ==> walk[j] in search.order
        invariant InitOrder(providers, walk) ==> search.order == walk[..i]
        invariant order == old(order)
      {
        WalkReady(providers, walk, i);
        var failed := search.Visit(walk[i], []);
        if failed.Some? {
          return failed;
        }
      }
      order := search.order;
      assert walk[..|walk|] == walk;
      WalkComplete(search, walk);
      OrderMeansResolvable(providers, order);
      return None;
    }

    /** Calls Init along the order until one of `failing` fails; `calls` is what was called. A
        missing order is resolved first, walking the map as `walk`. */
    method InitAll(walk: seq<string>, failing: set<string>) returns (calls: seq<string>, ok: bool)
      requires Walk(providers, walk)
      modifies this`order
      ensures old(order) != [] ==> order == old(order)
      ensures old(order) == [] && !Resolvable(providers) ==> !ok && calls == []
      ensures old(order) == [] && Resolvable(providers) ==> InitOrder(providers, order)
      ensures old(order) != [] || Resolvable(providers) ==>
        && calls <= order
        && (ok <==> forall n :: n in order ==> n !in failing)
        && (ok ==> calls == order)
        && (forall i :: 0 <= i < |calls| - 1 ==> calls[i] !in failing)
        && (!ok ==> calls != [] && calls[|calls| - 1] in failing)
      ensures old(order) == [] || InitOrder(providers, old(order)) ==> DependenciesFirst(providers, calls)
    {
      hide Resolvable, InitOrder, DependenciesFirst;
      if order == [] {
        NothingFirst(providers);
        var failure := ResolveDependencies(walk);
        if failure.Some? {
          return [], false;
        }
      }
      calls := [];
      assert old(order) == [] ==> InitOrder(providers, order);
      for i := 0 to |order|
        invariant calls == order[..i]
        invariant forall j :: 0 <= j < i ==> order[j] !in failing
      {
        calls := calls + [order[i]];
        assert calls == order[..i + 1];
        if order[i] in failing {
          PrefixFirst(providers, order, i + 1);
          return calls, false;
        }
      }
      PrefixFirst(providers, order, |order|);
      return calls, true;
    }

    /** Calls Shutdown along the reversed order until one of `failing` fails. */
    method ShutdownAll(failing: set<string>) returns (calls: seq<string>, ok: bool)
      ensures calls <= Reversed(order)
      ensures ok <==> forall n :: n in order ==> n !in failing
      ensures ok ==> calls == Reversed(order)
      ensures !ok ==> calls != [] && calls[|calls| - 1] in failing
      ensures forall i :: 0 <= i < |calls| - 1 ==> calls[i] !in failing
      ensures InitOrder(providers, order) ==> DependentsFirst(providers, calls)
    {
      calls := [];
      var i := |order| - 1;
      while i >= 0
        invariant -1 <= i < |order|
        invariant calls == Reversed(order)[..|order| - 1 - i]
        invariant forall j :: i < j < |order| ==> order[j] !in failing
      {
        calls := calls + [order[i]];
        if order[i] in failing {
          ReverseStops(providers, order, calls);
          return calls, false;
        }
        i := i - 1;
      }
      ReverseStops(providers, order, calls);
      return calls, true;
    }
  }

  /** An order in which a map of providers can be walked. */
  ghost predicate Walk(ps: Providers, walk: seq<string>) {
    Distinct(walk) && forall n :: n in walk <==> n in ps
  }

  /** Along an initialisation order each provider finds its dependencies listed, and not itself. */
  lemma WalkReady(ps: Providers, walk: seq<string>, i: nat)
    requires i < |walk| && Walk(ps, walk)
    ensures walk[i] in ps && (InitOrder(ps, walk) ==> Resolvable(ps))
    ensures walk[..i + 1] == walk[..i] + [walk[i]]
    ensures InitOrder(ps, walk) ==> ListedAll(ps, walk[i], walk[..i]) && walk[i] !in walk[..i]
  {
    if InitOrder(ps, walk) {
      OrderMeansResolvable(ps, walk);
      forall d | d in ps[walk[i]].dependencies ensures d in walk[..i] {
        assert DependsOn(ps, walk[i], d);
      }
    }
  }

  /** Once every walked provider is listed, the list is an initialisation order. */
  lemma WalkComplete(search: Resolver, walk: seq<string>)
    requires search.Valid([]) && Walk(search.providers, walk)
    requires forall j :: 0 <= j < |walk| ==> walk[j] in search.order
    ensures InitOrder(search.providers, search.order)
  {
  }

  lemma NothingFirst(ps: Providers)
    ensures DependenciesFirst(ps, [])
  {
  }

  lemma PrefixFirst(ps: Providers, order: seq<string>, n: nat)
    requires n <= |order|
    ensures InitOrder(ps, order) ==> DependenciesFirst(ps, order[..n])
  {
    if InitOrder(ps, order) {
      forall i, d | 0 <= i < n && DependsOn(ps, order[..n][i], d) ensures d in order[..n][..i] {
        assert order[..n][..i] == order[..i] && order[..n][i] == order[i];
      }
    }
  }

  function Reversed(s: seq<string>): (r: seq<string>)
    ensures |r| == |s|
  {
    seq(|s|, i requires 0 <= i < |s| => s[|s| - 1 - i])
  }

  /** Every provider that depends on a listed name is listed before it. */
  ghost predicate DependentsFirst(ps: Providers, calls: seq<string>) {
    forall i, n :: 0 <= i < |calls| && DependsOn(ps, n, calls[i]) ==> n in calls[..i]
  }

  /** Stopping in reverse never stops a provider before one that depends on it. */
  lemma ReverseStops(ps: Providers, order: seq<string>, calls: seq<string>)
    requires calls <= Reversed(order)
    ensures InitOrder(ps, order) ==> DependentsFirst(ps, calls)
  {
    if InitOrder(ps, order) {
      forall i, n | 0 <= i < |calls| && DependsOn(ps, n, calls[i]) ensures n in calls[..i] {
        var last := |order| - 1;
        assert calls[i] == Reversed(order)[i] == order[last - i];
        var j :| 0 <= j < |order| && order[j] == n;
        assert calls[i] in order[..j];
        var k :| 0 <= k < j && order[k] == calls[i];
        assert k == last - i;
        assert calls[..i][last - j] == Reversed(order)[last - j] == n;
      }
    }
  }
}
