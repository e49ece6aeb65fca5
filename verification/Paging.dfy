/** Listing in pages: what one page holds and what following continue tokens collects. */
module Paging {
  import opened Common
  import opened Resources

  predicate IsLeast(s: set<string>, m: string) {
    m in s && forall x :: x in s ==> NameLeq(m, x)
  }

  lemma {:induction false} LeastExists(s: set<string>)
    requires s != {}
    ensures exists m :: IsLeast(s, m)
  {
    var x :| x in s;
    LeqTotal(x, x);
    if s == {x} {
      assert IsLeast(s, x);
    } else {
      LeastExists(s - {x});
      var m :| IsLeast(s - {x}, m);
      LeqTotal(m, x);
      if NameLeq(m, x) {
        assert IsLeast(s, m);
      } else {
        forall y | y in s ensures NameLeq(x, y) {
          if y != x {
            LeqTransitive(x, m, y);
          }
        }
        assert IsLeast(s, x);
      }
    }
  }

  lemma LeastUnique(s: set<string>, m: string, n: string)
    requires IsLeast(s, m) && IsLeast(s, n)
    ensures m == n
  {
    LeqAntisymmetric(m, n);
  }

  /** ORDER BY name ASC. */
  function InOrder(s: set<string>): (names: seq<string>)
    ensures |names| == |s|
  {
    if s == {} then []
    else
      LeastExists(s);
      assert forall m, n :: IsLeast(s, m) && IsLeast(s, n) ==> m == n by {
        forall m, n | IsLeast(s, m) && IsLeast(s, n) ensures m == n { LeastUnique(s, m, n); }
      }
      var m :| IsLeast(s, m);
      [m] + InOrder(s - {m})
  }

  /** The ordered list holds each name of the set once, in increasing order. */
  lemma {:induction false} InOrderSorts(s: set<string>)
    ensures forall x :: x in InOrder(s) <==> x in s
    ensures Distinct(InOrder(s))
    ensures forall i, j :: 0 <= i < j < |s| ==> NameLeq(InOrder(s)[i], InOrder(s)[j])
  {
    if s != {} {
      var names := InOrder(s);
      var m := names[0];
      LeastExists(s);
      assert IsLeast(s, m) && names[1..] == InOrder(s - {m});
      InOrderSorts(s - {m});
      assert names == [m] + names[1..];
      forall x ensures x in names <==> x in s {
        assert x in names <==> x == m || x in names[1..];
      }
      forall i, j | 0 <= i < j < |names| ensures names[i] != names[j] && NameLeq(names[i], names[j]) {
        assert names[j] == names[1..][j - 1] && names[1..][j - 1] in names[1..];
        if i > 0 {
          assert names[i] == names[1..][i - 1];
        }
      }
    }
  }

  /** The live rows of an organisation that pass the filter. */
  function Matching(t: Table, org: OrgId, keep: (Key, Row) -> bool): set<string> {
    set k | k in t && k.org == org && t[k].deletedAt.None? && keep(k, t[k]) :: k.name
  }

  const DEFAULT_LIMIT := 50

  /** A page of names; `next` is the offset carried by the continue token. */
  datatype Page = Page(items: seq<string>, next: Option<nat>, total: nat)

  function Limit(requested: int): nat {
    if requested <= 0 then DEFAULT_LIMIT else requested
  }

  function Min(a: nat, b: nat): nat {
    if a <= b then a else b
  }

  /** Names `offset` up to `offset + limit` of the ordered list, as OFFSET and LIMIT cut it. */
  function Slice(names: seq<string>, offset: nat, limit: nat): seq<string> {
    if |names| <= offset then [] else names[offset..Min(|names|, offset + limit)]
  }

  method List(t: Table, org: OrgId, keep: (Key, Row) -> bool, requested: int, token: Option<nat>)
    returns (page: Page)
    ensures page == PageAt(InOrder(Matching(t, org, keep)), token, requested)
  {
    hide InOrder, Matching;
    var names := InOrder(Matching(t, org, keep));
    var total := |names|;
    var limit := requested;
    if limit <= 0 {
      limit := DEFAULT_LIMIT;
    }
    var offset := 0;
    if token.Some? {
      offset := token.value;
    }
    var items := [];
    if offset < total {
      items := names[offset..if offset + limit < total then offset + limit else total];
    }
    var nextOffset := offset + |items|;
    var next := None;
    if nextOffset < total {
      next := Some(nextOffset);
    }
    return Page(items, next, total);
  }

  function PageAt(names: seq<string>, token: Option<nat>, requested: int): Page {
    var offset := if token.Some? then token.value else 0;
    var items := Slice(names, offset, Limit(requested));
    Page(items, if offset + |items| < |names| then Some(offset + |items|) else None, |names|)
  }

  /** Follows tokens until a page has none, asking for `limits(i)` items on the i-th page. */
  function Follow(names: seq<string>, token: Option<nat>, limits: nat -> int, i: nat): (pages: seq<Page>)
    ensures pages != []
    decreases |names| - Or(token, 0), if token.None? then 1 else 0
  {
    var page := PageAt(names, token, limits(i));
    if page.next.None? then [page]
    else [page] + Follow(names, page.next, limits, i + 1)
  }

  function Items(pages: seq<Page>): seq<string> {
    if pages == [] then [] else pages[0].items + Items(pages[1..])
  }

  /** A page and what is left from its token on are what was left before it. */
  lemma PageCuts(names: seq<string>, token: Option<nat>, requested: int)
    requires Or(token, 0) <= |names|
    ensures var page := PageAt(names, token, requested); var left := names[Or(token, 0)..];
      && (page.next.None? ==> page.items == left)
      && (page.next.Some? ==>
          Or(token, 0) < page.next.value <= |names| && left == page.items + names[page.next.value..])
  {
  }

  lemma {:induction false} FollowCollects(names: seq<string>, token: Option<nat>, limits: nat -> int, i: nat)
    requires Or(token, 0) <= |names|
    ensures Items(Follow(names, token, limits, i)) == names[Or(token, 0)..]
    decreases |names| - Or(token, 0)
  {
    hide PageAt;
    var page := PageAt(names, token, limits(i));
    PageCuts(names, token, limits(i));
    if page.next.None? {
      assert Items([page]) == page.items + Items([]);
    } else {
      FollowCollects(names, page.next, limits, i + 1);
      var rest := Follow(names, page.next, limits, i + 1);
      assert ([page] + rest)[1..] == rest;
    }
  }

  lemma {:induction false} FollowTotals(names: seq<string>, token: Option<nat>, limits: nat -> int, i: nat)
    ensures forall p :: p in Follow(names, token, limits, i) ==> p.total == |names|
    decreases |names| - Or(token, 0), if token.None? then 1 else 0
  {
    var page := PageAt(names, token, limits(i));
    if page.next.Some? {
      FollowTotals(names, page.next, limits, i + 1);
    }
  }

  /** No page holds more than its limit, and every page but the last holds exactly that. */
  ghost predicate Filled(pages: seq<Page>, limits: nat -> int, i: nat) {
    && (forall j: nat :: j < |pages| ==> |pages[j].items| <= Limit(limits(i + j)))
    && (forall j: nat :: j < |pages| - 1 ==> |pages[j].items| == Limit(limits(i + j)))
  }

  lemma FilledCons(page: Page, rest: seq<Page>, limits: nat -> int, i: nat)
    requires |page.items| == Limit(limits(i)) && Filled(rest, limits, i + 1)
    ensures Filled([page] + rest, limits, i)
  {
    var pages := [page] + rest;
    forall j: nat | j < |pages|
      ensures |pages[j].items| <= Limit(limits(i + j))
      ensures j < |pages| - 1 ==> |pages[j].items| == Limit(limits(i + j))
    {
      if j > 0 {
        var k: nat := j - 1;
        assert pages[j] == rest[k] && i + 1 + k == i + j;
        assert |rest[k].items| <= Limit(limits(i + 1 + k));
      }
    }
  }

  lemma {:induction false} FollowFills(names: seq<string>, token: Option<nat>, limits: nat -> int, i: nat)
    ensures Filled(Follow(names, token, limits, i), limits, i)
    decreases |names| - Or(token, 0), if token.None? then 1 else 0
  {
    var page := PageAt(names, token, limits(i));
    if page.next.Some? {
      FollowFills(names, page.next, limits, i + 1);
      FilledCons(page, Follow(names, page.next, limits, i + 1), limits, i);
    }
  }

  /** Paging is complete: whatever the limits, the pages of an unchanging table concatenate to
      its matching live names, each once and in order; every page reports their number, and all
      but the last hold exactly the limit asked for. */
  lemma PagingComplete(t: Table, org: OrgId, keep: (Key, Row) -> bool, limits: nat -> int)
    ensures var names := InOrder(Matching(t, org, keep)); var pages := Follow(names, None, limits, 0);
      && Items(pages) == names
      && Distinct(Items(pages))
      && (forall k :: k in t && k.org == org ==> (k.name in Items(pages) <==> Live(t, k) && keep(k, t[k])))
      && (forall i, j :: 0 <= i < j < |Items(pages)| ==> NameLeq(Items(pages)[i], Items(pages)[j]))
      && (forall p :: p in pages ==> p.total == |Items(pages)|)
      && (forall i :: 0 <= i < |pages| ==> |pages[i].items| <= if limits(i) <= 0 then 50 else limits(i))
      && (forall i :: 0 <= i < |pages| - 1 ==> |pages[i].items| == if limits(i) <= 0 then 50 else limits(i))
  {
    hide InOrder, Follow, Items, NameLeq, Matching;
    var s := Matching(t, org, keep);
    var names := InOrder(s);
    InOrderSorts(s);
    FollowCollects(names, None, limits, 0);
    FollowTotals(names, None, limits, 0);
    FollowFills(names, None, limits, 0);
    assert names[0..] == names;
    assert forall i: nat :: limits(0 + i) == limits(i);
    forall k | k in t && k.org == org ensures k.name in s <==> Live(t, k) && keep(k, t[k]) {
      MatchingNames(t, k, keep);
    }
  }

  lemma MatchingNames(t: Table, k: Key, keep: (Key, Row) -> bool)
    requires k in t
    ensures k.name in Matching(t, k.org, keep) <==> Live(t, k) && keep(k, t[k])
  {
    if k.name in Matching(t, k.org, keep) {
      var k' :| k' in t && k'.org == k.org && t[k'].deletedAt.None? && keep(k', t[k']) && k'.name == k.name;
      assert k' == k;
    }
  }
}
