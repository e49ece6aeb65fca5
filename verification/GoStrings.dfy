/** The parts of Go's `strings` package that the filter compiler calls, on text as a
    sequence of Unicode characters. */
module GoStrings {

  /** Unicode White_Space, the set that `strings.TrimSpace` strips. */
  predicate IsSpace(c: char) {
    || '\t' <= c <= '\r' || c == ' ' || c == '\U{85}' || c == '\U{A0}' || c == '\U{1680}'
    || '\U{2000}' <= c <= '\U{200A}' || c == '\U{2028}' || c == '\U{2029}'
    || c == '\U{202F}' || c == '\U{205F}' || c == '\U{3000}'
  }

  function TrimLeft(s: string): string {
    if s != "" && IsSpace(s[0]) then TrimLeft(s[1..]) else s
  }

  function TrimRight(s: string): string {
    if s != "" && IsSpace(s[|s| - 1]) then TrimRight(s[..|s| - 1]) else s
  }

  function TrimSpace(s: string): string {
    TrimRight(TrimLeft(s))
  }

  predicate MatchesAt(s: string, sub: string, i: int) {
    0 <= i && i + |sub| <= |s| && s[i..i + |sub|] == sub
  }

  ghost predicate Contains(s: string, sub: string) {
    exists i :: MatchesAt(s, sub, i)
  }

  /** One differing character rules out an occurrence. */
  lemma NoMatchAt(s: string, sub: string, i: int, j: int)
    requires 0 <= j < |sub|
    requires 0 <= i && i + |sub| <= |s| ==> s[i + j] != sub[j]
    ensures !MatchesAt(s, sub, i)
  {
    if 0 <= i && i + |sub| <= |s| {
      assert s[i..i + |sub|][j] == s[i + j];
    }
  }

  /** The first position at or after `i` where `sub` occurs, or -1. */
  function IndexFrom(s: string, sub: string, i: nat): (r: int)
    ensures r < 0 ==> r == -1 && forall j :: i <= j ==> !MatchesAt(s, sub, j)
    ensures 0 <= r ==> i <= r && MatchesAt(s, sub, r) && forall j :: i <= j < r ==> !MatchesAt(s, sub, j)
    decreases |s| - i
  {
    if MatchesAt(s, sub, i) then i
    else if |s| <= i then -1
    else IndexFrom(s, sub, i + 1)
  }

  function Index(s: string, sub: string): (r: int)
    ensures r < 0 ==> r == -1 && forall j :: !MatchesAt(s, sub, j)
    ensures 0 <= r ==> MatchesAt(s, sub, r) && forall j :: 0 <= j < r ==> !MatchesAt(s, sub, j)
  {
    IndexFrom(s, sub, 0)
  }

  function Split(s: string, sep: string): (parts: seq<string>)
    requires sep != ""
    ensures parts != []
    decreases |s|
  {
    var i := Index(s, sep);
    if i < 0 then [s] else [s[..i]] + Split(s[i + |sep|..], sep)
  }

  function Join(parts: seq<string>, sep: string): string {
    if parts == [] then ""
    else if |parts| == 1 then parts[0]
    else parts[0] + sep + Join(parts[1..], sep)
  }

  /** Replacing every non-overlapping occurrence, left to right, is splitting at them and
      joining the pieces with the replacement. */
  function ReplaceAll(s: string, old_: string, with: string): string
    requires old_ != ""
  {
    Join(Split(s, old_), with)
  }

  /** `x` followed by `sep` has its first `sep` exactly at the end of `x`. */
  ghost predicate Clean(x: string, sep: string) {
    forall i :: 0 <= i < |x| ==> !MatchesAt(x + sep, sep, i)
  }

  // ---- Occurrences ----

  lemma ShiftMatch(a: string, rest: string, k: string, m: nat)
    requires |a| <= m
    ensures MatchesAt(a + rest, k, m) <==> MatchesAt(rest, k, m - |a|)
  {
    if m + |k| <= |a| + |rest| {
      assert (a + rest)[m..m + |k|] == rest[m - |a|..m - |a| + |k|];
    }
  }

  lemma PrefixMatch(a: string, rest: string, k: string, m: nat)
    requires m + |k| <= |a|
    ensures MatchesAt(a + rest, k, m) <==> MatchesAt(a, k, m)
  {
    assert (a + rest)[m..m + |k|] == a[m..m + |k|];
  }

  lemma NowhereAt(s: string, k: string)
    requires forall m: nat :: !MatchesAt(s, k, m)
    ensures Index(s, k) < 0
  {
  }

  lemma FirstAt(s: string, k: string, n: nat)
    requires MatchesAt(s, k, n) && forall m :: 0 <= m < n ==> !MatchesAt(s, k, m)
    ensures Index(s, k) == n
  {
  }

  lemma SplitStep(s: string, k: string)
    requires k != ""
    ensures Index(s, k) < 0 ==> Split(s, k) == [s]
    ensures 0 <= Index(s, k) ==>
      var i := Index(s, k); i + |k| <= |s| && Split(s, k) == [s[..i]] + Split(s[i + |k|..], k)
  {
  }

  lemma CleanIsAbsent(x: string, sep: string)
    requires sep != "" && Clean(x, sep)
    ensures Index(x, sep) < 0
  {
    hide IndexFrom;
    forall m: nat ensures !MatchesAt(x, sep, m) {
      if m + |sep| <= |x| {
        assert !MatchesAt(x + sep, sep, m);
        PrefixMatch(x, sep, sep, m);
      }
    }
    NowhereAt(x, sep);
  }

  lemma CleanCuts(x: string, sep: string, rest: string)
    requires sep != "" && Clean(x, sep)
    ensures Index(x + sep + rest, sep) == |x|
  {
    hide IndexFrom;
    var s := x + sep + rest;
    assert s[|x|..|x| + |sep|] == sep;
    forall m: nat | m < |x| ensures !MatchesAt(s, sep, m) {
      assert !MatchesAt(x + sep, sep, m);
      PrefixMatch(x + sep, rest, sep, m);
    }
    FirstAt(s, sep, |x|);
  }

  /** Splitting undoes joining, whatever the separator, when every piece is clean. */
  lemma {:induction false} SplitJoin(xs: seq<string>, sep: string)
    requires sep != "" && xs != []
    requires forall x :: x in xs ==> Clean(x, sep)
    ensures Split(Join(xs, sep), sep) == xs
  {
    hide Split, Index, Clean, MatchesAt;
    var x := xs[0];
    assert x in xs;
    SplitStep(Join(xs, sep), sep);
    if |xs| == 1 {
      CleanIsAbsent(x, sep);
    } else {
      var rest := Join(xs[1..], sep);
      CleanCuts(x, sep, rest);
      SplitJoin(xs[1..], sep);
      assert (x + sep + rest)[..|x|] == x && (x + sep + rest)[|x| + |sep|..] == rest;
    }
  }

  lemma SplitAbsent(s: string, sep: string)
    requires sep != "" && !Contains(s, sep)
    ensures Split(s, sep) == [s] && ReplaceAll(s, sep, " ") == s
    ensures forall with :: ReplaceAll(s, sep, with) == s
  {
    var i := Index(s, sep);
    assert 0 <= i ==> MatchesAt(s, sep, i);
  }

  // ---- Trimming ----

  predicate Trimmed(s: string) {
    s == "" || (!IsSpace(s[0]) && !IsSpace(s[|s| - 1]))
  }

  lemma {:induction false} TrimLeftDrops(s: string)
    ensures |TrimLeft(s)| <= |s| && TrimLeft(s) == s[|s| - |TrimLeft(s)|..]
    ensures TrimLeft(s) == "" || !IsSpace(TrimLeft(s)[0])
  {
    if s != "" && IsSpace(s[0]) {
      TrimLeftDrops(s[1..]);
    }
  }

  lemma {:induction false} TrimRightDrops(s: string)
    ensures TrimRight(s) <= s
    ensures TrimRight(s) == "" || !IsSpace(TrimRight(s)[|TrimRight(s)| - 1])
  {
    if s != "" && IsSpace(s[|s| - 1]) {
      TrimRightDrops(s[..|s| - 1]);
    }
  }

  /** The result of trimming is trimmed, and trimming leaves trimmed text alone. */
  lemma TrimSpaceTrims(s: string)
    ensures Trimmed(TrimSpace(s))
    ensures Trimmed(s) ==> TrimSpace(s) == s
  {
    TrimLeftDrops(s);
    TrimRightDrops(TrimLeft(s));
  }

  /** Spaces around trimmed text disappear. */
  lemma TrimPadding(x: string)
    requires Trimmed(x)
    ensures TrimSpace(x + " ") == x && TrimSpace(" " + x) == x && TrimSpace(x) == x
  {
    TrimSpaceTrims(x);
    assert (" " + x)[1..] == x;
    if x == "" {
      assert x + " " == " ";
      assert TrimLeft(" ") == TrimLeft(" "[1..]);
    } else {
      assert (x + " ")[..|x + " "| - 1] == x;
    }
  }
}
