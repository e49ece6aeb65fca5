/** Values shared by every part of the model. */
module Common {

  datatype Option<+T> = None | Some(value: T)

  datatype Result<+T, +E> = Ok(value: T) | Err(error: E)

  /** Instants and durations, in nanoseconds, as in Go's `time` package. */
  type Time = int

  const TWO_TO_63: int := 0x8000_0000_0000_0000
  const TWO_TO_64: int := 0x1_0000_0000_0000_0000

  type Int64 = x: int | -TWO_TO_63 <= x < TWO_TO_63

  /** The two's-complement int64 that Go's wrapping arithmetic leaves for the exact value `x`. */
  function Wrap64(x: int): Int64 {
    (x + TWO_TO_63) % TWO_TO_64 - TWO_TO_63
  }

  /** It is congruent to `x` and equal to it when `x` fits. */
  lemma WrapIsInt64(x: int)
    ensures (x - Wrap64(x)) % TWO_TO_64 == 0
    ensures -TWO_TO_63 <= x < TWO_TO_63 ==> Wrap64(x) == x
  {
  }

  lemma WrapStep(x: int, y: int)
    ensures Wrap64(Wrap64(x) + y) == Wrap64(x + y)
  {
  }

  /** Counting up by fewer than 2^64 steps never returns to the same int64. */
  lemma WrapInjective(base: int, i: nat, j: nat)
    requires Wrap64(base + i) == Wrap64(base + j)
    requires i <= j < i + TWO_TO_64
    ensures i == j
  {
  }

  /** Numbers fewer than 2^64 apart wrap to different int64 values. */
  lemma WrapEqualIff(base: int, i: nat, j: nat)
    requires i - TWO_TO_64 < j < i + TWO_TO_64
    ensures Wrap64(base + i) == Wrap64(base + j) <==> i == j
  {
  }

  predicate Distinct<T(==)>(s: seq<T>) {
    forall i, j :: 0 <= i < j < |s| ==> s[i] != s[j]
  }

  /** The list without the first occurrence of `x`. */
  function WithoutFirst<T(==)>(s: seq<T>, x: T): seq<T> {
    if s == [] then [] else if s[0] == x then s[1..] else [s[0]] + WithoutFirst(s[1..], x)
  }

  lemma {:induction false} WithoutFirstAt<T>(s: seq<T>, x: T, i: nat)
    requires i < |s| && s[i] == x && x !in s[..i]
    ensures WithoutFirst(s, x) == s[..i] + s[i + 1..]
  {
    if i > 0 {
      assert s[0] in s[..i];
      assert s[1..][..i - 1] == s[..i][1..];
      WithoutFirstAt(s[1..], x, i - 1);
    }
  }

  lemma {:induction false} WithoutFirstAbsent<T>(s: seq<T>, x: T)
    requires x !in s
    ensures WithoutFirst(s, x) == s
  {
    if s != [] {
      WithoutFirstAbsent(s[1..], x);
    }
  }

  // ---- Name order ----

  /** Names compared character by character, a total order. */
  predicate NameLeq(a: string, b: string) {
    a == "" || (b != "" && (a[0] < b[0] || (a[0] == b[0] && NameLeq(a[1..], b[1..]))))
  }

  lemma {:induction false} LeqAntisymmetric(a: string, b: string)
    requires NameLeq(a, b) && NameLeq(b, a)
    ensures a == b
  {
    if a != "" {
      LeqAntisymmetric(a[1..], b[1..]);
      assert a == [a[0]] + a[1..] && b == [b[0]] + b[1..];
    }
  }

  lemma {:induction false} LeqTotal(a: string, b: string)
    ensures NameLeq(a, b) || NameLeq(b, a)
  {
    if a != "" && b != "" {
      LeqTotal(a[1..], b[1..]);
    }
  }

  lemma {:induction false} LeqTransitive(a: string, b: string, c: string)
    requires NameLeq(a, b) && NameLeq(b, c)
    ensures NameLeq(a, c)
  {
    if a != "" && a[0] == b[0] && b[0] == c[0] {
      LeqTransitive(a[1..], b[1..], c[1..]);
    }
  }
}
