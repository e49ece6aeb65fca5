/** Printing OR-of-ANDs of terms, with any of the documented separators and with or without spaces
    around operators, and parsing the text gives the same terms back. */
module FilterRoundTrip {
  import opened Common
  import opened GoStrings
  import opened Filter

  const KEYWORDS: seq<string> := [" OR ", " || ", " AND ", " && "]

  /** Keywords are one word between two single spaces. */
  ghost predicate KeywordShaped(k: string) {
    && 3 <= |k| && k[0] == ' ' && k[|k| - 1] == ' '
    && forall i :: 0 < i < |k| - 1 ==> k[i] != ' '
  }

  function Pad(x: string): string {
    " " + x + " "
  }

  /** `x` set between spaces does not form the keyword `k`. */
  ghost predicate Free(x: string, k: string) {
    !Contains(Pad(x), k)
  }

  lemma KeywordShapes(k: string)
    requires k in KEYWORDS
    ensures KeywordShaped(k)
  {
  }

  lemma FreeIsAbsent(x: string, k: string)
    requires Free(x, k)
    ensures !Contains(x, k)
  {
    forall i ensures !MatchesAt(x, k, i) {
      assert !MatchesAt(Pad(x), k, i + 1);
      if 0 <= i && i + |k| <= |x| {
        assert Pad(x)[i + 1..i + 1 + |k|] == x[i..i + |k|];
      }
    }
  }

  /** A free piece is cut off cleanly by the keyword that follows it. */
  lemma FreeIsClean(x: string, k: string)
    requires Free(x, k) && KeywordShaped(k)
    ensures Clean(x, k)
  {
    forall i | 0 <= i < |x| ensures !MatchesAt(x + k, k, i) {
      if i + |k| <= |x| + 1 {
        assert !MatchesAt(Pad(x), k, i + 1);
        assert Pad(x)[i + 1..i + 1 + |k|] == (x + k)[i..i + |k|];
      } else {
        NoMatchAt(x + k, k, i, |x| - i);
      }
    }
  }

  /** Two free pieces stay free when one space is put between them. */
  lemma FreeConcat(a: string, b: string, k: string)
    requires Free(a, k) && Free(b, k) && KeywordShaped(k)
    ensures Free(a + " " + b, k)
  {
    var s := Pad(a + " " + b);
    var m := |a| + 1;
    assert s == Pad(a) + b + " " == " " + a + Pad(b);
    forall i | 0 <= i && i + |k| <= |s| ensures !MatchesAt(s, k, i) {
      if i + |k| <= m + 1 {
        assert !MatchesAt(Pad(a), k, i);
        assert s[i..i + |k|] == Pad(a)[i..i + |k|];
      } else if m <= i {
        assert !MatchesAt(Pad(b), k, i - m);
        assert s[i..i + |k|] == Pad(b)[i - m..i - m + |k|];
      } else {
        NoMatchAt(s, k, i, m - i);
      }
    }
  }

  /** A word without spaces is free of every keyword it is not. */
  lemma FreeWord(w: string, k: string)
    requires ' ' !in w && KeywordShaped(k) && k != Pad(w)
    ensures Free(w, k)
  {
    var s := Pad(w);
    assert forall j :: 0 < j < |s| - 1 ==> s[j] == w[j - 1];
    forall i | 0 <= i && i + |k| <= |s| ensures !MatchesAt(s, k, i) {
      if 0 < i {
        NoMatchAt(s, k, i, 0);
      } else if |k| < |s| {
        NoMatchAt(s, k, i, |k| - 1);
      } else {
        assert s[i..i + |k|] == s;
      }
    }
  }

  /** A separator made of other characters than the keyword's cannot complete it. */
  lemma FreeGlue(a: string, glue: string, b: string, k: string)
    requires Free(a, k) && Free(b, k) && glue != "" && KeywordShaped(k)
    requires forall i :: 0 <= i < |glue| ==> glue[i] !in k
    ensures Free(a + glue + b, k)
  {
    var s := Pad(a + glue + b);
    var m := |a| + 1;
    assert s == (" " + a) + (glue + b + " ") && s == (" " + a + glue) + (b + " ");
    assert Pad(a) == (" " + a) + " " && Pad(b) == " " + (b + " ");
    forall i | 0 <= i && i + |k| <= |s| ensures !MatchesAt(s, k, i) {
      if i + |k| <= m {
        assert !MatchesAt(Pad(a), k, i);
        PrefixMatch(" " + a, " ", k, i);
        PrefixMatch(" " + a, glue + b + " ", k, i);
      } else if m + |glue| <= i {
        assert !MatchesAt(Pad(b), k, i - m - |glue| + 1);
        ShiftMatch(" ", b + " ", k, i - m - |glue| + 1);
        ShiftMatch(" " + a + glue, b + " ", k, i);
      } else {
        var at := if m <= i then i else m;
        assert s[at] == glue[at - m];
        NoMatchAt(s, k, i, at - i);
      }
    }
  }

  // ---- Terms ----

  const AND_SEPARATORS: seq<string> := [",", " AND ", " && "]
  const OR_SEPARATORS: seq<string> := [" OR ", " || "]

  /** A term, whether spaces are put around its operator, and the separator to the next term. */
  datatype Piece = Piece(term: Term, spaced: bool, sep: string)

  /** An OR-group and the separator to the next one. */
  datatype Group = Group(pieces: seq<Piece>, sep: string)

  /** Without spaces, a value that begins with `=` would extend these operators. */
  predicate Extends(op: string, value: string) {
    (op == "<" || op == ">" || op == "=") && "=" <= value
  }

  /** Field, operator and value texts that survive printing. */
  ghost predicate Printable(p: Piece) {
    && ValidField(p.term.field) && p.term.field != "AND" && p.term.field != "OR"
    && p.term.op in OPERATORS
    && Trimmed(p.term.value) && ',' !in p.term.value
    && (forall k :: k in KEYWORDS ==> Free(p.term.value, k))
    && (p.spaced || !Extends(p.term.op, p.term.value))
    && p.sep in AND_SEPARATORS
  }

  ghost predicate PrintableGroup(g: Group) {
    g.pieces != [] && g.sep in OR_SEPARATORS && forall i :: 0 <= i < |g.pieces| ==> Printable(g.pieces[i])
  }

  /** Field and operator: what is left of a printed term with an empty value. */
  function Head(p: Piece): string {
    if p.spaced then p.term.field + " " + p.term.op else p.term.field + p.term.op
  }

  function PrintPiece(p: Piece): string {
    if p.spaced then p.term.field + " " + p.term.op + " " + p.term.value
    else p.term.field + p.term.op + p.term.value
  }

  /** The term as the compiler should read it. */
  function Expected(p: Piece): Term {
    p.term.(op := if p.term.op == "==" then "=" else p.term.op)
  }

  lemma FieldFree(f: string, k: string)
    requires ValidField(f) && f != "AND" && f != "OR" && k in KEYWORDS
    ensures Free(f, k)
  {
    assert forall c :: c in f ==> FieldChar(c);
    assert FieldChar(f[0]);
    assert Pad(f)[1] == f[0];
    KeywordShapes(k);
    if k == " AND " || k == " OR " {
      assert Pad("AND") == " AND " && Pad("OR") == " OR ";
      assert Pad(f)[1..|f| + 1] == f && k[1..|k| - 1] != f;
    } else {
      assert k[1] == '&' || k[1] == '|';
    }
    FreeWord(f, k);
  }

  lemma OperatorFree(op: string, k: string)
    requires op in OPERATORS && k in KEYWORDS
    ensures Free(op, k)
  {
    assert Pad(op)[1] == op[0];
    FreeWord(op, k);
  }

  lemma OperatorForeign(op: string, k: string)
    requires op in OPERATORS && k in KEYWORDS
    ensures op != "" && ',' !in op && forall i :: 0 <= i < |op| ==> op[i] !in k
  {
    assert forall i :: 0 <= i < |op| ==> op[i] in "<>=!";
  }

  lemma HeadFree(p: Piece, k: string)
    requires Printable(p) && k in KEYWORDS
    ensures Free(Head(p), k) && Free("", k)
  {
    KeywordShapes(k);
    FreeWord("", k);
    FieldFree(p.term.field, k);
    OperatorFree(p.term.op, k);
    if p.spaced {
      FreeConcat(p.term.field, p.term.op, k);
    } else {
      OperatorForeign(p.term.op, k);
      FreeGlue(p.term.field, p.term.op, "", k);
      assert p.term.field + p.term.op + "" == Head(p);
    }
  }

  lemma PieceFree(p: Piece, k: string)
    requires Printable(p) && k in KEYWORDS
    ensures Free(PrintPiece(p), k)
  {
    KeywordShapes(k);
    HeadFree(p, k);
    if p.spaced {
      FreeConcat(Head(p), p.term.value, k);
    } else {
      FieldFree(p.term.field, k);
      OperatorForeign(p.term.op, k);
      FreeGlue(p.term.field, p.term.op, p.term.value, k);
    }
  }

  /** No operator starts with a field character or a space. */
  lemma NotOperator(s: string, o: string, j: nat)
    requires o in OPERATORS && j < |s| && (FieldChar(s[j]) || s[j] == ' ')
    ensures !MatchesAt(s, o, j)
  {
    NoMatchAt(s, o, j, 0);
  }

  /** The scan stops at the operator that follows the field, whatever the value holds. */
  lemma ScanPrinted(t: Term, tail: string)
    requires ValidField(t.field) && t.op in OPERATORS
    requires tail == "" || tail[0] == ' '
    ensures ScanOperator(t.field + " " + t.op + tail, 0) == Some((|t.field| + 1, t.op))
  {
    hide ScanOperator;
    var n := |t.field| + 1;
    var head, rest := t.field + " ", t.op + tail;
    var s := t.field + " " + t.op + tail;
    assert s == head + rest;
    ShiftMatch(head, rest, t.op, n);
    assert rest[0..|t.op|] == t.op;
    forall o, j | o in OPERATORS && 0 <= j < n ensures !MatchesAt(s, o, j) {
      assert s[j] == head[j];
      NotOperator(s, o, j);
    }
    forall o | o in OPERATORS && |t.op| < |o| ensures !MatchesAt(s, o, n) {
      assert tail != "" ==> s[n + 1] == ' ';
      NoMatchAt(s, o, n, 1);
    }
    EarliestLongest(s, 0, n, t.op);
  }

  lemma FieldTrimmed(f: string)
    requires ValidField(f)
    ensures Trimmed(f)
  {
    assert FieldChar(f[0]) && FieldChar(f[|f| - 1]);
  }

  lemma OperatorTrimmed(op: string)
    requires op in OPERATORS
    ensures Trimmed(op) && op != ""
  {
    assert op[0] in "<>!=" && op[|op| - 1] in "<>=";
  }

  /** Trimming a printed term removes the space before an empty value and nothing else. */
  lemma TrimPrinted(p: Piece)
    requires Printable(p)
    ensures Trimmed(Head(p)) && Head(p) != ""
    ensures TrimSpace(PrintPiece(p)) == if p.term.value == "" then Head(p) else PrintPiece(p)
    ensures p.term.value != "" ==> Trimmed(PrintPiece(p)) && PrintPiece(p) != ""
  {
    hide TrimSpace;
    FieldTrimmed(p.term.field);
    OperatorTrimmed(p.term.op);
    if p.term.value == "" {
      assert PrintPiece(p) == if p.spaced then Head(p) + " " else Head(p);
      TrimPadding(Head(p));
    } else {
      TrimPadding(PrintPiece(p));
    }
  }

  /** Without spaces the scan stops right after the field. */
  lemma ScanCompact(f: string, op: string, rest: string)
    requires ValidField(f) && op in OPERATORS
    requires |op| == 2 || rest == "" || rest[0] != '='
    ensures ScanOperator(f + op + rest, 0) == Some((|f|, op))
  {
    hide ScanOperator;
    var n := |f|;
    var s := f + op + rest;
    assert s[n..n + |op|] == op;
    forall o, j | o in OPERATORS && 0 <= j < n ensures !MatchesAt(s, o, j) {
      assert s[j] == f[j] && FieldChar(s[j]);
      NoMatchAt(s, o, j, 0);
    }
    forall o | o in OPERATORS && |op| < |o| ensures !MatchesAt(s, o, n) {
      NoMatchAt(s, o, n, 1);
    }
    EarliestLongest(s, 0, n, op);
  }

  lemma SpacedReadsBack(t: Term)
    requires ValidField(t.field) && t.op in OPERATORS && Trimmed(t.value)
    ensures var tail := if t.value == "" then "" else " " + t.value;
      ParseTerm(t.field + " " + t.op + tail) == Ok(t.(op := NormalOp(t.op)))
  {
    hide ParseTerm, ScanOperator, TrimSpace, Trimmed;
    var tail := if t.value == "" then "" else " " + t.value;
    var s, n := t.field + " " + t.op + tail, |t.field| + 1;
    ScanPrinted(t, tail);
    assert s[..n] == t.field + " " && s[n + |t.op|..] == tail;
    FieldTrimmed(t.field);
    TrimPadding(t.field);
    TrimPadding(t.value);
    ParseScanned(s, n, t.op, t.field, t.value);
  }

  lemma CompactReadsBack(t: Term)
    requires ValidField(t.field) && t.op in OPERATORS && Trimmed(t.value) && !Extends(t.op, t.value)
    ensures ParseTerm(t.field + t.op + t.value) == Ok(t.(op := NormalOp(t.op)))
  {
    hide ParseTerm, ScanOperator, TrimSpace;
    var n, s := |t.field|, t.field + t.op + t.value;
    FieldTrimmed(t.field);
    TrimPadding(t.field);
    TrimPadding(t.value);
    ScanCompact(t.field, t.op, t.value);
    assert s[..n] == t.field && s[n + |t.op|..] == t.value;
    ParseScanned(s, n, t.op, t.field, t.value);
  }

  lemma CompactMisread(t: Term)
    requires ValidField(t.field) && Trimmed(t.value) && Extends(t.op, t.value)
    ensures exists v ::
        |v| < |t.value| && ParseTerm(t.field + t.op + t.value) == Ok(Term(t.field, NormalOp(t.op + "="), v))
  {
    hide ParseTerm, ScanOperator;
    var n, longer, rest := |t.field|, t.op + "=", t.value[1..];
    var s := t.field + t.op + t.value;
    assert s == t.field + longer + rest;
    assert longer == (if t.op == "<" then "<=" else if t.op == ">" then ">=" else "==");
    assert longer in OPERATORS by {
      assert OPERATORS[0] == ">=" && OPERATORS[1] == "<=" && OPERATORS[3] == "==";
    }
    FieldTrimmed(t.field);
    TrimPadding(t.field);
    ScanCompact(t.field, longer, rest);
    assert s[..n] == t.field && s[n + 2..] == rest;
    TrimLeftDrops(rest);
    TrimRightDrops(TrimLeft(rest));
    ParseScanned(s, n, longer, t.field, TrimSpace(rest));
  }

  /** Without spaces the text is read back exactly when the value does not extend the operator. */
  lemma CompactReadsBackIff(t: Term)
    requires ValidField(t.field) && t.op in OPERATORS && Trimmed(t.value)
    ensures ParseTerm(t.field + t.op + t.value) == Ok(t.(op := if t.op == "==" then "=" else t.op))
       <==> !((t.op == "<" || t.op == ">" || t.op == "=") && "=" <= t.value)
  {
    hide ParseTerm;
    if Extends(t.op, t.value) {
      CompactMisread(t);
    } else {
      CompactReadsBack(t);
    }
  }

  /** The printed text without the space that trimming takes from an empty value. */
  lemma PrintedText(p: Piece)
    ensures var t := p.term; var text := if t.value == "" then Head(p) else PrintPiece(p);
      if p.spaced then text == t.field + " " + t.op + (if t.value == "" then "" else " " + t.value)
      else text == t.field + t.op + t.value
  {
  }

  /** Every printed term, with whatever spaces trimming removes, parses to itself. */
  lemma ParsePrinted(p: Piece)
    requires Printable(p)
    ensures TrimSpace(PrintPiece(p)) != ""
    ensures ParseTerm(TrimSpace(PrintPiece(p))) == Ok(Expected(p))
  {
    hide ParseTerm, TrimSpace, Trimmed, ValidField, Free;
    TrimPrinted(p);
    PrintedText(p);
    if p.spaced {
      SpacedReadsBack(p.term);
    } else {
      CompactReadsBack(p.term);
    }
  }

  // ---- Mixed separators ----

  /** The pieces, each followed by its separator except the last. */
  function Mix(xs: seq<string>, seps: seq<string>): string
    requires |seps| == |xs|
  {
    if xs == [] then "" else if |xs| == 1 then xs[0] else xs[0] + seps[0] + Mix(xs[1..], seps[1..])
  }

  function Swap(seps: seq<string>, k: string, r: string): (out: seq<string>)
    ensures |out| == |seps|
  {
    seq(|seps|, i requires 0 <= i < |seps| => if seps[i] == k then r else seps[i])
  }

  ghost predicate Separator(sep: string) {
    sep == "," || KeywordShaped(sep)
  }

  /** Text whose start cannot complete a keyword begun by a space before it. */
  ghost predicate SafeStart(rest: string, k: string) {
    !MatchesAt(" " + rest, k, 0)
  }

  lemma FreeStarts(x: string, tail: string, k: string)
    requires Free(x, k) && KeywordShaped(k) && ',' !in k
    requires tail == "" || tail[0] == ' ' || tail[0] == ','
    ensures SafeStart(x + tail, k)
  {
    var s := " " + (x + tail);
    if |k| <= |s| {
      if |k| <= |x| + 1 {
        assert !MatchesAt(Pad(x), k, 0);
        assert s[0..0 + |k|] == Pad(x)[0..0 + |k|];
      } else if |k| == |x| + 2 && tail[0] == ' ' {
        assert !MatchesAt(Pad(x), k, 0);
        assert s[0..0 + |k|] == Pad(x)[0..0 + |k|];
      } else {
        NoMatchAt(s, k, 0, |x| + 1);
      }
    }
  }

  /** No keyword `k` starts in a free piece or in another separator after it. */
  lemma NoStart(x: string, sep: string, rest: string, k: string, i: nat)
    requires Free(x, k) && KeywordShaped(k) && ',' !in k && Separator(sep) && sep != k
    requires SafeStart(rest, k) && i < |x| + |sep|
    ensures !MatchesAt(x + sep + rest, k, i)
  {
    var s := x + sep + rest;
    if i + |k| <= |s| {
      if i < |x| {
        if i + |k| <= |x| || (i + |k| == |x| + 1 && sep[0] == ' ') {
          assert !MatchesAt(Pad(x), k, i + 1);
          assert s[i..i + |k|] == Pad(x)[i + 1..i + 1 + |k|];
        } else {
          NoMatchAt(s, k, i, |x| - i);
        }
      } else if i < |x| + |sep| - 1 {
        SeparatorsDiffer(x, sep, rest, k, i);
      } else if sep == "," {
        NoMatchAt(s, k, i, 0);
      } else {
        assert !MatchesAt(" " + rest, k, 0);
        assert s[i..i + |k|] == (" " + rest)[0..0 + |k|];
      }
    }
  }

  lemma SeparatorsDiffer(x: string, sep: string, rest: string, k: string, i: nat)
    requires KeywordShaped(k) && KeywordShaped(sep) && sep != k
    requires |x| <= i < |x| + |sep| - 1 && i + |k| <= |x| + |sep| + |rest|
    ensures !MatchesAt(x + sep + rest, k, i)
  {
    var s := x + sep + rest;
    if i > |x| {
      NoMatchAt(s, k, i, 0);
    } else if |k| < |sep| {
      NoMatchAt(s, k, i, |k| - 1);
    } else if |k| > |sep| {
      NoMatchAt(s, k, i, |sep| - 1);
    } else {
      assert s[i..i + |k|] == sep;
    }
  }

  lemma IndexSkip(a: string, rest: string, k: string)
    requires forall i :: 0 <= i < |a| ==> !MatchesAt(a + rest, k, i)
    ensures Index(a + rest, k) == if Index(rest, k) < 0 then -1 else |a| + Index(rest, k)
  {
    hide IndexFrom;
    var j := Index(rest, k);
    forall m: nat | |a| <= m ensures MatchesAt(a + rest, k, m) <==> MatchesAt(rest, k, m - |a|) {
      ShiftMatch(a, rest, k, m);
    }
    if j < 0 {
      NowhereAt(a + rest, k);
    } else {
      FirstAt(a + rest, k, |a| + j);
    }
  }

  /** Splitting and replacing skip text in which the keyword does not start. */
  lemma SplitSkip(a: string, rest: string, k: string)
    requires k != "" && forall i :: 0 <= i < |a| ==> !MatchesAt(a + rest, k, i)
    ensures var parts := Split(rest, k); Split(a + rest, k) == [a + parts[0]] + parts[1..]
  {
    hide Split, Index, MatchesAt;
    IndexSkip(a, rest, k);
    SplitStep(rest, k);
    SplitStep(a + rest, k);
    var j := Index(rest, k);
    if j >= 0 {
      assert (a + rest)[..|a| + j] == a + rest[..j];
      assert (a + rest)[|a| + j + |k|..] == rest[j + |k|..];
    }
  }

  lemma ReplaceSkip(a: string, rest: string, k: string, r: string)
    requires k != "" && forall i :: 0 <= i < |a| ==> !MatchesAt(a + rest, k, i)
    ensures ReplaceAll(a + rest, k, r) == a + ReplaceAll(rest, k, r)
  {
    hide Split, MatchesAt;
    SplitSkip(a, rest, k);
    var parts := Split(rest, k);
    assert ([a + parts[0]] + parts[1..])[1..] == parts[1..];
  }

  lemma JoinFirst(x: string, parts: seq<string>, r: string)
    requires parts != []
    ensures Join([x] + parts, r) == x + r + Join(parts, r)
  {
    assert ([x] + parts)[1..] == parts;
  }

  /** Replacing acts on the keyword that follows a clean piece. */
  lemma ReplaceHit(x: string, rest: string, k: string, r: string)
    requires k != "" && Clean(x, k)
    ensures ReplaceAll(x + k + rest, k, r) == x + r + ReplaceAll(rest, k, r)
  {
    var s := x + k + rest;
    assert s[|x|..|x| + |k|] == k;
    forall i | 0 <= i < |x| ensures !MatchesAt(s, k, i) {
      assert !MatchesAt(x + k, k, i);
      assert s[i..i + |k|] == (x + k)[i..i + |k|];
    }
    FirstAt(s, k, |x|);
    assert s[..|x|] == x && s[|x| + |k|..] == rest;
    JoinFirst(x, Split(rest, k), r);
  }

  /** Replacing a keyword in mixed text swaps exactly the separators that are it. */
  lemma {:induction false} MixReplace(xs: seq<string>, seps: seq<string>, k: string, r: string)
    requires |seps| == |xs| && xs != [] && KeywordShaped(k) && ',' !in k
    requires forall i :: 0 <= i < |xs| ==> Free(xs[i], k) && Separator(seps[i])
    ensures ReplaceAll(Mix(xs, seps), k, r) == Mix(xs, Swap(seps, k, r))
  {
    hide ReplaceAll;
    var x := xs[0];
    if |xs| == 1 {
      FreeIsAbsent(x, k);
      SplitAbsent(x, k);
    } else {
      var rest := Mix(xs[1..], seps[1..]);
      MixReplace(xs[1..], seps[1..], k, r);
      assert Swap(seps, k, r)[1..] == Swap(seps[1..], k, r);
      if seps[0] == k {
        FreeIsClean(x, k);
        ReplaceHit(x, rest, k, r);
      } else {
        MixStarts(xs[1..], seps[1..], k);
        forall i | 0 <= i < |x + seps[0]| ensures !MatchesAt(x + seps[0] + rest, k, i) {
          NoStart(x, seps[0], rest, k, i);
        }
        ReplaceSkip(x + seps[0], rest, k, r);
      }
    }
  }

  lemma SeparatorStart(sep: string)
    requires Separator(sep)
    ensures sep != "" && (sep[0] == ' ' || sep[0] == ',')
  {
  }

  lemma MixStarts(xs: seq<string>, seps: seq<string>, k: string)
    requires |seps| == |xs| && xs != [] && KeywordShaped(k) && ',' !in k
    requires forall i :: 0 <= i < |xs| ==> Free(xs[i], k) && Separator(seps[i])
    ensures SafeStart(Mix(xs, seps), k)
  {
    hide Free, KeywordShaped, SafeStart;
    assert Separator(seps[0]);
    SeparatorStart(seps[0]);
    var tail := if |xs| == 1 then "" else seps[0] + Mix(xs[1..], seps[1..]);
    FreeStarts(xs[0], tail, k);
    assert xs[0] + tail == Mix(xs, seps);
  }

  lemma {:induction false} MixUniform(xs: seq<string>, seps: seq<string>, sep: string)
    requires |seps| == |xs| && forall i :: 0 <= i < |seps| ==> seps[i] == sep
    ensures Mix(xs, seps) == Join(xs, sep)
  {
    if |xs| > 1 {
      MixUniform(xs[1..], seps[1..], sep);
    }
  }

  /** Pieces without the OR keywords stay without them under any mix of AND separators. */
  lemma {:induction false} MixFree(xs: seq<string>, seps: seq<string>, k: string)
    requires |seps| == |xs| && xs != [] && k in [" OR ", " || "]
    requires forall i :: 0 <= i < |xs| ==> Free(xs[i], k) && seps[i] in AND_SEPARATORS
    ensures Free(Mix(xs, seps), k)
  {
    KeywordShapes(k);
    if |xs| > 1 {
      var rest := Mix(xs[1..], seps[1..]);
      MixFree(xs[1..], seps[1..], k);
      if seps[0] == "," {
        FreeGlue(xs[0], ",", rest, k);
      } else {
        var w := if seps[0] == " AND " then "AND" else "&&";
        assert Pad(w) == seps[0];
        FreeWord(w, k);
        FreeConcat(xs[0], w, k);
        FreeConcat(xs[0] + " " + w, rest, k);
        assert Mix(xs, seps) == xs[0] + " " + w + " " + rest;
      }
    }
  }

  lemma CommaClean(x: string)
    requires ',' !in x
    ensures Clean(x, ",")
  {
    forall i | 0 <= i < |x| ensures !MatchesAt(x + ",", ",", i) {
      NoMatchAt(x + ",", ",", i, 0);
    }
  }

  lemma AndSeparators(sep: string)
    requires sep in AND_SEPARATORS
    ensures Separator(sep)
    ensures sep == "," || sep == " AND " || sep == " && "
  {
  }

  /** Splitting a group at commas, AND and `&&`, mixed as they may be, returns its terms. */
  lemma SplitAndMixed(xs: seq<string>, seps: seq<string>)
    requires |seps| == |xs| && xs != []
    requires forall i :: 0 <= i < |xs| ==>
      ',' !in xs[i] && Free(xs[i], " AND ") && Free(xs[i], " && ") && seps[i] in AND_SEPARATORS
    ensures SplitAnd(Mix(xs, seps)) == xs
  {
    hide ReplaceAll, Mix, Free, Separator;
    KeywordShapes(" AND ");
    KeywordShapes(" && ");
    forall i | 0 <= i < |seps|
      ensures Separator(seps[i]) && (seps[i] == "," || seps[i] == " AND " || seps[i] == " && ")
    {
      AndSeparators(seps[i]);
    }
    var once := Swap(seps, " AND ", ",");
    var twice := Swap(once, " && ", ",");
    AndSeparators(",");
    MixReplace(xs, seps, " AND ", ",");
    MixReplace(xs, once, " && ", ",");
    MixUniform(xs, twice, ",");
    forall x | x in xs ensures Clean(x, ",") {
      CommaClean(x);
    }
    SplitJoin(xs, ",");
  }

  // ---- Groups ----

  function Texts(ps: seq<Piece>): (xs: seq<string>)
    ensures |xs| == |ps|
  {
    seq(|ps|, i requires 0 <= i < |ps| => PrintPiece(ps[i]))
  }

  function Seps(ps: seq<Piece>): (xs: seq<string>)
    ensures |xs| == |ps|
  {
    seq(|ps|, i requires 0 <= i < |ps| => ps[i].sep)
  }

  function PrintGroup(g: Group): string {
    Mix(Texts(g.pieces), Seps(g.pieces))
  }

  function GroupTexts(gs: seq<Group>): (xs: seq<string>)
    ensures |xs| == |gs|
  {
    seq(|gs|, i requires 0 <= i < |gs| => PrintGroup(gs[i]))
  }

  function GroupSeps(gs: seq<Group>): (xs: seq<string>)
    ensures |xs| == |gs|
  {
    seq(|gs|, i requires 0 <= i < |gs| => gs[i].sep)
  }

  function PrintFilter(gs: seq<Group>): string {
    Mix(GroupTexts(gs), GroupSeps(gs))
  }

  function ExpectedTerms(ps: seq<Piece>): (r: seq<Term>)
    ensures |r| == |ps|
  {
    seq(|ps|, i requires 0 <= i < |ps| => Expected(ps[i]))
  }

  function ExpectedGroups(gs: seq<Group>): (r: seq<seq<Term>>)
    ensures |r| == |gs|
  {
    seq(|gs|, i requires 0 <= i < |gs| => ExpectedTerms(gs[i].pieces))
  }

  /** What precedes the last piece. */
  function MixHead(xs: seq<string>, seps: seq<string>): string
    requires |seps| == |xs|
  {
    if xs == [] then "" else xs[0] + seps[0] + MixHead(xs[1..], seps[1..])
  }

  lemma {:induction false} MixSnoc(front: seq<string>, seps: seq<string>, x: string)
    requires |seps| == |front| + 1
    ensures Mix(front + [x], seps) == MixHead(front, seps[..|front|]) + x
  {
    if front != [] {
      MixSnoc(front[1..], seps[1..], x);
      assert (front + [x])[1..] == front[1..] + [x];
      assert seps[..|front|][1..] == seps[1..][..|front| - 1];
    }
  }

  lemma PieceStart(p: Piece)
    requires Printable(p)
    ensures PrintPiece(p) != "" && !IsSpace(PrintPiece(p)[0]) && ',' !in PrintPiece(p)
  {
    assert FieldChar(p.term.field[0]);
    assert forall c :: c in p.term.field ==> FieldChar(c);
    OperatorForeign(p.term.op, " OR ");
  }

  lemma TrimTail(head: string, p: Piece)
    requires Printable(p) && (head == "" || !IsSpace(head[0]))
    ensures TrimSpace(head + PrintPiece(p)) == head + TrimSpace(PrintPiece(p))
  {
    hide TrimSpace, Printable;
    TrimPrinted(p);
    var core := if p.term.value == "" then Head(p) else PrintPiece(p);
    TrimmedAfter(head, core);
    TrimPadding(head + core);
    assert PrintPiece(p) == core || PrintPiece(p) == core + " ";
    assert head + PrintPiece(p) == head + core || head + PrintPiece(p) == head + core + " ";
  }

  lemma TrimmedAfter(head: string, core: string)
    requires Trimmed(core) && core != "" && (head == "" || !IsSpace(head[0]))
    ensures Trimmed(head + core)
  {
  }

  /** Trimming a printed group only shortens its last term. */
  lemma TrimPrintedGroup(g: Group)
    requires PrintableGroup(g)
    ensures var n := |g.pieces| - 1;
      TrimSpace(PrintGroup(g)) == Mix(Texts(g.pieces)[n := TrimSpace(PrintPiece(g.pieces[n]))], Seps(g.pieces))
    ensures TrimSpace(PrintGroup(g)) != ""
  {
    hide ParseTerm, TrimSpace, Printable, Mix, PrintPiece;
    var n := |g.pieces| - 1;
    var last := g.pieces[n];
    var short := TrimSpace(PrintPiece(last));
    var front, seps := Texts(g.pieces[..n]), Seps(g.pieces);
    assert Texts(g.pieces) == front + [PrintPiece(last)];
    assert Texts(g.pieces)[n := short] == front + [short];
    MixSnoc(front, seps, PrintPiece(last));
    MixSnoc(front, seps, short);
    PieceStart(g.pieces[0]);
    HeadStart(front, seps[..n]);
    TrimTail(MixHead(front, seps[..n]), last);
    ParsePrinted(last);
  }

  lemma HeadStart(front: seq<string>, seps: seq<string>)
    requires |seps| == |front| && (front != [] ==> front[0] != "" && !IsSpace(front[0][0]))
    ensures MixHead(front, seps) == "" || !IsSpace(MixHead(front, seps)[0])
  {
  }

  lemma {:induction false} PiecesParse(ps: seq<Piece>, texts: seq<string>)
    requires |texts| == |ps|
    requires forall i :: 0 <= i < |ps| ==> Printable(ps[i])
    requires forall i :: 0 <= i < |ps| ==> TrimSpace(texts[i]) == TrimSpace(PrintPiece(ps[i]))
    ensures ParseTerms(texts) == Ok(ExpectedTerms(ps))
  {
    hide ParseTerm, TrimSpace, Printable, PrintPiece;
    if ps != [] {
      var n := |ps| - 1;
      PiecesParse(ps[..n], texts[..n]);
      ParsePrinted(ps[n]);
      assert ExpectedTerms(ps) == ExpectedTerms(ps[..n]) + [Expected(ps[n])];
      assert texts == texts[..n] + [texts[n]];
      ParseTermsSnoc(texts[..n], texts[n], ExpectedTerms(ps[..n]), Expected(ps[n]));
    }
  }

  /** A printed piece, trimmed or not, has no comma and no keyword. */
  lemma PieceClean(p: Piece, k: string)
    requires Printable(p) && k in KEYWORDS
    ensures Free(PrintPiece(p), k) && ',' !in PrintPiece(p)
    ensures Free(TrimSpace(PrintPiece(p)), k) && ',' !in TrimSpace(PrintPiece(p))
  {
    hide TrimSpace, Free, Printable;
    PieceFree(p, k);
    PieceStart(p);
    TrimPrinted(p);
    HeadFree(p, k);
    assert Head(p) <= PrintPiece(p);
  }

  lemma GroupParses(g: Group)
    requires PrintableGroup(g)
    ensures ParseTerms(SplitAnd(TrimSpace(PrintGroup(g)))) == Ok(ExpectedTerms(g.pieces))
  {
    hide ParseTerms, SplitAnd, TrimSpace, Printable, Free, PrintPiece, Mix;
    var ps := g.pieces;
    var n := |ps| - 1;
    var short := TrimSpace(PrintPiece(ps[n]));
    var xs := Texts(ps)[n := short];
    TrimPrintedGroup(g);
    forall i | 0 <= i < |xs|
      ensures ',' !in xs[i] && Free(xs[i], " AND ") && Free(xs[i], " && ") && Seps(ps)[i] in AND_SEPARATORS
    {
      PieceClean(ps[i], " AND ");
      PieceClean(ps[i], " && ");
      SepOf(ps[i]);
    }
    SplitAndMixed(xs, Seps(ps));
    TrimSpaceTrims(PrintPiece(ps[n]));
    TrimSpaceTrims(short);
    PiecesParse(ps, xs);
  }

  lemma SepOf(p: Piece)
    requires Printable(p)
    ensures p.sep in AND_SEPARATORS
  {
  }

  lemma {:induction false} GroupsParse(gs: seq<Group>)
    requires forall i :: 0 <= i < |gs| ==> PrintableGroup(gs[i])
    ensures ParsePieces(GroupTexts(gs)) == Ok(ExpectedGroups(gs))
  {
    hide ParseTerms, SplitAnd, TrimSpace, PrintGroup, Printable;
    if gs != [] {
      var n := |gs| - 1;
      GroupsParse(gs[..n]);
      TrimPrintedGroup(gs[n]);
      GroupParses(gs[n]);
      assert ExpectedGroups(gs) == ExpectedGroups(gs[..n]) + [ExpectedTerms(gs[n].pieces)];
      assert GroupTexts(gs) == GroupTexts(gs[..n]) + [PrintGroup(gs[n])];
      ParsePiecesSnoc(GroupTexts(gs[..n]), PrintGroup(gs[n]), ExpectedGroups(gs[..n]), ExpectedTerms(gs[n].pieces));
    }
  }

  lemma GroupFree(g: Group, k: string)
    requires PrintableGroup(g) && (k == " OR " || k == " || ")
    ensures Free(PrintGroup(g), k)
  {
    hide Free, Printable, PrintPiece, Mix;
    var xs, seps := Texts(g.pieces), Seps(g.pieces);
    forall i | 0 <= i < |xs| ensures Free(xs[i], k) && seps[i] in AND_SEPARATORS {
      PieceFree(g.pieces[i], k);
      SepOf(g.pieces[i]);
    }
    MixFree(xs, seps, k);
  }

  /** The round trip: every printed filter, whatever separators and spaces it was printed with,
      parses to the groups it was printed from, with `==` read as `=`. */
  lemma RoundTrip(gs: seq<Group>)
    requires forall i :: 0 <= i < |gs| ==> PrintableGroup(gs[i])
    ensures ParseGroups(PrintFilter(gs)) == Ok(ExpectedGroups(gs))
  {
    hide ParsePieces, ReplaceAll, Mix, Free, Printable, PrintGroup;
    if gs == [] {
      EmptyExpression();
      GroupsParse([]);
      MixNothing();
    } else {
      var xs, seps := GroupTexts(gs), GroupSeps(gs);
      KeywordShapes(" || ");
      KeywordShapes(" OR ");
      forall i | 0 <= i < |xs|
        ensures Free(xs[i], " || ") && Free(xs[i], " OR ") && Separator(seps[i])
        ensures seps[i] == " OR " || seps[i] == " || "
      {
        GroupFree(gs[i], " || ");
        GroupFree(gs[i], " OR ");
        KeywordShapes(seps[i]);
      }
      MixReplace(xs, seps, " || ", " OR ");
      MixUniform(xs, Swap(seps, " || ", " OR "), " OR ");
      forall x | x in xs ensures Clean(x, " OR ") {
        FreeIsClean(x, " OR ");
      }
      SplitJoin(xs, " OR ");
      GroupsParse(gs);
    }
  }

  lemma MixNothing()
    ensures Mix([], []) == ""
  {
  }
}
