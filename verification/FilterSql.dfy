/** A reader for the SQL search conditions of section 8.12 of SQL-92 (AND binds tighter than
    OR, NOT tighter than AND, keywords in any letter case) whose tests compare a column with a
    parameter, and what compiled clauses mean under it. Which words are reserved differs between
    SQL systems, so the reserved words, in capitals, are a parameter. */
module FilterSql {
  import opened Common
  import opened GoStrings
  import opened Filter
  import opened FilterRoundTrip

  // ---- Reading SQL text ----

  datatype Token =
    | Word(text: string) | Compare(op: string) | Arrow | Quoted(text: string)
    | Param | Open | Close | Bad

  predicate CompareChar(c: char) {
    c == '<' || c == '>' || c == '=' || c == '!'
  }

  /** The length of the longest prefix of word characters. */
  function WordLen(s: string): (n: nat)
    ensures n <= |s| && (s != "" && FieldChar(s[0]) ==> 0 < n)
  {
    if s == "" || !FieldChar(s[0]) then 0 else 1 + WordLen(s[1..])
  }

  function CompareLen(s: string): (n: nat)
    ensures n <= |s| && (s != "" && CompareChar(s[0]) ==> 0 < n)
  {
    if s == "" || !CompareChar(s[0]) then 0 else 1 + CompareLen(s[1..])
  }

  function Lex(s: string): seq<Token>
    decreases |s|
  {
    if s == "" then []
    else if s[0] == ' ' then Lex(s[1..])
    else if s[0] == '(' then [Open] + Lex(s[1..])
    else if s[0] == ')' then [Close] + Lex(s[1..])
    else if s[0] == '?' then [Param] + Lex(s[1..])
    else if FieldChar(s[0]) then [Word(s[..WordLen(s)])] + Lex(s[WordLen(s)..])
    else if CompareChar(s[0]) then [Compare(s[..CompareLen(s)])] + Lex(s[CompareLen(s)..])
    else if "->>" <= s then [Arrow] + Lex(s[3..])
    else if s[0] == '\'' then
      var end := IndexFrom(s, "'", 1);
      if end < 0 then [Bad] else [Quoted(s[1..end])] + Lex(s[end + 1..])
    else [Bad]
  }

  datatype Column = Plain(name: string) | JsonKey(column: string, key: string)

  datatype Cond =
    | Test(column: Column, op: string)
    | Not(c: Cond)
    | And(left: Cond, right: Cond)
    | Or(left: Cond, right: Cond)

  function UpperChar(c: char): char {
    if 'a' <= c <= 'z' then (c as int - 32) as char else c
  }

  function Upper(s: string): string {
    seq(|s|, i requires 0 <= i < |s| => UpperChar(s[i]))
  }

  predicate Keyword(t: Token, k: string) {
    t.Word? && Upper(t.text) == k
  }

  const CONNECTIVES: set<string> := {"AND", "OR", "NOT"}

  /** A letter or underscore, then letters, digits and underscores, and not a reserved word. */
  predicate Identifier(word: string, reserved: set<string>) {
    && word != "" && !('0' <= word[0] <= '9')
    && (forall i :: 0 <= i < |word| ==> FieldChar(word[i]) && word[i] != '.')
    && Upper(word) !in reserved
  }

  /** A column reference (section 6.4): an identifier, qualified by up to three more. */
  predicate ColumnName(word: string, reserved: set<string>) {
    var parts := Split(word, ".");
    |parts| <= 4 && forall i :: 0 <= i < |parts| ==> Identifier(parts[i], reserved)
  }

  datatype Read = NoRead | Read(cond: Cond, rest: seq<Token>)

  /** `column op ?` or `column ->> 'key' op ?`. */
  function ReadTest(ts: seq<Token>, reserved: set<string>): (r: Read)
    ensures r.Read? ==> |r.rest| < |ts|
  {
    if |ts| >= 3 && ts[0].Word? && ColumnName(ts[0].text, reserved) && ts[1].Compare? && ts[2].Param? then
      Read(Test(Plain(ts[0].text), ts[1].op), ts[3..])
    else if |ts| >= 5 && ts[0].Word? && ColumnName(ts[0].text, reserved) && ts[1].Arrow? && ts[2].Quoted?
            && ts[3].Compare? && ts[4].Param? then
      Read(Test(JsonKey(ts[0].text, ts[2].text), ts[3].op), ts[5..])
    else NoRead
  }

  function ReadFactor(ts: seq<Token>, reserved: set<string>): (r: Read)
    ensures r.Read? ==> |r.rest| < |ts|
    decreases |ts|, 0
  {
    if ts != [] && Keyword(ts[0], "NOT") then
      match ReadFactor(ts[1..], reserved)
      case NoRead => NoRead
      case Read(c, rest) => Read(Not(c), rest)
    else if ts != [] && ts[0].Open? then
      match ReadOr(ts[1..], reserved)
      case NoRead => NoRead
      case Read(c, rest) => if rest != [] && rest[0].Close? then Read(c, rest[1..]) else NoRead
    else ReadTest(ts, reserved)
  }

  function ReadAnd(ts: seq<Token>, reserved: set<string>): (r: Read)
    ensures r.Read? ==> |r.rest| < |ts|
    decreases |ts|, 1
  {
    match ReadFactor(ts, reserved)
    case NoRead => NoRead
    case Read(c, rest) =>
      if rest != [] && Keyword(rest[0], "AND") then
        match ReadAnd(rest[1..], reserved)
        case NoRead => NoRead
        case Read(d, rest') => Read(And(c, d), rest')
      else Read(c, rest)
  }

  function ReadOr(ts: seq<Token>, reserved: set<string>): (r: Read)
    ensures r.Read? ==> |r.rest| < |ts|
    decreases |ts|, 2
  {
    match ReadAnd(ts, reserved)
    case NoRead => NoRead
    case Read(c, rest) =>
      if rest != [] && Keyword(rest[0], "OR") then
        match ReadOr(rest[1..], reserved)
        case NoRead => NoRead
        case Read(d, rest') => Read(Or(c, d), rest')
      else Read(c, rest)
  }

  function ReadSql(clause: string, reserved: set<string>): Option<Cond> {
    match ReadOr(Lex(clause), reserved)
    case NoRead => None
    case Read(c, rest) => if rest == [] then Some(c) else None
  }

  // ---- Evaluating a condition ----

  /** SQL truth values: comparisons with NULL are unknown. */
  datatype Truth = True | False | Unknown

  function Params(c: Cond): nat {
    match c
    case Test(_, _) => 1
    case Not(d) => Params(d)
    case And(l, r) => Params(l) + Params(r)
    case Or(l, r) => Params(l) + Params(r)
  }

  /** The value of a condition on a row whose comparisons are decided by `holds`, the i-th
      placeholder standing for the i-th argument. */
  function Eval(c: Cond, args: seq<string>, holds: (Column, string, string) -> Truth): Truth
    requires |args| == Params(c)
  {
    match c
    case Test(column, op) => holds(column, op, args[0])
    case Not(d) =>
      (match Eval(d, args, holds) case True => False case False => True case Unknown => Unknown)
    case And(l, r) =>
      var a, b := Eval(l, args[..Params(l)], holds), Eval(r, args[Params(l)..], holds);
      if a.False? || b.False? then False else if a.True? && b.True? then True else Unknown
    case Or(l, r) =>
      var a, b := Eval(l, args[..Params(l)], holds), Eval(r, args[Params(l)..], holds);
      if a.True? || b.True? then True else if a.False? && b.False? then False else Unknown
  }

  // ---- The tokens of a compiled clause ----

  function ColumnOf(field: string): Column {
    if LABELS <= field then JsonKey("labels", field[|LABELS|..])
    else if ANNOTATIONS <= field then JsonKey("annotations", field[|ANNOTATIONS|..])
    else Plain(field)
  }

  function TermTokens(t: Term): seq<Token> {
    match ColumnOf(t.field)
    case Plain(name) => [Word(name), Compare(t.op), Param]
    case JsonKey(column, key) => [Word(column), Arrow, Quoted(key), Compare(t.op), Param]
  }

  function GroupTokens(g: seq<Term>): seq<Token>
    requires g != []
  {
    if |g| == 1 then TermTokens(g[0]) else TermTokens(g[0]) + [Word("AND")] + GroupTokens(g[1..])
  }

  function WrappedTokens(g: seq<Term>): seq<Token>
    requires g != []
  {
    [Open] + GroupTokens(g) + [Close]
  }

  predicate NonEmpty(gs: seq<seq<Term>>) {
    gs != [] && forall i :: 0 <= i < |gs| ==> gs[i] != []
  }

  function ClauseTokens(gs: seq<seq<Term>>): seq<Token>
    requires NonEmpty(gs)
  {
    if |gs| == 1 then WrappedTokens(gs[0])
    else WrappedTokens(gs[0]) + [Word("OR")] + ClauseTokens(gs[1..])
  }

  /** A term as the compiler emits it: a valid field and a normalised operator. */
  predicate Emitted(t: Term) {
    ValidField(t.field) && t.op in OPERATORS
  }

  predicate EmittedGroup(g: seq<Term>) {
    g != [] && forall t :: t in g ==> Emitted(t)
  }

  predicate EmittedGroups(gs: seq<seq<Term>>) {
    NonEmpty(gs) && forall i :: 0 <= i < |gs| ==> EmittedGroup(gs[i])
  }

  lemma {:induction false} WordLenExact(w: string, rest: string)
    requires forall i :: 0 <= i < |w| ==> FieldChar(w[i])
    requires rest == "" || !FieldChar(rest[0])
    ensures WordLen(w + rest) == |w|
  {
    if w == "" {
      assert w + rest == rest;
    } else {
      assert (w + rest)[1..] == w[1..] + rest;
      WordLenExact(w[1..], rest);
    }
  }

  lemma LexSpace(s: string)
    ensures Lex(" " + s) == Lex(s)
  {
    assert (" " + s)[1..] == s;
  }

  lemma LexWord(w: string, rest: string)
    requires w != "" && forall i :: 0 <= i < |w| ==> FieldChar(w[i])
    requires rest == "" || !FieldChar(rest[0])
    ensures Lex(w + rest) == [Word(w)] + Lex(rest)
  {
    WordLenExact(w, rest);
    var s := w + rest;
    assert FieldChar(s[0]);
    assert s[..|w|] == w && s[|w|..] == rest;
  }

  lemma LexCompare(op: string, rest: string)
    requires op in OPERATORS
    ensures Lex(op + " " + rest) == [Compare(op)] + Lex(rest)
  {
    var s := op + " " + rest;
    assert CompareChar(s[0]);
    assert s[|op|] == ' ';
    assert s[1..][0] == s[1];
    if |op| == 2 {
      assert CompareChar(s[1]);
      assert s[2..][0] == ' ' && s[1..][1..] == s[2..];
      assert CompareLen(s[2..]) == 0 && CompareLen(s[1..]) == 1;
    } else {
      assert CompareLen(s[1..]) == 0;
    }
    assert CompareLen(s) == |op|;
    assert s[..|op|] == op && s[|op|..] == " " + rest;
    LexSpace(rest);
  }

  lemma LexArrow(rest: string)
    ensures Lex("->>" + rest) == [Arrow] + Lex(rest)
  {
    assert ("->>" + rest)[3..] == rest;
  }

  lemma LexQuoted(key: string, rest: string)
    requires forall i :: 0 <= i < |key| ==> FieldChar(key[i])
    ensures Lex("'" + key + "'" + rest) == [Quoted(key)] + Lex(rest)
  {
    var s := "'" + key + "'" + rest;
    var end := |key| + 1;
    assert s[end..end + 1] == "'";
    forall j | 1 <= j < end ensures !MatchesAt(s, "'", j) {
      assert s[j] == key[j - 1] && FieldChar(key[j - 1]);
      NoMatchAt(s, "'", j, 0);
    }
    assert IndexFrom(s, "'", 1) == end by { assert MatchesAt(s, "'", end); }
    assert s[1..end] == key && s[end + 1..] == rest;
  }

  lemma LexMark(c: char, rest: string)
    requires c == '?' || c == '(' || c == ')'
    ensures Lex([c] + rest) == [if c == '?' then Param else if c == '(' then Open else Close] + Lex(rest)
  {
    assert ([c] + rest)[1..] == rest;
  }

  lemma LexJson(column: string, key: string, rest: string)
    requires column == "labels" || column == "annotations"
    requires forall i :: 0 <= i < |key| ==> FieldChar(key[i])
    ensures Lex(column + "->>'" + key + "'" + rest) == [Word(column), Arrow, Quoted(key)] + Lex(rest)
  {
    hide Lex;
    var quoted := "'" + key + "'" + rest;
    LexWord(column, "->>" + quoted);
    LexArrow(quoted);
    LexQuoted(key, rest);
    assert column + "->>'" + key + "'" + rest == column + ("->>" + quoted);
  }

  lemma SpaceIsNoFieldChar()
    ensures !FieldChar(' ')
  {
  }

  /** The text of one column reference lexes to the start of its term's tokens. */
  lemma LexColumn(field: string, rest: string)
    requires ValidField(field) && rest != "" && rest[0] == ' '
    ensures Lex(FieldToSql(field) + rest) ==
            (match ColumnOf(field)
             case Plain(name) => [Word(name)]
             case JsonKey(column, key) => [Word(column), Arrow, Quoted(key)]) + Lex(rest)
  {
    hide Lex, FieldChar;
    if LABELS <= field {
      var key := field[|LABELS|..];
      LexJson("labels", key, rest);
      assert "labels" + "->>'" == "labels->>'";
    } else if ANNOTATIONS <= field {
      var key := field[|ANNOTATIONS|..];
      LexJson("annotations", key, rest);
      assert "annotations" + "->>'" == "annotations->>'";
    } else {
      assert !FieldChar(rest[0]) by { SpaceIsNoFieldChar(); }
      LexWord(field, rest);
    }
  }

  /** The text of one emitted term lexes to its tokens, whatever follows. */
  lemma LexTerm(t: Term, rest: string)
    requires Emitted(t)
    ensures Lex(TermToSql(t) + rest) == TermTokens(t) + Lex(rest)
  {
    hide Lex, FieldToSql, ColumnOf;
    var tail := t.op + " " + ("?" + rest);
    LexCompare(t.op, "?" + rest);
    LexMark('?', rest);
    LexSpace(tail);
    LexColumn(t.field, " " + tail);
    assert TermToSql(t) + rest == FieldToSql(t.field) + (" " + tail);
  }

  lemma {:induction false} LexGroup(g: seq<Term>, rest: string)
    requires EmittedGroup(g)
    ensures Lex(GroupToSql(g) + rest) == GroupTokens(g) + Lex(rest)
    decreases |g|
  {
    hide Lex, TermToSql, TermTokens;
    var cs := TermClauses(g);
    if |g| == 1 {
      LexTerm(g[0], rest);
    } else {
      var tail := GroupToSql(g[1..]) + rest;
      assert cs[1..] == TermClauses(g[1..]);
      LexGroup(g[1..], rest);
      LexKeyword("AND", tail);
      assert " " + "AND" + " " + tail == " AND " + tail;
      LexTerm(g[0], " AND " + tail);
      assert GroupToSql(g) + rest == TermToSql(g[0]) + (" AND " + tail);
      assert TermTokens(g[0]) + ([Word("AND")] + (GroupTokens(g[1..]) + Lex(rest))) == GroupTokens(g) + Lex(rest);
    }
  }

  lemma LexKeyword(k: string, rest: string)
    requires k == "AND" || k == "OR"
    ensures Lex(" " + k + " " + rest) == [Word(k)] + Lex(rest)
  {
    hide Lex;
    LexSpace(rest);
    LexWord(k, " " + rest);
    LexSpace(k + (" " + rest));
    assert " " + k + " " + rest == " " + (k + (" " + rest));
  }

  lemma LexWrapped(g: seq<Term>, rest: string)
    requires EmittedGroup(g)
    ensures Lex("(" + GroupToSql(g) + ")" + rest) == WrappedTokens(g) + Lex(rest)
  {
    hide Lex, GroupToSql, GroupTokens;
    LexMark('(', GroupToSql(g) + (")" + rest));
    LexGroup(g, ")" + rest);
    LexMark(')', rest);
    assert "(" + GroupToSql(g) + ")" + rest == "(" + (GroupToSql(g) + (")" + rest));
  }

  lemma {:induction false} LexClause(gs: seq<seq<Term>>)
    requires EmittedGroups(gs)
    ensures Lex(Join(Parenthesized(GroupClauses(gs)), " OR ")) == ClauseTokens(gs)
  {
    hide Lex, GroupToSql, WrappedTokens;
    var ps := Parenthesized(GroupClauses(gs));
    if |gs| == 1 {
      LexWrapped(gs[0], "");
      LexEnd();
      assert ps[0] == "(" + GroupToSql(gs[0]) + ")" + "";
    } else {
      var tail := Join(Parenthesized(GroupClauses(gs[1..])), " OR ");
      assert ps[1..] == Parenthesized(GroupClauses(gs[1..]));
      LexClause(gs[1..]);
      LexKeyword("OR", tail);
      assert " " + "OR" + " " + tail == " OR " + tail;
      LexWrapped(gs[0], " OR " + tail);
      assert Join(ps, " OR ") == "(" + GroupToSql(gs[0]) + ")" + (" OR " + tail);
      assert WrappedTokens(gs[0]) + ([Word("OR")] + ClauseTokens(gs[1..])) == ClauseTokens(gs);
    }
  }

  lemma LexEnd()
    ensures Lex("") == []
  {
  }

  // ---- What the reader makes of those tokens ----

  /** The word that stands for the column of a field. */
  function ColumnWord(field: string): string {
    match ColumnOf(field)
    case Plain(name) => name
    case JsonKey(column, _) => column
  }

  /** Every term of the group tests a column. */
  predicate Readable(g: seq<Term>, reserved: set<string>) {
    forall t :: t in g ==> ColumnName(ColumnWord(t.field), reserved)
  }

  function GroupCond(g: seq<Term>): Cond
    requires g != []
  {
    var first := Test(ColumnOf(g[0].field), g[0].op);
    if |g| == 1 then first else And(first, GroupCond(g[1..]))
  }

  function ClauseCond(gs: seq<seq<Term>>): Cond
    requires NonEmpty(gs)
  {
    if |gs| == 1 then GroupCond(gs[0]) else Or(GroupCond(gs[0]), ClauseCond(gs[1..]))
  }

  lemma ConnectiveIsNoColumn(word: string, reserved: set<string>)
    requires CONNECTIVES <= reserved && Upper(word) in CONNECTIVES
    ensures !ColumnName(word, reserved)
  {
    assert forall i :: 0 <= i < |word| ==> Upper(word)[i] == UpperChar(word[i]);
    NoColumn(word, reserved);
  }

  lemma PlainNames()
    ensures Keyword(Word("AND"), "AND") && Keyword(Word("OR"), "OR") && !Keyword(Word("OR"), "AND")
    ensures !Keyword(Word("labels"), "NOT") && !Keyword(Word("annotations"), "NOT")
  {
    assert |Upper("labels")| == 6 && |Upper("annotations")| == 11;
    assert Upper("AND") == "AND" && Upper("OR") == "OR";
  }

  lemma ReadTerm(t: Term, rest: seq<Token>, reserved: set<string>)
    requires CONNECTIVES <= reserved
    ensures ReadFactor(TermTokens(t) + rest, reserved) ==
            if ColumnName(ColumnWord(t.field), reserved) then Read(Test(ColumnOf(t.field), t.op), rest) else NoRead
  {
    hide ColumnName, Upper;
    PlainNames();
    var ts := TermTokens(t) + rest;
    if ColumnOf(t.field).Plain? {
      assert ts[0] == Word(t.field) && ts[1] == Compare(t.op) && ts[2] == Param && ts[3..] == rest;
      if Keyword(ts[0], "NOT") {
        ConnectiveIsNoColumn(t.field, reserved);
        var us := ts[1..];
        assert us[0].Compare? && ReadTest(us, reserved) == NoRead;
        assert ReadFactor(us, reserved) == NoRead;
      }
    } else {
      assert ts[1] == Arrow && ts[5..] == rest;
    }
  }

  /** One group reads as the conjunction of its terms, or not at all. */
  lemma {:induction false} ReadGroup(g: seq<Term>, rest: seq<Token>, reserved: set<string>)
    requires CONNECTIVES <= reserved && g != [] && (rest == [] || !Keyword(rest[0], "AND"))
    ensures ReadAnd(GroupTokens(g) + rest, reserved) ==
            if Readable(g, reserved) then Read(GroupCond(g), rest) else NoRead
    decreases |g|
  {
    PlainNames();
    hide ReadFactor, TermTokens, ColumnName;
    if |g| == 1 {
      ReadTerm(g[0], rest, reserved);
    } else {
      var more := [Word("AND")] + (GroupTokens(g[1..]) + rest);
      ReadTerm(g[0], more, reserved);
      ReadGroup(g[1..], rest, reserved);
      assert GroupTokens(g) + rest == TermTokens(g[0]) + more;
      assert more[1..] == GroupTokens(g[1..]) + rest;
      assert Readable(g, reserved) <==> ColumnName(ColumnWord(g[0].field), reserved) && Readable(g[1..], reserved);
    }
  }

  lemma ReadSingle(g: seq<Term>, rest: seq<Token>, reserved: set<string>)
    requires CONNECTIVES <= reserved && g != [] && (rest == [] || rest[0].Close?)
    ensures ReadOr(GroupTokens(g) + rest, reserved) ==
            if Readable(g, reserved) then Read(GroupCond(g), rest) else NoRead
  {
    ReadGroup(g, rest, reserved);
  }

  lemma ReadWrapped(g: seq<Term>, rest: seq<Token>, reserved: set<string>)
    requires CONNECTIVES <= reserved && g != []
    ensures ReadFactor(WrappedTokens(g) + rest, reserved) ==
            if Readable(g, reserved) then Read(GroupCond(g), rest) else NoRead
  {
    var ts := WrappedTokens(g) + rest;
    assert ts[0] == Open && ts[1..] == GroupTokens(g) + ([Close] + rest);
    ReadSingle(g, [Close] + rest, reserved);
    assert ([Close] + rest)[1..] == rest;
  }

  /** The parenthesised groups read as the disjunction of the group conditions, or not at all. */
  lemma {:induction false} ReadClause(gs: seq<seq<Term>>, reserved: set<string>)
    requires CONNECTIVES <= reserved && NonEmpty(gs)
    ensures ReadOr(ClauseTokens(gs), reserved) ==
            if forall g :: g in gs ==> Readable(g, reserved) then Read(ClauseCond(gs), []) else NoRead
  {
    PlainNames();
    hide ReadFactor, WrappedTokens, Readable;
    assert gs[0] in gs;
    if |gs| == 1 {
      ReadWrapped(gs[0], [], reserved);
      assert ClauseTokens(gs) == WrappedTokens(gs[0]) + [];
    } else {
      var more := [Word("OR")] + ClauseTokens(gs[1..]);
      ReadWrapped(gs[0], more, reserved);
      ReadClause(gs[1..], reserved);
      assert ClauseTokens(gs) == WrappedTokens(gs[0]) + more;
      assert more[1..] == ClauseTokens(gs[1..]);
      assert gs == [gs[0]] + gs[1..];
      assert (forall g :: g in gs ==> Readable(g, reserved)) <==>
             Readable(gs[0], reserved) && forall g :: g in gs[1..] ==> Readable(g, reserved);
    }
  }

  // ---- Meaning ----

  predicate TermHolds(t: Term, holds: (Column, string, string) -> Truth) {
    holds(ColumnOf(t.field), t.op, t.value) == True
  }

  predicate GroupHolds(g: seq<Term>, holds: (Column, string, string) -> Truth) {
    forall t :: t in g ==> TermHolds(t, holds)
  }

  lemma {:induction false} EvalGroup(g: seq<Term>, holds: (Column, string, string) -> Truth)
    requires g != []
    ensures Params(GroupCond(g)) == |g|
    ensures Eval(GroupCond(g), GroupValues(g), holds) == True <==> GroupHolds(g, holds)
  {
    assert g == [g[0]] + g[1..];
    assert GroupHolds(g, holds) <==> TermHolds(g[0], holds) && GroupHolds(g[1..], holds);
    if |g| > 1 {
      EvalGroup(g[1..], holds);
      var vs := GroupValues(g);
      assert vs[..1] == [g[0].value] && vs[1..] == GroupValues(g[1..]);
    }
  }

  lemma {:induction false} ValuesCons(gs: seq<seq<Term>>)
    requires gs != []
    ensures Values(gs) == GroupValues(gs[0]) + Values(gs[1..])
  {
    hide GroupValues, Values;
    var n := |gs| - 1;
    var front, last := gs[..n], gs[n];
    assert gs == front + [last];
    GroupClausesExtend(front, last);
    if n == 0 {
      assert front == [] && gs[1..] == [];
      NoValues();
    } else {
      ValuesCons(front);
      assert gs[1..] == front[1..] + [last];
      GroupClausesExtend(front[1..], last);
    }
  }

  lemma NoValues()
    ensures Values([]) == []
  {
  }

  lemma {:induction false} EvalClause(gs: seq<seq<Term>>, holds: (Column, string, string) -> Truth)
    requires NonEmpty(gs)
    ensures Params(ClauseCond(gs)) == |Values(gs)|
    ensures Eval(ClauseCond(gs), Values(gs), holds) == True <==>
            exists g :: g in gs && GroupHolds(g, holds)
  {
    hide GroupHolds;
    ValuesCons(gs);
    var first := gs[0];
    assert first in gs;
    EvalGroup(first, holds);
    if |gs| == 1 {
      assert Values(gs) == GroupValues(first);
    } else {
      var rest := gs[1..];
      EvalClause(rest, holds);
      var n := |first|;
      assert Values(gs)[..n] == GroupValues(first) && Values(gs)[n..] == Values(rest);
      assert gs == [first] + rest;
    }
  }

  // ---- What parsing guarantees ----

  lemma NormalOpIsOperator(op: string)
    requires op in OPERATORS
    ensures NormalOp(op) in OPERATORS
  {
    assert OPERATORS[6] == "=";
  }

  lemma {:induction false} ScanFindsOperator(s: string, i: nat)
    ensures ScanOperator(s, i).Some? ==> ScanOperator(s, i).value.1 in OPERATORS
    decreases |s| - i
  {
    if i < |s| {
      var ops := OPERATORS;
      assert ops[0] in ops && ops[1] in ops && ops[2] in ops && ops[3] in ops;
      assert ops[4] in ops && ops[5] in ops && ops[6] in ops;
      ScanFindsOperator(s, i + 1);
    }
  }

  lemma ParsedTermEmitted(piece: string)
    ensures ParseTerm(piece).Ok? ==> Emitted(ParseTerm(piece).value)
  {
    hide ScanOperator, TrimSpace, ValidField;
    ScanFindsOperator(piece, 0);
    if ScanOperator(piece, 0).Some? {
      NormalOpIsOperator(ScanOperator(piece, 0).value.1);
    }
  }

  lemma {:induction false} ParsedTermsEmitted(pieces: seq<string>)
    ensures ParseTerms(pieces).Ok? ==> forall t :: t in ParseTerms(pieces).value ==> Emitted(t)
  {
    hide ParseTerm, TrimSpace, Emitted;
    if pieces != [] {
      ParsedTermsEmitted(pieces[..|pieces| - 1]);
      ParsedTermEmitted(TrimSpace(pieces[|pieces| - 1]));
    }
  }

  lemma {:induction false} ParsedGroupsEmitted(pieces: seq<string>)
    ensures ParsePieces(pieces).Ok? ==> forall g :: g in ParsePieces(pieces).value ==> EmittedGroup(g)
  {
    hide ParseTerms, TrimSpace, SplitAnd, Emitted;
    if pieces != [] {
      ParsedGroupsEmitted(pieces[..|pieces| - 1]);
      ParsedTermsEmitted(SplitAnd(TrimSpace(pieces[|pieces| - 1])));
    }
  }

  // ---- Placeholders ----

  /** How many placeholders a text holds. */
  ghost function Marks(s: string): nat {
    multiset(s)['?']
  }

  lemma MarksInField(field: string)
    requires ValidField(field)
    ensures Marks(FieldToSql(field)) == 0
  {
    hide Marks;
    var sql := FieldToSql(field);
    forall i | 0 <= i < |sql| ensures sql[i] != '?' {
      var skip := if LABELS <= field then |LABELS| else |ANNOTATIONS|;
      if sql != field && skip + 3 <= i < |sql| - 1 {
        assert sql[i] == field[i - 3] && FieldChar(field[i - 3]);
      } else if sql == field {
        assert FieldChar(sql[i]);
      }
    }
    MarksAbsent(sql);
  }

  lemma MarksAbsent(s: string)
    requires forall i :: 0 <= i < |s| ==> s[i] != '?'
    ensures Marks(s) == 0
  {
    assert '?' !in s;
  }

  lemma MarksInTerm(t: Term)
    requires Emitted(t)
    ensures Marks(TermToSql(t)) == 1
  {
    hide FieldToSql;
    MarksInField(t.field);
    assert '?' !in t.op;
    assert Marks(t.op) == 0;
    assert Marks(" ") == 0 && Marks(" ?") == 1;
  }

  lemma MarksJoin(a: string, sep: string, b: string)
    ensures Marks(a + sep + b) == Marks(a) + Marks(sep) + Marks(b)
  {
  }

  lemma {:induction false} MarksInGroup(g: seq<Term>)
    requires EmittedGroup(g)
    ensures Marks(GroupToSql(g)) == |g|
  {
    hide TermToSql, Marks, Emitted;
    MarksInTerm(g[0]);
    if |g| > 1 {
      assert TermClauses(g)[1..] == TermClauses(g[1..]);
      MarksInGroup(g[1..]);
      MarksJoin(TermToSql(g[0]), " AND ", GroupToSql(g[1..]));
      MarksAbsent(" AND ");
    }
  }

  lemma {:induction false} MarksInClause(gs: seq<seq<Term>>)
    requires EmittedGroups(gs)
    ensures Marks(Join(Parenthesized(GroupClauses(gs)), " OR ")) == |Values(gs)|
  {
    hide GroupToSql, Marks, Values;
    ValuesCons(gs);
    MarksInGroup(gs[0]);
    MarksJoin("(", GroupToSql(gs[0]), ")");
    MarksAbsent("(");
    MarksAbsent(")");
    if |gs| > 1 {
      var rest := Parenthesized(GroupClauses(gs[1..]));
      assert Parenthesized(GroupClauses(gs))[1..] == rest;
      MarksInClause(gs[1..]);
      MarksJoin("(" + GroupToSql(gs[0]) + ")", " OR ", Join(rest, " OR "));
      MarksAbsent(" OR ");
    } else {
      NoValues();
    }
  }

  /** Every accepted filter, reserved fields or not, has exactly one `?` per argument. */
  lemma OneMarkPerArgument(expr: string)
    requires ParseGroups(expr).Ok?
    ensures Marks(ToSql(ParseGroups(expr).value)) == |Values(ParseGroups(expr).value)|
  {
    hide ParsePieces, SplitOr, GroupToSql;
    var gs := ParseGroups(expr).value;
    ParsedGroupsEmitted(SplitOr(expr));
    assert forall i :: 0 <= i < |gs| ==> EmittedGroup(gs[i]);
    if |gs| == 1 {
      ValuesCons(gs);
      MarksInGroup(gs[0]);
    } else if |gs| > 1 {
      MarksInClause(gs);
    }
  }

  // ---- Main results ----

  /** An accepted filter compiles to a SQL condition on columns exactly when every plain field is
      a column name: one to four identifiers joined by dots, none of them a reserved word. (A
      field under `labels.` or `annotations.` tests the column of that name.) */
  lemma ClauseReadableIff(expr: string, reserved: set<string>)
    requires CONNECTIVES <= reserved
    requires ParseGroups(expr).Ok? && ParseGroups(expr).value != []
    ensures var gs := ParseGroups(expr).value;
      ReadSql(ToSql(gs), reserved).Some? <==>
      forall g, t :: g in gs && t in g ==> ColumnName(ColumnWord(t.field), reserved)
  {
    hide ParsePieces, SplitOr, Lex, ReadOr, ColumnName, ColumnWord;
    var gs := ParseGroups(expr).value;
    ParsedGroupsEmitted(SplitOr(expr));
    assert forall i :: 0 <= i < |gs| ==> EmittedGroup(gs[i]);
    ReadEmitted(gs, reserved);
  }

  lemma ReadEmitted(gs: seq<seq<Term>>, reserved: set<string>)
    requires CONNECTIVES <= reserved && EmittedGroups(gs)
    ensures ReadSql(ToSql(gs), reserved) ==
            if forall g :: g in gs ==> Readable(g, reserved) then Some(ClauseCond(gs)) else None
  {
    hide Lex, ReadOr, Readable, GroupTokens, EmittedGroup;
    if |gs| == 1 {
      LexGroup(gs[0], "");
      LexEnd();
      ReadSingle(gs[0], [], reserved);
      assert GroupToSql(gs[0]) + "" == GroupToSql(gs[0]);
      assert GroupTokens(gs[0]) + [] == GroupTokens(gs[0]);
      assert forall g :: g in gs ==> g == gs[0];
    } else {
      LexClause(gs);
      ReadClause(gs, reserved);
    }
  }

  /** The condition a clause denotes has one placeholder per argument and is true of a row
      exactly when some OR-group has all its terms true. */
  lemma ClauseMeaning(expr: string, reserved: set<string>, holds: (Column, string, string) -> Truth)
    requires CONNECTIVES <= reserved && ParseGroups(expr).Ok?
    requires forall g, t :: g in ParseGroups(expr).value && t in g ==> ColumnName(ColumnWord(t.field), reserved)
    ensures var gs := ParseGroups(expr).value;
      && (gs == [] <==> ToSql(gs) == "")
      && (gs == [] ==> Values(gs) == [])
      && (gs != [] ==>
          && ReadSql(ToSql(gs), reserved).Some?
          && Params(ReadSql(ToSql(gs), reserved).value) == |Values(gs)|
          && (Eval(ReadSql(ToSql(gs), reserved).value, Values(gs), holds) == True <==>
              exists g :: g in gs && forall t :: t in g ==> TermHolds(t, holds)))
  {
    hide ParsePieces, SplitOr, ReadSql, TermHolds, ColumnName, ColumnWord;
    var gs := ParseGroups(expr).value;
    ParsedGroupsEmitted(SplitOr(expr));
    assert forall i :: 0 <= i < |gs| ==> EmittedGroup(gs[i]);
    if gs != [] {
      ReadEmitted(gs, reserved);
      EvalClause(gs, holds);
      NonEmptyClause(gs);
    }
  }

  // ---- Accepted filters whose clause is not such a condition ----

  lemma TestPrintable(p: Piece)
    requires ValidField(p.term.field) && p.term.field != "AND" && p.term.field != "OR"
    requires p.term.op == "=" && p.term.value == "1" && p.sep == ","
    ensures Printable(p)
  {
    hide Free, ValidField;
    forall k | k in KEYWORDS ensures Free("1", k) {
      OneIsFree(k);
    }
    assert "1"[0] == '1' && !IsSpace('1');
    assert ',' !in "1";
    assert !("=" <= "1");
    assert OPERATORS[6] == "=" && AND_SEPARATORS[0] == ",";
  }

  lemma OneIsFree(k: string)
    requires k in KEYWORDS
    ensures Free("1", k)
  {
    hide Free;
    KeywordShapes(k);
    assert Pad("1")[1] == '1';
    FreeWord("1", k);
  }

  /** A filter of one term that compares a field with `1`. */
  lemma SingleTerm(field: string)
    requires ValidField(field) && field != "AND" && field != "OR"
    ensures ParseGroups(field + "=1") == Ok([[Term(field, "=", "1")]])
  {
    hide ParseGroups, Printable;
    var p := Piece(Term(field, "=", "1"), false, ",");
    var gs := [Group([p], " OR ")];
    TestPrintable(p);
    assert OR_SEPARATORS[0] == " OR ";
    RoundTrip(gs);
    assert field + "=" + "1" == field + "=1";
    assert Texts([p]) == [field + "=1"] && GroupTexts(gs) == [field + "=1"];
    assert ExpectedTerms([p]) == [p.term];
    assert ExpectedGroups(gs) == [[p.term]];
  }

  /** The compiler accepts `NOT=1`, `..=1` and a reserved word as field; none of their clauses
      can be read. */
  lemma AcceptedButUnreadable(reserved: set<string>)
    requires CONNECTIVES <= reserved
    ensures ParseGroups("NOT=1").Ok? && ReadSql(ToSql(ParseGroups("NOT=1").value), reserved) == None
    ensures ParseGroups("..=1").Ok? && ReadSql(ToSql(ParseGroups("..=1").value), reserved) == None
    ensures "SELECT" in reserved ==>
      ParseGroups("SELECT=1").Ok? && ReadSql(ToSql(ParseGroups("SELECT=1").value), reserved) == None
  {
    hide ReadSql, ToSql, ParseGroups, ColumnName;
    assert "NOT" + "=1" == "NOT=1" && ".." + "=1" == "..=1" && "SELECT" + "=1" == "SELECT=1";
    assert Upper("NOT") == "NOT" && Upper("SELECT") == "SELECT";
    UnreadableField("NOT", reserved) by { NoColumn("NOT", reserved); }
    UnreadableField("..", reserved) by { DotsAreNoColumn(reserved); }
    if "SELECT" in reserved {
      UnreadableField("SELECT", reserved) by { NoColumn("SELECT", reserved); }
    }
  }

  lemma UnreadableField(field: string, reserved: set<string>)
    requires CONNECTIVES <= reserved && ValidField(field) && field != "AND" && field != "OR"
    requires ColumnOf(field).Plain? && !ColumnName(field, reserved)
    ensures ParseGroups(field + "=1").Ok? && ReadSql(ToSql(ParseGroups(field + "=1").value), reserved) == None
  {
    hide ReadSql, ToSql, ParseGroups, ColumnName;
    SingleTerm(field);
    var t := Term(field, "=", "1");
    var gs := ParseGroups(field + "=1").value;
    assert [t] in gs && t in [t];
    ClauseReadableIff(field + "=1", reserved);
  }

  lemma NoColumn(word: string, reserved: set<string>)
    requires '.' !in word && Upper(word) in reserved
    ensures !ColumnName(word, reserved)
  {
    forall i ensures !MatchesAt(word, ".", i) {
      NoMatchAt(word, ".", i, 0);
    }
    SplitAbsent(word, ".");
    assert !Identifier(Split(word, ".")[0], reserved);
  }

  lemma DotsAreNoColumn(reserved: set<string>)
    ensures !ColumnName("..", reserved)
  {
    assert MatchesAt("..", ".", 0);
    assert Split("..", ".")[0] == "";
    assert !Identifier("", reserved);
  }

  lemma NonEmptyClause(gs: seq<seq<Term>>)
    requires gs != [] && EmittedGroup(gs[0])
    ensures ToSql(gs) != ""
  {
    assert TermClauses(gs[0])[0] == TermToSql(gs[0][0]);
  }
}
