/** The filter compiler: text to OR-groups of AND-terms to a SQL condition with arguments. */
module Filter {
  import opened Common
  import opened GoStrings

  datatype Term = Term(field: string, op: string, value: string)

  datatype FilterError =
    | MissingOperator(term: string)
    | EmptyField(term: string)
    | InvalidField(term: string, field: string)

  /** A WHERE clause and the values bound to its placeholders. */
  datatype Compiled = Compiled(clause: string, args: seq<string>)

  const OPERATORS: seq<string> := [">=", "<=", "!=", "==", ">", "<", "="]

  const LABELS := "labels."
  const ANNOTATIONS := "annotations."
  const JSONB_PREFIXES: seq<string> := [LABELS, ANNOTATIONS]

  // ---- What the compiler computes ----

  /** The longest operator that starts at position `i`. */
  function OperatorAt(s: string, i: nat): Option<string> {
    if MatchesAt(s, ">=", i) then Some(">=")
    else if MatchesAt(s, "<=", i) then Some("<=")
    else if MatchesAt(s, "!=", i) then Some("!=")
    else if MatchesAt(s, "==", i) then Some("==")
    else if MatchesAt(s, ">", i) then Some(">")
    else if MatchesAt(s, "<", i) then Some("<")
    else if MatchesAt(s, "=", i) then Some("=")
    else None
  }

  /** Reading left to right, the first position that starts an operator. */
  function ScanOperator(s: string, i: nat): (r: Option<(nat, string)>)
    ensures r.Some? ==> MatchesAt(s, r.value.1, r.value.0)
    decreases |s| - i
  {
    if |s| <= i then None
    else match OperatorAt(s, i)
      case Some(op) => Some((i, op))
      case None => ScanOperator(s, i + 1)
  }

  predicate FieldChar(c: char) {
    'a' <= c <= 'z' || 'A' <= c <= 'Z' || '0' <= c <= '9' || c == '_' || c == '.'
  }

  predicate ValidField(name: string) {
    0 < |name| <= 64 && forall i :: 0 <= i < |name| ==> FieldChar(name[i])
  }

  function NormalOp(op: string): string {
    if op == "==" then "=" else op
  }

  function SplitTerm(term: string): Result<Term, FilterError> {
    match ScanOperator(term, 0)
    case None => Err(MissingOperator(term))
    case Some((i, op)) => Ok(Term(TrimSpace(term[..i]), op, TrimSpace(term[i + |op|..])))
  }

  function ParseTerm(term: string): Result<Term, FilterError> {
    match SplitTerm(term)
    case Err(e) => Err(e)
    case Ok(t) =>
      if t.field == "" then Err(EmptyField(term))
      else if !ValidField(t.field) then Err(InvalidField(term, t.field))
      else Ok(t.(op := NormalOp(t.op)))
  }

  function SplitOr(expr: string): seq<string> {
    Split(ReplaceAll(expr, " || ", " OR "), " OR ")
  }

  function SplitAnd(expr: string): seq<string> {
    Split(ReplaceAll(ReplaceAll(expr, " AND ", ","), " && ", ","), ",")
  }

  /** The terms of one OR-group; blank pieces are skipped and the first bad piece is the error. */
  function ParseTerms(pieces: seq<string>): Result<seq<Term>, FilterError> {
    if pieces == [] then Ok([])
    else match ParseTerms(pieces[..|pieces| - 1])
      case Err(e) => Err(e)
      case Ok(done) =>
        var piece := TrimSpace(pieces[|pieces| - 1]);
        if piece == "" then Ok(done)
        else match ParseTerm(piece)
          case Err(e) => Err(e)
          case Ok(t) => Ok(done + [t])
  }

  /** The OR-groups that have at least one term. */
  function ParsePieces(pieces: seq<string>): Result<seq<seq<Term>>, FilterError> {
    if pieces == [] then Ok([])
    else match ParsePieces(pieces[..|pieces| - 1])
      case Err(e) => Err(e)
      case Ok(done) =>
        var group := TrimSpace(pieces[|pieces| - 1]);
        if group == "" then Ok(done)
        else match ParseTerms(SplitAnd(group))
          case Err(e) => Err(e)
          case Ok(terms) => if terms == [] then Ok(done) else Ok(done + [terms])
  }

  function ParseGroups(expr: string): Result<seq<seq<Term>>, FilterError> {
    ParsePieces(SplitOr(expr))
  }

  function FieldToSql(field: string): string {
    if LABELS <= field then "labels->>'" + field[|LABELS|..] + "'"
    else if ANNOTATIONS <= field then "annotations->>'" + field[|ANNOTATIONS|..] + "'"
    else field
  }

  function TermToSql(t: Term): string {
    FieldToSql(t.field) + " " + t.op + " ?"
  }

  function TermClauses(g: seq<Term>): (cs: seq<string>)
    ensures |cs| == |g|
  {
    seq(|g|, i requires 0 <= i < |g| => TermToSql(g[i]))
  }

  function GroupToSql(g: seq<Term>): string {
    Join(TermClauses(g), " AND ")
  }

  function GroupClauses(gs: seq<seq<Term>>): (cs: seq<string>)
    ensures |cs| == |gs|
  {
    seq(|gs|, i requires 0 <= i < |gs| => GroupToSql(gs[i]))
  }

  function Parenthesized(cs: seq<string>): (ps: seq<string>)
    ensures |ps| == |cs|
  {
    seq(|cs|, i requires 0 <= i < |cs| => "(" + cs[i] + ")")
  }

  function ToSql(gs: seq<seq<Term>>): string {
    if |gs| == 0 then ""
    else if |gs| == 1 then GroupToSql(gs[0])
    else Join(Parenthesized(GroupClauses(gs)), " OR ")
  }

  function GroupValues(g: seq<Term>): (vs: seq<string>)
    ensures |vs| == |g|
  {
    seq(|g|, i requires 0 <= i < |g| => g[i].value)
  }

  function Values(gs: seq<seq<Term>>): seq<string> {
    if gs == [] then [] else Values(gs[..|gs| - 1]) + GroupValues(gs[|gs| - 1])
  }

  /** A scan result fixes what the whole term parses to. */
  lemma ParseScanned(s: string, i: nat, op: string, field: string, value: string)
    requires ScanOperator(s, 0) == Some((i, op))
    requires TrimSpace(s[..i]) == field && TrimSpace(s[i + |op|..]) == value
    requires ValidField(field)
    ensures ParseTerm(s) == Ok(Term(field, NormalOp(op), value))
  {
  }

  lemma ParseTermsSnoc(pieces: seq<string>, piece: string, done: seq<Term>, t: Term)
    requires ParseTerms(pieces) == Ok(done)
    requires TrimSpace(piece) != "" && ParseTerm(TrimSpace(piece)) == Ok(t)
    ensures ParseTerms(pieces + [piece]) == Ok(done + [t])
  {
    assert (pieces + [piece])[..|pieces|] == pieces;
  }

  lemma ParsePiecesSnoc(pieces: seq<string>, piece: string, done: seq<seq<Term>>, g: seq<Term>)
    requires ParsePieces(pieces) == Ok(done) && g != []
    requires TrimSpace(piece) != "" && ParseTerms(SplitAnd(TrimSpace(piece))) == Ok(g)
    ensures ParsePieces(pieces + [piece]) == Ok(done + [g])
  {
    assert (pieces + [piece])[..|pieces|] == pieces;
  }

  // ---- The compiler itself ----

  method IsValidFieldName(name: string) returns (ok: bool)
    ensures ok <==> 1 <= |name| <= 64 && forall i :: 0 <= i < |name| ==> var c := name[i];
      'a' <= c <= 'z' || 'A' <= c <= 'Z' || '0' <= c <= '9' || c == '_' || c == '.'
    ensures ok == ValidField(name)
  {
    if |name| == 0 || |name| > 64 {
      return false;
    }
    for i := 0 to |name|
      invariant forall j :: 0 <= j < i ==> FieldChar(name[j])
    {
      if !FieldChar(name[i]) {
        return false;
      }
    }
    return true;
  }

  method CompileField(field: string) returns (r: string)
    ensures "labels." <= field ==> r == "labels->>'" + field[7..] + "'"
    ensures "annotations." <= field ==> r == "annotations->>'" + field[12..] + "'"
    ensures !("labels." <= field) && !("annotations." <= field) ==> r == field
    ensures r == FieldToSql(field)
  {
    for i := 0 to |JSONB_PREFIXES|
      invariant forall j :: 0 <= j < i ==> !(JSONB_PREFIXES[j] <= field)
    {
      var prefix := JSONB_PREFIXES[i];
      if prefix <= field {
        assert field[0] == prefix[0];
        var column := prefix[..|prefix| - 1];
        return column + "->>'" + field[|prefix|..] + "'";
      }
    }
    assert !(JSONB_PREFIXES[0] <= field) && !(JSONB_PREFIXES[1] <= field);
    return field;
  }

  lemma OperatorAtNone(s: string, i: nat)
    requires forall o :: o in OPERATORS ==> !MatchesAt(s, o, i)
    ensures OperatorAt(s, i) == None
  {
    hide MatchesAt;
    var ops := OPERATORS;
    assert ops[0] in ops && ops[1] in ops && ops[2] in ops && ops[3] in ops;
    assert ops[4] in ops && ops[5] in ops && ops[6] in ops;
  }

  lemma OneMatch(s: string, i: nat, a: string, b: string)
    requires MatchesAt(s, a, i) && |a| == |b| && a != b
    ensures !MatchesAt(s, b, i)
  {
  }

  lemma OperatorAtLongest(s: string, i: nat, op: string)
    requires op in OPERATORS && MatchesAt(s, op, i)
    requires forall o :: o in OPERATORS && |op| < |o| ==> !MatchesAt(s, o, i)
    ensures OperatorAt(s, i) == Some(op)
  {
    hide MatchesAt;
    forall o | o in OPERATORS && |o| == |op| && o != op ensures !MatchesAt(s, o, i) {
      OneMatch(s, i, op, o);
    }
    assert |op| == 1 || |op| == 2;
    var ops := OPERATORS;
    assert ops[0] in ops && ops[1] in ops && ops[2] in ops && ops[3] in ops;
    assert ops[4] in ops && ops[5] in ops && ops[6] in ops;
  }

  lemma MatchInside(s: string, op: string, i: nat)
    requires op in OPERATORS && MatchesAt(s, op, i)
    ensures i < |s| && i + |op| <= |s|
  {
  }

  /** `op` is what a left-to-right reader stops at: nothing starts earlier and nothing
      longer starts at the same place. */
  lemma {:induction false} EarliestLongest(s: string, from: nat, i: nat, op: string)
    requires from <= i && op in OPERATORS && MatchesAt(s, op, i)
    requires forall o, j :: o in OPERATORS && from <= j < i ==> !MatchesAt(s, o, j)
    requires forall o :: o in OPERATORS && |op| < |o| ==> !MatchesAt(s, o, i)
    ensures ScanOperator(s, from) == Some((i, op))
    decreases i - from
  {
    hide OperatorAt, MatchesAt;
    assert from < |s| by { MatchInside(s, op, i); }
    if from < i {
      OperatorAtNone(s, from);
      EarliestLongest(s, from + 1, i, op);
    } else {
      OperatorAtLongest(s, i, op);
    }
  }

  lemma {:induction false} NoOperator(s: string, from: nat)
    requires forall o, j :: o in OPERATORS && from <= j ==> !MatchesAt(s, o, j)
    ensures ScanOperator(s, from) == None
    decreases |s| - from
  {
    hide OperatorAt, MatchesAt;
    if from < |s| {
      OperatorAtNone(s, from);
      NoOperator(s, from + 1);
    }
  }

  /** The operator at `i` is the first to start, and the longest that starts there. */
  ghost predicate Leads(term: string, i: nat, op: string) {
    && op in OPERATORS && MatchesAt(term, op, i)
    && (forall o, j :: o in OPERATORS && 0 <= j < i ==> !MatchesAt(term, o, j))
    && (forall o :: o in OPERATORS && |op| < |o| ==> !MatchesAt(term, o, i))
  }

  /** Field and value are the trimmed text on the two sides of that operator. */
  ghost predicate SplitsAt(term: string, i: nat, t: Term) {
    && Leads(term, i, t.op) && i + |t.op| <= |term|
    && t.field == TrimSpace(term[..i]) && t.value == TrimSpace(term[i + |t.op|..])
  }

  /** Seven searches, one per operator, keeping the earliest and then the longest. */
  method FindOperator(term: string) returns (bestIdx: int, bestOp: string)
    ensures bestIdx < 0 ==> forall o, j :: o in OPERATORS ==> !MatchesAt(term, o, j)
    ensures 0 <= bestIdx ==> Leads(term, bestIdx, bestOp)
  {
    hide MatchesAt;
    bestIdx, bestOp := -1, "";
    for k := 0 to |OPERATORS|
      invariant -1 <= bestIdx
      invariant bestIdx < 0 ==> forall o, j :: o in OPERATORS[..k] ==> !MatchesAt(term, o, j)
      invariant 0 <= bestIdx ==> bestOp in OPERATORS && MatchesAt(term, bestOp, bestIdx)
      invariant 0 <= bestIdx ==>
        forall o, j :: o in OPERATORS[..k] && 0 <= j < bestIdx ==> !MatchesAt(term, o, j)
      invariant 0 <= bestIdx ==>
        forall o :: o in OPERATORS[..k] && |bestOp| < |o| ==> !MatchesAt(term, o, bestIdx)
    {
      var candidate := OPERATORS[k];
      assert OPERATORS[..k + 1] == OPERATORS[..k] + [candidate];
      var idx := Index(term, candidate);
      if idx < 0 {
        continue;
      }
      if bestIdx < 0 || idx < bestIdx || (idx == bestIdx && |candidate| > |bestOp|) {
        bestIdx := idx;
        bestOp := candidate;
      }
    }
    assert OPERATORS[..|OPERATORS|] == OPERATORS;
  }

  method ExtractFieldOpValue(term: string) returns (r: Result<Term, FilterError>)
    ensures r.Err? <==> forall o, j :: o in OPERATORS ==> !MatchesAt(term, o, j)
    ensures r.Err? ==> r.error == MissingOperator(term)
    ensures r.Ok? ==> exists i: nat :: SplitsAt(term, i, r.value)
    ensures r == SplitTerm(term)
  {
    hide ScanOperator, TrimSpace, MatchesAt;
    var bestIdx, bestOp := FindOperator(term);
    if bestIdx < 0 {
      NoOperator(term, 0);
      return Err(MissingOperator(term));
    }
    EarliestLongest(term, 0, bestIdx, bestOp);
    MatchInside(term, bestOp, bestIdx);
    var parts := Term(TrimSpace(term[..bestIdx]), bestOp, TrimSpace(term[bestIdx + |bestOp|..]));
    assert SplitsAt(term, bestIdx, parts);
    return Ok(parts);
  }

  method CompileTerm(term: string) returns (r: Result<(string, string), FilterError>)
    ensures r == match ParseTerm(term)
                 case Err(e) => Err(e)
                 case Ok(t) => Ok((TermToSql(t), t.value))
  {
    var parts := ExtractFieldOpValue(term);
    if parts.Err? {
      return Err(parts.error);
    }
    var Term(field, operator, value) := parts.value;
    var op := operator;
    if field == "" {
      return Err(EmptyField(term));
    }
    var valid := IsValidFieldName(field);
    if !valid {
      return Err(InvalidField(term, field));
    }
    if op == "==" {
      op := "=";
    }
    var column := CompileField(field);
    return Ok((column + " " + op + " ?", value));
  }

  lemma ClausesExtend(done: seq<Term>, t: Term)
    ensures TermClauses(done + [t]) == TermClauses(done) + [TermToSql(t)]
    ensures GroupValues(done + [t]) == GroupValues(done) + [t.value]
  {
  }

  lemma GroupClausesExtend(done: seq<seq<Term>>, g: seq<Term>)
    ensures GroupClauses(done + [g]) == GroupClauses(done) + [GroupToSql(g)]
    ensures Values(done + [g]) == Values(done) + GroupValues(g)
  {
    assert (done + [g])[..|done|] == done;
  }

  /** One failed piece fails every longer list of pieces. */
  lemma {:induction false} TermErrorSticks(pieces: seq<string>, k: nat)
    requires k <= |pieces| && ParseTerms(pieces[..k]).Err?
    ensures ParseTerms(pieces) == ParseTerms(pieces[..k])
    decreases |pieces| - k
  {
    if k < |pieces| {
      assert pieces[..k + 1][..k] == pieces[..k];
      TermErrorSticks(pieces, k + 1);
    } else {
      assert pieces[..k] == pieces;
    }
  }

  lemma {:induction false} GroupErrorSticks(pieces: seq<string>, k: nat)
    requires k <= |pieces| && ParsePieces(pieces[..k]).Err?
    ensures ParsePieces(pieces) == ParsePieces(pieces[..k])
    decreases |pieces| - k
  {
    if k < |pieces| {
      assert pieces[..k + 1][..k] == pieces[..k];
      GroupErrorSticks(pieces, k + 1);
    } else {
      assert pieces[..k] == pieces;
    }
  }

  /** The inner loop: the clauses and values of one OR-group. */
  method CompileGroup(group: string)
    returns (r: Result<(seq<string>, seq<string>), FilterError>)
    ensures r == match ParseTerms(SplitAnd(group))
                 case Err(e) => Err(e)
                 case Ok(terms) => Ok((TermClauses(terms), GroupValues(terms)))
  {
    hide TrimSpace, SplitAnd, ParseTerm;
    var pieces := SplitAnd(group);
    var clauses, values := [], [];
    ghost var terms: seq<Term> := [];
    for k := 0 to |pieces|
      invariant ParseTerms(pieces[..k]) == Ok(terms)
      invariant clauses == TermClauses(terms) && values == GroupValues(terms)
    {
      assert pieces[..k + 1][..k] == pieces[..k];
      var piece := TrimSpace(pieces[k]);
      if piece == "" {
        continue;
      }
      var compiled := CompileTerm(piece);
      if compiled.Err? {
        TermErrorSticks(pieces, k + 1);
        return Err(compiled.error);
      }
      ClausesExtend(terms, ParseTerm(piece).value);
      terms := terms + [ParseTerm(piece).value];
      clauses := clauses + [compiled.value.0];
      values := values + [compiled.value.1];
    }
    assert pieces[..|pieces|] == pieces;
    return Ok((clauses, values));
  }

  method ParseFilter(expr: string) returns (r: Result<Compiled, FilterError>)
    ensures r == match ParseGroups(expr)
                 case Err(e) => Err(e)
                 case Ok(gs) => Ok(Compiled(ToSql(gs), Values(gs)))
  {
    hide TrimSpace, SplitOr, SplitAnd, ParseTerms;
    if expr == "" {
      EmptyExpression();
      return Ok(Compiled("", []));
    }
    var pieces := SplitOr(expr);
    var orClauses, args := [], [];
    ghost var gs: seq<seq<Term>> := [];
    for k := 0 to |pieces|
      invariant ParsePieces(pieces[..k]) == Ok(gs)
      invariant orClauses == GroupClauses(gs) && args == Values(gs)
    {
      assert pieces[..k + 1][..k] == pieces[..k];
      var group := TrimSpace(pieces[k]);
      if group == "" {
        continue;
      }
      var compiled := CompileGroup(group);
      if compiled.Err? {
        GroupErrorSticks(pieces, k + 1);
        return Err(compiled.error);
      }
      var (andClauses, values) := compiled.value;
      args := args + values;
      if |andClauses| == 0 {
        continue;
      }
      GroupClausesExtend(gs, ParseTerms(SplitAnd(group)).value);
      gs := gs + [ParseTerms(SplitAnd(group)).value];
      if |andClauses| == 1 {
        orClauses := orClauses + [andClauses[0]];
      } else {
        orClauses := orClauses + [Join(andClauses, " AND ")];
      }
    }
    assert pieces[..|pieces|] == pieces;
    if |orClauses| == 0 {
      return Ok(Compiled("", []));
    }
    if |orClauses| == 1 {
      return Ok(Compiled(orClauses[0], args));
    }
    var wrapped := orClauses;
    for i := 0 to |orClauses|
      invariant |wrapped| == |orClauses|
      invariant forall j :: 0 <= j < i ==> wrapped[j] == "(" + orClauses[j] + ")"
      invariant forall j :: i <= j < |orClauses| ==> wrapped[j] == orClauses[j]
    {
      wrapped := wrapped[i := "(" + wrapped[i] + ")"];
    }
    assert wrapped == Parenthesized(GroupClauses(gs));
    return Ok(Compiled(Join(wrapped, " OR "), args));
  }

  lemma EmptyExpression()
    ensures ParseGroups("") == Ok([])
  {
    SplitAbsent("", " || ");
    SplitAbsent("", " OR ");
    assert SplitOr("") == [""];
    assert [""][..0] == [];
    assert ParsePieces([]) == Ok([]);
    assert TrimSpace("") == "";
  }

  // ---- When a filter is refused ----

  /** The text before the first operator, trimmed, is a valid field name. */
  ghost predicate GoodTerm(term: string) {
    exists i: nat, op :: FirstOperator(term, i, op) && ValidField(TrimSpace(term[..i]))
  }

  ghost predicate FirstOperator(term: string, i: nat, op: string) {
    && i <= |term| && op in OPERATORS && MatchesAt(term, op, i)
    && forall o, j :: o in OPERATORS && 0 <= j < i ==> !MatchesAt(term, o, j)
  }

  lemma OperatorAtFinds(s: string, i: nat)
    ensures match OperatorAt(s, i)
            case Some(op) => op in OPERATORS && MatchesAt(s, op, i)
            case None => forall o :: o in OPERATORS ==> !MatchesAt(s, o, i)
  {
    hide MatchesAt;
    var ops := OPERATORS;
    assert ops[0] in ops && ops[1] in ops && ops[2] in ops && ops[3] in ops;
    assert ops[4] in ops && ops[5] in ops && ops[6] in ops;
  }

  /** What the scan finds is the first operator, and it finds one whenever there is one. */
  lemma {:induction false} ScanIsFirst(s: string, from: nat)
    ensures match ScanOperator(s, from)
            case Some((i, op)) =>
              && from <= i && op in OPERATORS && MatchesAt(s, op, i)
              && (forall o, j :: o in OPERATORS && from <= j < i ==> !MatchesAt(s, o, j))
            case None => forall o, j :: o in OPERATORS && from <= j ==> !MatchesAt(s, o, j)
    decreases |s| - from
  {
    hide OperatorAt;
    if from < |s| {
      OperatorAtFinds(s, from);
      ScanIsFirst(s, from + 1);
    } else {
      forall o, j | o in OPERATORS && from <= j ensures !MatchesAt(s, o, j) {
        assert |o| > 0;
      }
    }
  }

  lemma TermOkIff(term: string)
    ensures ParseTerm(term).Ok? <==> GoodTerm(term)
  {
    hide ScanOperator, TrimSpace, MatchesAt, ValidField;
    ScanIsFirst(term, 0);
    match ScanOperator(term, 0)
    case Some((i, op)) =>
      MatchInside(term, op, i);
      assert FirstOperator(term, i, op);
      forall k: nat, o | FirstOperator(term, k, o) ensures k == i {
        assert k < i ==> !MatchesAt(term, o, k);
        assert i < k ==> !MatchesAt(term, op, i);
      }
      EmptyIsInvalid();
    case None =>
  }

  /** The three errors of a term and the term read otherwise, from its text. */
  lemma TermCases(term: string, i: nat, op: string)
    ensures (forall o, j :: o in OPERATORS ==> !MatchesAt(term, o, j)) ==> ParseTerm(term) == Err(MissingOperator(term))
    ensures FirstOperator(term, i, op) ==> var field := TrimSpace(term[..i]);
      && (field == "" ==> ParseTerm(term) == Err(EmptyField(term)))
      && (field != "" && !ValidField(field) ==> ParseTerm(term) == Err(InvalidField(term, field)))
      && (ValidField(field) ==> ParseTerm(term).Ok? && ParseTerm(term).value.field == field)
  {
    hide TrimSpace, ValidField, ScanOperator, MatchesAt;
    ScanIsFirst(term, 0);
    EmptyIsInvalid();
    match ScanOperator(term, 0)
    case Some((k, o)) =>
      MatchInside(term, o, k);
      if FirstOperator(term, i, op) {
        assert i < k ==> !MatchesAt(term, op, i);
        assert k < i ==> !MatchesAt(term, o, k);
      }
    case None =>
  }

  lemma EmptyIsInvalid()
    ensures !ValidField("")
  {
  }

  lemma {:induction false} TermsOkIff(pieces: seq<string>)
    ensures ParseTerms(pieces).Ok? <==> forall p :: p in pieces ==> TrimSpace(p) == "" || GoodTerm(TrimSpace(p))
  {
    hide ParseTerm, TrimSpace, GoodTerm;
    if pieces != [] {
      var front, last := pieces[..|pieces| - 1], pieces[|pieces| - 1];
      TermsOkIff(front);
      TermOkIff(TrimSpace(last));
      assert pieces == front + [last];
    }
  }

  ghost predicate GoodGroup(piece: string) {
    forall p :: p in SplitAnd(TrimSpace(piece)) ==> TrimSpace(p) == "" || GoodTerm(TrimSpace(p))
  }

  lemma BlankGroupIsGood(piece: string)
    requires TrimSpace(piece) == ""
    ensures GoodGroup(piece)
  {
    SplitAbsent("", " AND ");
    SplitAbsent("", " && ");
    SplitAbsent("", ",");
    assert SplitAnd("") == [""];
    assert TrimSpace("") == "";
  }

  lemma {:induction false} GroupsOkIff(pieces: seq<string>)
    ensures ParsePieces(pieces).Ok? <==> forall p :: p in pieces ==> GoodGroup(p)
  {
    hide ParseTerms, TrimSpace, SplitAnd, GoodGroup;
    if pieces != [] {
      var front, last := pieces[..|pieces| - 1], pieces[|pieces| - 1];
      GroupsOkIff(front);
      GroupGoodIff(last);
      if TrimSpace(last) == "" {
        BlankGroupIsGood(last);
      }
      assert pieces == front + [last];
    }
  }

  lemma GroupGoodIff(piece: string)
    ensures ParseTerms(SplitAnd(TrimSpace(piece))).Ok? <==> GoodGroup(piece)
  {
    hide ParseTerms, TrimSpace, SplitAnd, GoodTerm;
    TermsOkIff(SplitAnd(TrimSpace(piece)));
  }

  /** A filter is accepted exactly when every piece between its separators is blank or has a valid
      field name before its first operator. */
  lemma AcceptedIff(expr: string)
    ensures ParseGroups(expr).Ok? <==>
      forall o, a :: o in SplitOr(expr) && a in SplitAnd(TrimSpace(o)) ==>
        TrimSpace(a) == "" || GoodTerm(TrimSpace(a))
  {
    hide ParsePieces, TrimSpace, SplitAnd, SplitOr, GoodTerm;
    GroupsOkIff(SplitOr(expr));
  }
}
