/** List with a filter text: the compiler, the SQL reading of its clause and the pages together. */
module Listing {
  import opened Common
  import opened Resources
  import opened Paging
  import opened Filter
  import Sql = FilterSql

  /** How the database decides one comparison on a row. */
  type Compare = (Key, Row, Sql.Column, string, string) -> Sql.Truth

  datatype ListError = BadFilter(error: FilterError) | NotSql(clause: string)

  function On(compare: Compare, k: Key, row: Row): (Sql.Column, string, string) -> Sql.Truth {
    (column, op, value) => compare(k, row, column, op, value)
  }

  /** The row satisfies the condition with its placeholders bound. */
  predicate Satisfies(cond: Sql.Cond, args: seq<string>, compare: Compare, k: Key, row: Row) {
    |args| == Sql.Params(cond) && Sql.Eval(cond, args, On(compare, k, row)) == Sql.True
  }

  /** What the filter asks for: no group at all, or one whose terms are all true of the row. */
  predicate Passes(gs: seq<seq<Term>>, compare: Compare, k: Key, row: Row) {
    gs == [] || exists g ::
      g in gs && forall t :: t in g ==> compare(k, row, Sql.ColumnOf(t.field), t.op, t.value) == Sql.True
  }

  predicate OnColumns(gs: seq<seq<Term>>, reserved: set<string>) {
    forall g, t :: g in gs && t in g ==> Sql.ColumnName(Sql.ColumnWord(t.field), reserved)
  }

  /** The names of the organisation's live rows that pass. */
  function Chosen(t: Table, org: OrgId, gs: seq<seq<Term>>, compare: Compare): set<string> {
    set k | k in t && k.org == org && t[k].deletedAt.None? && Passes(gs, compare, k, t[k]) :: k.name
  }

  /** The names of the organisation's live rows that the compiled clause, read as SQL, selects; an
      empty clause restricts nothing. */
  function Selected(t: Table, org: OrgId, compiled: Compiled, reserved: set<string>, compare: Compare): set<string> {
    var cond := Sql.ReadSql(compiled.clause, reserved);
    set k | k in t && k.org == org && t[k].deletedAt.None?
            && (compiled.clause == "" || (cond.Some? && Satisfies(cond.value, compiled.args, compare, k, t[k])))
      :: k.name
  }

  lemma SelectedIsChosen(t: Table, org: OrgId, filter: string, reserved: set<string>, compare: Compare)
    requires Sql.CONNECTIVES <= reserved && ParseGroups(filter).Ok? && OnColumns(ParseGroups(filter).value, reserved)
    ensures var gs := ParseGroups(filter).value;
      Selected(t, org, Compiled(ToSql(gs), Values(gs)), reserved, compare) == Chosen(t, org, gs, compare)
  {
    hide ParseGroups, Sql.ReadSql, ToSql, Values, Sql.ColumnName, Passes, Satisfies;
    var gs := ParseGroups(filter).value;
    EmptyClause(filter);
    NoGroupsPass(compare);
    if gs != [] {
      forall k | k in t
        ensures Sql.ReadSql(ToSql(gs), reserved).Some?
        ensures Satisfies(Sql.ReadSql(ToSql(gs), reserved).value, Values(gs), compare, k, t[k]) <==>
                Passes(gs, compare, k, t[k])
      {
        SatisfiesMeansPasses(filter, reserved, compare, k, t[k]);
      }
    }
  }

  lemma SatisfiesMeansPasses(filter: string, reserved: set<string>, compare: Compare, k: Key, row: Row)
    requires Sql.CONNECTIVES <= reserved && ParseGroups(filter).Ok? && ParseGroups(filter).value != []
    requires OnColumns(ParseGroups(filter).value, reserved)
    ensures var gs := ParseGroups(filter).value; var cond := Sql.ReadSql(ToSql(gs), reserved);
      && ToSql(gs) != "" && cond.Some?
      && (Satisfies(cond.value, Values(gs), compare, k, row) <==> Passes(gs, compare, k, row))
  {
    hide ParseGroups, Sql.ReadSql, Sql.Eval, ToSql, Values, Sql.ColumnName;
    Sql.ClauseMeaning(filter, reserved, On(compare, k, row));
    var gs := ParseGroups(filter).value;
    forall g | g in gs
      ensures (forall t :: t in g ==> Sql.TermHolds(t, On(compare, k, row))) <==>
              forall t :: t in g ==> compare(k, row, Sql.ColumnOf(t.field), t.op, t.value) == Sql.True
    {
    }
  }

  /** A bad filter and a clause that is not SQL are errors; otherwise the page is cut from exactly
      the live rows for which some OR-group of the filter text has all its terms true. */
  method List(t: Table, org: OrgId, filter: string, reserved: set<string>, compare: Compare,
              requested: int, token: Option<nat>)
    returns (r: Result<Page, ListError>)
    requires Sql.CONNECTIVES <= reserved
    ensures match ParseGroups(filter)
            case Err(e) => r == Err(BadFilter(e))
            case Ok(gs) =>
              if OnColumns(gs, reserved) then r == Ok(PageAt(InOrder(Chosen(t, org, gs, compare)), token, requested))
              else r == Err(NotSql(ToSql(gs)))
  {
    hide ParseGroups, Sql.ReadSql, ToSql, Values, Sql.ColumnName, InOrder, PageAt, Passes, Satisfies;
    var keep: (Key, Row) -> bool := (k, row) => true;
    ghost var gs := [];
    if filter != "" {
      var compiled := ParseFilter(filter);
      if compiled.Err? {
        return Err(BadFilter(compiled.error));
      }
      gs := ParseGroups(filter).value;
      var Compiled(clause, args) := compiled.value;
      if gs != [] {
        Sql.ClauseReadableIff(filter, reserved);
      }
      EmptyClause(filter);
      if clause != "" {
        var cond := Sql.ReadSql(clause, reserved);
        if cond == None {
          return Err(NotSql(clause));
        }
        keep := (k, row) => Satisfies(cond.value, args, compare, k, row);
        forall k, row ensures keep(k, row) <==> Passes(gs, compare, k, row) {
          SatisfiesMeansPasses(filter, reserved, compare, k, row);
        }
      }
    } else {
      EmptyExpression();
    }
    NoGroupsPass(compare);
    assert Matching(t, org, keep) == Chosen(t, org, gs, compare);
    var page := Paging.List(t, org, keep, requested, token);
    return Ok(page);
  }

  lemma EmptyClause(filter: string)
    requires ParseGroups(filter).Ok?
    ensures ParseGroups(filter).value == [] <==> ToSql(ParseGroups(filter).value) == ""
  {
    hide ParsePieces, SplitOr;
    var gs := ParseGroups(filter).value;
    Sql.ParsedGroupsEmitted(SplitOr(filter));
    if gs != [] {
      Sql.NonEmptyClause(gs);
    }
  }

  lemma NoGroupsPass(compare: Compare)
    ensures forall k, row :: Passes([], compare, k, row)
  {
  }

  /** From text to rows: for an accepted filter on columns, following the tokens over the rows that
      its compiled clause selects collects exactly the organisation's live rows for which some
      OR-group of the text has all its terms true, each once and in name order. */
  lemma FilteredPagingComplete(t: Table, org: OrgId, filter: string, reserved: set<string>, compare: Compare,
                               limits: nat -> int)
    requires Sql.CONNECTIVES <= reserved && ParseGroups(filter).Ok? && OnColumns(ParseGroups(filter).value, reserved)
    ensures var gs := ParseGroups(filter).value;
      var names := InOrder(Selected(t, org, Compiled(ToSql(gs), Values(gs)), reserved, compare));
      var items := Items(Follow(names, None, limits, 0));
      && items == names && Distinct(items)
      && (forall i, j :: 0 <= i < j < |items| ==> NameLeq(items[i], items[j]))
      && (forall k :: k in t && k.org == org ==> (k.name in items <==> Live(t, k) && Passes(gs, compare, k, t[k])))
  {
    hide InOrder, Follow, Items, NameLeq, Passes, Selected, ParseGroups, ToSql, Values;
    var gs := ParseGroups(filter).value;
    SelectedIsChosen(t, org, filter, reserved, compare);
    var keep: (Key, Row) -> bool := (k, row) => Passes(gs, compare, k, row);
    assert Matching(t, org, keep) == Chosen(t, org, gs, compare);
    PagingComplete(t, org, keep, limits);
  }
}
