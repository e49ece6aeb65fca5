/** Resource rows, the statements the store issues against their table, and the finalizer
    list of a resource. */
module Resources {
  import opened Common

  /** Organisation identifiers (UUIDs). */
  type OrgId = nat

  /** The composite primary key. */
  datatype Key = Key(org: OrgId, name: string)

  /** The columns of a row other than its key. `spec` is what `SpecBytes` returns, `None` when
      it fails; `rest` stands for labels, annotations, owner and creator. */
  datatype Row = Row(
    parent: Option<string>,
    finalizers: seq<string>,
    generation: Int64,
    version: Int64,
    spec: Option<string>,
    status: string,
    rest: string,
    deletionTimestamp: Option<Time>,
    deletedAt: Option<Time>)

  /** Soft-deleted rows stay in the table and keep their key. */
  type Table = map<Key, Row>

  predicate Live(t: Table, k: Key) {
    k in t && t[k].deletedAt.None?
  }

  /** A table after a statement, and whether the statement affected a row. */
  datatype Affected = Affected(table: Table, hit: bool)

  /** INSERT fails on any existing key, soft-deleted or not. */
  function Insert(t: Table, k: Key, row: Row): Affected {
    if k in t then Affected(t, false) else Affected(t[k := row], true)
  }

  /** UPDATE of a live row that still has the given version. */
  function UpdateWhere(t: Table, k: Key, version: Int64, row: Row): Affected {
    if Live(t, k) && t[k].version == version then Affected(t[k := row], true) else Affected(t, false)
  }

  /** UPDATE of a live row, whatever its version. */
  function UpdateLive(t: Table, k: Key, f: Row -> Row): Affected {
    if Live(t, k) then Affected(t[k := f(t[k])], true) else Affected(t, false)
  }

  function MarkDeleting(t: Table, k: Key, now: Time): Affected {
    UpdateLive(t, k, (row: Row) => row.(deletionTimestamp := Some(now)))
  }

  function SoftDelete(t: Table, k: Key, now: Time): Affected {
    UpdateLive(t, k, (row: Row) => row.(deletedAt := Some(now)))
  }

  function SetStatus(t: Table, k: Key, status: string): Affected {
    UpdateLive(t, k, (row: Row) => row.(status := status))
  }

  /** The columns a partial update sets; absent ones keep their value. */
  datatype Patch = Patch(
    parent: Option<Option<string>>,
    finalizers: Option<seq<string>>,
    generation: Option<Int64>,
    spec: Option<Option<string>>,
    status: Option<string>,
    rest: Option<string>,
    deletionTimestamp: Option<Option<Time>>,
    deletedAt: Option<Option<Time>>)

  function Or<T>(change: Option<T>, current: T): T {
    match change
    case Some(v) => v
    case None => current
  }

  /** The patched row; the version column is always the one after `version`. */
  function Patched(row: Row, version: Int64, p: Patch): Row {
    Row(Or(p.parent, row.parent), Or(p.finalizers, row.finalizers), Or(p.generation, row.generation),
        Wrap64(version + 1), Or(p.spec, row.spec), Or(p.status, row.status), Or(p.rest, row.rest),
        Or(p.deletionTimestamp, row.deletionTimestamp), Or(p.deletedAt, row.deletedAt))
  }

  predicate TakesColumn<T(==)>(change: Option<T>, before: T, after: T) {
    if change.Some? then after == change.value else after == before
  }

  /** Every column the patch names has its new value and every other keeps its old one, the
      version apart. */
  predicate Takes(p: Patch, before: Row, after: Row) {
    && TakesColumn(p.parent, before.parent, after.parent)
    && TakesColumn(p.finalizers, before.finalizers, after.finalizers)
    && TakesColumn(p.generation, before.generation, after.generation)
    && TakesColumn(p.spec, before.spec, after.spec)
    && TakesColumn(p.status, before.status, after.status)
    && TakesColumn(p.rest, before.rest, after.rest)
    && TakesColumn(p.deletionTimestamp, before.deletionTimestamp, after.deletionTimestamp)
    && TakesColumn(p.deletedAt, before.deletedAt, after.deletedAt)
  }

  function PatchWhere(t: Table, k: Key, version: Int64, p: Patch): Affected {
    if Live(t, k) && t[k].version == version then Affected(t[k := Patched(t[k], version, p)], true)
    else Affected(t, false)
  }

  /** Both specs are known and differ. */
  predicate SpecDiffers(a: Row, b: Row) {
    a.spec.Some? && b.spec.Some? && a.spec != b.spec
  }

  /** The caller's object as Update sends it: version after its own, generation after its own
      when its spec differs from the row it was compared with. */
  function Bumped(obj: Row, compared: Option<Row>): Row {
    obj.(version := Wrap64(obj.version + 1),
         generation := if compared.Some? && SpecDiffers(compared.value, obj) then Wrap64(obj.generation + 1)
                       else obj.generation)
  }

  function BeforeCreate(obj: Row): Row {
    obj.(generation := if obj.generation == 0 then 1 else obj.generation,
         version := if obj.version == 0 then 1 else obj.version)
  }

  // ---- Finalizers ----

  function WithName(s: seq<string>, name: string): seq<string> {
    if name in s then s else s + [name]
  }

  lemma {:induction false} WithoutFirstCount(s: seq<string>, name: string)
    ensures multiset(WithoutFirst(s, name)) == multiset(s) - multiset{name}
  {
    if s != [] {
      assert s == [s[0]] + s[1..];
      WithoutFirstCount(s[1..], name);
    }
  }

  /** One removal rids the list of the name exactly when it was listed at most once. */
  lemma RemovedIffOnce(s: seq<string>, name: string)
    ensures name !in WithoutFirst(s, name) <==> multiset(s)[name] <= 1
  {
    WithoutFirstCount(s, name);
    assert name in WithoutFirst(s, name) <==> multiset(WithoutFirst(s, name))[name] > 0;
  }

  datatype FinalizerOp = Add(name: string) | Remove(name: string)

  function EditFinalizers(s: seq<string>, ops: seq<FinalizerOp>): seq<string> {
    if ops == [] then s
    else
      var before := EditFinalizers(s, ops[..|ops| - 1]);
      match ops[|ops| - 1]
      case Add(name) => WithName(before, name)
      case Remove(name) => WithoutFirst(before, name)
  }

  lemma RemoveKeepsOthers(s: seq<string>, name: string, other: string)
    requires other != name
    ensures other in WithoutFirst(s, name) <==> other in s
  {
    WithoutFirstCount(s, name);
    assert other in s <==> other in multiset(s);
    assert other in WithoutFirst(s, name) <==> other in multiset(WithoutFirst(s, name));
  }

  /** Lists built with the two operations never repeat a name, so one removal rids them of it. */
  lemma {:induction false} FinalizersStayDistinct(ops: seq<FinalizerOp>, name: string)
    ensures multiset(EditFinalizers([], ops))[name] <= 1
    ensures name !in WithoutFirst(EditFinalizers([], ops), name)
  {
    var s := EditFinalizers([], ops);
    if ops != [] {
      var before := EditFinalizers([], ops[..|ops| - 1]);
      FinalizersStayDistinct(ops[..|ops| - 1], name);
      WithoutFirstCount(before, ops[|ops| - 1].name);
      assert name !in before ==> multiset(before)[name] == 0;
    }
    RemovedIffOnce(s, name);
  }

  /** A caller's resource object: its key and columns. */
  class Resource {
    var key: Key
    var row: Row

    constructor (key: Key, row: Row)
      ensures this.key == key && this.row == row
    {
      this.key, this.row := key, row;
    }

    method HasFinalizer(name: string) returns (found: bool)
      ensures found == (name in row.finalizers)
    {
      for i := 0 to |row.finalizers|
        invariant name !in row.finalizers[..i]
      {
        if row.finalizers[i] == name {
          return true;
        }
      }
      return false;
    }

    method AddFinalizer(name: string)
      modifies this`row
      ensures name in row.finalizers
      ensures row.finalizers == old(row.finalizers) + if name in old(row.finalizers) then [] else [name]
      ensures row == old(row).(finalizers := WithName(old(row.finalizers), name))
    {
      var found := HasFinalizer(name);
      if !found {
        row := row.(finalizers := row.finalizers + [name]);
      }
    }

    method RemoveFinalizer(name: string)
      modifies this`row
      ensures name !in old(row.finalizers) ==> row == old(row)
      ensures forall i :: 0 <= i < |old(row.finalizers)| && old(row.finalizers)[i] == name
                          && name !in old(row.finalizers)[..i] ==>
        row.finalizers == old(row.finalizers)[..i] + old(row.finalizers)[i + 1..]
      ensures row == old(row).(finalizers := WithoutFirst(old(row.finalizers), name))
    {
      for i := 0 to |row.finalizers|
        invariant row == old(row)
        invariant name !in row.finalizers[..i]
      {
        if row.finalizers[i] == name {
          WithoutFirstAt(row.finalizers, name, i);
          row := row.(finalizers := row.finalizers[..i] + row.finalizers[i + 1..]);
          return;
        }
      }
      WithoutFirstAbsent(row.finalizers, name);
    }
  }
}
