/** The generic store: each operation as a whole, and the object that performs it. */
module Store {
  import opened Common
  import opened Resources
  import opened Nesting
  import Filter
  import FilterSql
  import Listing
  import Paging

  datatype Status =
    | Done
    | NotFound | AlreadyExists | Conflict | FinalizersPending
    | NoSuchParent | CircularParent | HasChildrenStill

  /** The table, the caller's object and the status after an operation. */
  datatype Outcome = Outcome(table: Table, obj: Row, status: Status)

  ghost function ParentCheck(t: Table, k: Key, obj: Row): Status {
    if !IsParent(obj.parent) then Done
    else match ParentVerdict(t, k.org, k.name, obj.parent.value)
      case Accepted => Done
      case ParentNotFound => NoSuchParent
      case Circular => CircularParent
  }

  ghost function CreateOp(t: Table, k: Key, obj: Row): Outcome {
    var check := ParentCheck(t, k, obj);
    if check != Done then Outcome(t, obj, check)
    else
      var a := Insert(t, k, BeforeCreate(obj));
      Outcome(a.table, BeforeCreate(obj), if a.hit then Done else AlreadyExists)
  }

  /** `tracks` says whether the resource type reports spec bytes. The caller's object is bumped
      even when the conditional write then misses. */
  ghost function UpdateOp(t: Table, tracks: bool, k: Key, obj: Row): Outcome {
    var check := ParentCheck(t, k, obj);
    if check != Done then Outcome(t, obj, check)
    else if tracks && !Live(t, k) then Outcome(t, obj, NotFound)
    else
      var sent := Bumped(obj, if tracks then Some(t[k]) else None);
      var a := UpdateWhere(t, k, obj.version, sent);
      Outcome(a.table, sent, if a.hit then Done else Conflict)
  }

  function PartialUpdateOp(t: Table, k: Key, version: Int64, p: Patch): (Table, Status) {
    var a := PatchWhere(t, k, version, p);
    (a.table, if a.hit then Done else if Live(t, k) then Conflict else NotFound)
  }

  ghost function DeleteOp(t: Table, k: Key, now: Time): (Table, Status) {
    if !Live(t, k) then (t, NotFound)
    else if Parented(t, k) then (t, HasChildrenStill)
    else if t[k].finalizers != [] then (MarkDeleting(t, k, now).table, FinalizersPending)
    else (SoftDelete(t, k, now).table, Done)
  }

  class GenericStore {
    var table: Table
    const tracks: bool

    constructor (tracks: bool)
      ensures table == map[] && this.tracks == tracks
    {
      this.table, this.tracks := map[], tracks;
    }

    method CheckParent(key: Key, obj: Row) returns (status: Status)
      ensures status == Done || status == NoSuchParent || status == CircularParent
      ensures obj.parent == None || obj.parent == Some("") ==> status == Done
      ensures obj.parent.Some? && obj.parent.value != "" ==>
        var parent := Key(key.org, obj.parent.value); var found := parent in table && table[parent].deletedAt.None?;
        && (status == NoSuchParent <==> parent.name != key.name && !found)
        && (status == CircularParent <==>
            || parent.name == key.name
            || (found && (Reaches(table, key.org, parent.name, key.name) || Loops(table, key.org, parent.name))))
      ensures status == ParentCheck(table, key, obj)
    {
      if obj.parent == None || obj.parent.value == "" {
        return Done;
      }
      var v := ValidateParent(table, key.org, key.name, obj.parent.value);
      return match v case Accepted => Done case ParentNotFound => NoSuchParent case Circular => CircularParent;
    }

    method Create(res: Resource) returns (status: Status)
      modifies this`table, res`row
      ensures var parent := ParentCheck(old(table), res.key, old(res.row));
        if parent != Done then status == parent && res.row == old(res.row)
        else
          && status == (if res.key in old(table) then AlreadyExists else Done)
          && res.row.generation == (if old(res.row).generation == 0 then 1 else old(res.row).generation)
          && res.row.version == (if old(res.row).version == 0 then 1 else old(res.row).version)
          && res.row == old(res.row).(generation := res.row.generation, version := res.row.version)
      ensures table == if status == Done then old(table)[res.key := res.row] else old(table)
      ensures Outcome(table, res.row, status) == CreateOp(old(table), res.key, old(res.row))
    {
      status := CheckParent(res.key, res.row);
      if status != Done {
        return;
      }
      if res.row.generation == 0 {
        res.row := res.row.(generation := 1);
      }
      if res.row.version == 0 {
        res.row := res.row.(version := 1);
      }
      var a := Insert(table, res.key, res.row);
      if !a.hit {
        return AlreadyExists;
      }
      table := a.table;
    }

    method Get(key: Key) returns (row: Option<Row>)
      ensures row.Some? <==> key in table && table[key].deletedAt.None?
      ensures row.Some? ==> row.value == table[key]
    {
      if Live(table, key) {
        return Some(table[key]);
      }
      return None;
    }

    /** `compare` decides single comparisons on rows; `reserved` are the database's reserved words. */
    method List(org: OrgId, filter: string, reserved: set<string>, compare: Listing.Compare,
                limit: int, token: Option<nat>)
      returns (r: Result<Paging.Page, Listing.ListError>)
      requires FilterSql.CONNECTIVES <= reserved
      ensures match Filter.ParseGroups(filter)
              case Err(e) => r == Err(Listing.BadFilter(e))
              case Ok(gs) =>
                if Listing.OnColumns(gs, reserved) then
                  r == Ok(Paging.PageAt(Paging.InOrder(Listing.Chosen(table, org, gs, compare)), token, limit))
                else r == Err(Listing.NotSql(Filter.ToSql(gs)))
    {
      r := Listing.List(table, org, filter, reserved, compare, limit, token);
    }

    /** The caller's object is bumped whenever the conditional write is tried, hit or miss. */
    method Update(res: Resource) returns (status: Status)
      modifies this`table, res`row
      ensures var parent := ParentCheck(old(table), res.key, old(res.row));
        var live := res.key in old(table) && old(table)[res.key].deletedAt.None?;
        && (parent != Done ==> status == parent)
        && (parent == Done ==>
            && (status == NotFound <==> tracks && !live)
            && (status == Done <==> live && old(table)[res.key].version == old(res.row).version)
            && (status != NotFound && status != Done ==> status == Conflict))
      ensures status != Done && status != Conflict ==> res.row == old(res.row)
      ensures status == Done || status == Conflict ==>
        && res.row.version == Wrap64(old(res.row).version + 1)
        && res.row == old(res.row).(version := res.row.version, generation := res.row.generation)
        && res.row.generation ==
           if && tracks && old(table)[res.key].spec.Some? && old(res.row).spec.Some?
              && old(table)[res.key].spec != old(res.row).spec
           then Wrap64(old(res.row).generation + 1) else old(res.row).generation
      ensures table == if status == Done then old(table)[res.key := res.row] else old(table)
      ensures Outcome(table, res.row, status) == UpdateOp(old(table), tracks, res.key, old(res.row))
    {
      status := CheckParent(res.key, res.row);
      if status != Done {
        return;
      }
      var clientVersion: int := res.row.version;
      if tracks {
        var existing := Get(res.key);
        if existing == None {
          return NotFound;
        }
        if SpecDiffers(existing.value, res.row) {
          res.row := res.row.(generation := Wrap64(res.row.generation + 1));
        }
      }
      res.row := res.row.(version := Wrap64(clientVersion + 1));
      var a := UpdateWhere(table, res.key, clientVersion, res.row);
      if !a.hit {
        return Conflict;
      }
      table := a.table;
    }

    method PartialUpdate(key: Key, version: Int64, p: Patch) returns (status: Status)
      modifies this`table
      ensures status == NotFound <==> !Live(old(table), key)
      ensures status == Done <==> Live(old(table), key) && old(table)[key].version == version
      ensures status == Conflict <==> Live(old(table), key) && old(table)[key].version != version
      ensures status != Done ==> table == old(table)
      ensures table.Keys == old(table).Keys && forall k :: k in table && k != key ==> table[k] == old(table)[k]
      ensures status == Done ==> table[key].version == Wrap64(version + 1) && Takes(p, old(table)[key], table[key])
      ensures (table, status) == PartialUpdateOp(old(table), key, version, p)
    {
      var a := PatchWhere(table, key, version, p);
      if !a.hit {
        var rows := set k | k in table && k == key && table[k].deletedAt.None?;
        assert rows == if Live(table, key) then {key} else {};
        if |rows| == 0 {
          return NotFound;
        }
        return Conflict;
      }
      table := a.table;
      return Done;
    }

    method Delete(key: Key, now: Time) returns (status: Status)
      modifies this`table
      ensures var live := key in old(table) && old(table)[key].deletedAt.None?;
        var children := exists c ::
          && c in old(table) && old(table)[c].deletedAt.None?
          && c.org == key.org && old(table)[c].parent == Some(key.name);
        && (status == NotFound <==> !live)
        && (status == HasChildrenStill <==> live && children)
        && (status == FinalizersPending <==> live && !children && old(table)[key].finalizers != [])
        && (status == Done <==> live && !children && old(table)[key].finalizers == [])
      ensures status == NotFound || status == HasChildrenStill ==> table == old(table)
      ensures status == FinalizersPending ==>
        table == old(table)[key := old(table)[key].(deletionTimestamp := Some(now))]
      ensures status == Done ==> table == old(table)[key := old(table)[key].(deletedAt := Some(now))]
      ensures (table, status) == DeleteOp(old(table), key, now)
    {
      var existing := Get(key);
      if existing == None {
        return NotFound;
      }
      var children := HasChildren(table, key);
      if children {
        return HasChildrenStill;
      }
      if |existing.value.finalizers| > 0 {
        table := MarkDeleting(table, key, now).table;
        return FinalizersPending;
      }
      table := SoftDelete(table, key, now).table;
      return Done;
    }

    method UpdateStatus(key: Key, status: string) returns (r: Status)
      modifies this`table
      ensures r == Done || r == NotFound
      ensures r == Done <==> Live(old(table), key)
      ensures table.Keys == old(table).Keys && forall k :: k in table && k != key ==> table[k] == old(table)[k]
      ensures r == Done ==>
        table[key].status == status && table[key].(status := old(table)[key].status) == old(table)[key]
      ensures r == NotFound ==> table == old(table)
    {
      var a := SetStatus(table, key, status);
      table := a.table;
      return if a.hit then Done else NotFound;
    }
  }
}
