/**
 * The ActiveRecord model class: the column checks made when a model class is defined,
 * attribute lookup, dirty tracking against the values last synchronised with the
 * database, and the decisions of `find`, `save`, `update_attributes` and `delete`.
 * The database itself is outside the model: what a query returns is a parameter, and
 * what a write would send is returned as a `Write` value.
 */
module Records {
  import opened Wrappers
  import opened Strings
  import opened Clauses

  // ---------------------------------------------------------------------------
  // Model classes

  /**
   * The class attributes of a model: its declared columns, its primary key, and the
   * four optional timestamp columns (`None` or `""` means not configured).
   */
  datatype Schema = Schema(
    name: string,
    columns: set<string>,
    pk: string,
    createdAt: Option<string>,
    updatedAt: Option<string>,
    createdOn: Option<string>,
    updatedOn: Option<string>)

  /** The defaults of the base class: `id`, `created_at`, `updated_at`, and no `_on` columns. */
  function DefaultSchema(name: string, columns: set<string>): Schema
  {
    Schema(name, columns, "id", Some("created_at"), Some("updated_at"), None, None)
  }

  datatype SchemaError =
    | PKColumnNotInColumns
    | CreatedAtColumnNotInColumns
    | UpdatedAtColumnNotInColumns
    | CreatedOnColumnNotInColumns
    | UpdatedOnColumnNotInColumns

  /** Python truthiness of an optional column name. */
  predicate Truthy(c: Option<string>)
  {
    c.Some? && c.value != ""
  }

  /** The configured columns checked after the primary key, in the order they are checked. */
  function ColumnChecks(s: Schema): seq<(Option<string>, SchemaError)>
  {
    [ (Some(s.pk), PKColumnNotInColumns),
      (s.createdAt, CreatedAtColumnNotInColumns),
      (s.updatedAt, UpdatedAtColumnNotInColumns),
      (s.createdOn, CreatedOnColumnNotInColumns),
      (s.updatedOn, UpdatedOnColumnNotInColumns) ]
  }

  /** A check fails when its column is configured but not declared. */
  predicate Fails(check: (Option<string>, SchemaError), columns: set<string>)
  {
    Truthy(check.0) && check.0.value !in columns
  }

  /** The error of the first failing check, if any. */
  function FirstFailure(checks: seq<(Option<string>, SchemaError)>, columns: set<string>): (r: Option<SchemaError>)
    ensures r.None? <==> forall i :: 0 <= i < |checks| ==> !Fails(checks[i], columns)
    ensures r.Some? ==> exists i :: 0 <= i < |checks| && Fails(checks[i], columns) && checks[i].1 == r.value
                          && forall j :: 0 <= j < i ==> !Fails(checks[j], columns)
  {
    if |checks| == 0 then None
    else if Fails(checks[0], columns) then Some(checks[0].1)
    else
      var r := FirstFailure(checks[1..], columns);
      if r.Some? then
        var i :| 0 <= i < |checks[1..]| && Fails(checks[1..][i], columns) && checks[1..][i].1 == r.value
                 && forall j :: 0 <= j < i ==> !Fails(checks[1..][j], columns);
        assert Fails(checks[i + 1], columns) && checks[i + 1].1 == r.value;
        assert forall j :: 0 <= j < i + 1 ==> !Fails(checks[j], columns) by {
          forall j | 0 <= j < i + 1 ensures !Fails(checks[j], columns) {
            if j > 0 { assert checks[j] == checks[1..][j - 1]; }
          }
        }
        r
      else
        assert forall i :: 0 <= i < |checks| ==> !Fails(checks[i], columns) by {
          forall i | 0 <= i < |checks| ensures !Fails(checks[i], columns) {
            if i > 0 { assert checks[i] == checks[1..][i - 1]; }
          }
        }
        r
  }

  /**
   * Defining a model class: the base class `ActiveRecord` is exempt; any other class
   * fails if its primary key is not a declared column, and then on the first configured
   * timestamp column that is not declared.
   */
  function DefineClass(s: Schema): (r: Option<SchemaError>)
    ensures r.None? <==> (s.name == "ActiveRecord" || (s.pk in s.columns &&
      (Truthy(s.createdAt) ==> s.createdAt.value in s.columns) &&
      (Truthy(s.updatedAt) ==> s.updatedAt.value in s.columns) &&
      (Truthy(s.createdOn) ==> s.createdOn.value in s.columns) &&
      (Truthy(s.updatedOn) ==> s.updatedOn.value in s.columns)))
    ensures s.name != "ActiveRecord" && s.pk !in s.columns ==> r == Some(PKColumnNotInColumns)
  {
    if s.name == "ActiveRecord" then None
    else if s.pk !in s.columns then Some(PKColumnNotInColumns)
    else
      var checks := ColumnChecks(s);
      assert !Fails(checks[0], s.columns);
      assert checks[1].0 == s.createdAt && checks[2].0 == s.updatedAt;
      assert checks[3].0 == s.createdOn && checks[4].0 == s.updatedOn;
      FirstFailure(checks, s.columns)
  }

  /** A model class that was defined without error: the classes records are made of. */
  predicate Defined(s: Schema)
  {
    s.name != "ActiveRecord" && DefineClass(s).None?
  }

  /**
   * A subclass that keeps the base class's defaults is defined exactly when it declares
   * `id`, `created_at` and `updated_at`.
   */
  lemma DefaultsNeedTheirColumns(name: string, columns: set<string>)
    requires name != "ActiveRecord"
    ensures DefineClass(DefaultSchema(name, columns)).None? <==> "id" in columns && "created_at" in columns && "updated_at" in columns
    ensures "id" !in columns ==> DefineClass(DefaultSchema(name, columns)) == Some(PKColumnNotInColumns)
  {
  }

  /**
   * The checks come in a fixed order: a missing `created_at` is reported only when the
   * primary key is declared, a missing `updated_at` only when `created_at` passes, and
   * so on down the list.
   */
  lemma CheckOrder(s: Schema)
    requires s.name != "ActiveRecord" && s.pk in s.columns
    ensures Fails((s.createdAt, CreatedAtColumnNotInColumns), s.columns) ==> DefineClass(s) == Some(CreatedAtColumnNotInColumns)
    ensures !Fails((s.createdAt, CreatedAtColumnNotInColumns), s.columns)
            && Fails((s.updatedAt, UpdatedAtColumnNotInColumns), s.columns)
            ==> DefineClass(s) == Some(UpdatedAtColumnNotInColumns)
    ensures !Fails((s.createdAt, CreatedAtColumnNotInColumns), s.columns)
            && !Fails((s.updatedAt, UpdatedAtColumnNotInColumns), s.columns)
            && Fails((s.createdOn, CreatedOnColumnNotInColumns), s.columns)
            ==> DefineClass(s) == Some(CreatedOnColumnNotInColumns)
    ensures !Fails((s.createdAt, CreatedAtColumnNotInColumns), s.columns)
            && !Fails((s.updatedAt, UpdatedAtColumnNotInColumns), s.columns)
            && !Fails((s.createdOn, CreatedOnColumnNotInColumns), s.columns)
            && Fails((s.updatedOn, UpdatedOnColumnNotInColumns), s.columns)
            ==> DefineClass(s) == Some(UpdatedOnColumnNotInColumns)
  {
    var c := s.columns;
    var t0 := ColumnChecks(s);
    var t1, t2, t3, t4 := t0[1..], t0[2..], t0[3..], t0[4..];
    assert t1[1..] == t2 && t2[1..] == t3 && t3[1..] == t4 && t4[1..] == [];
    assert !Fails(t0[0], c);
    assert DefineClass(s) == FirstFailure(t1, c);
    assert t1[0] == (s.createdAt, CreatedAtColumnNotInColumns);
    assert t2[0] == (s.updatedAt, UpdatedAtColumnNotInColumns);
    assert t3[0] == (s.createdOn, CreatedOnColumnNotInColumns);
    assert t4[0] == (s.updatedOn, UpdatedOnColumnNotInColumns);
  }

  // ---------------------------------------------------------------------------
  // Attributes

  datatype LookupError = AttributeError(name: string)

  /**
   * `__getattr__`, reached when ordinary lookup fails: an unset declared column reads as
   * `None`, anything else raises `AttributeError`.
   */
  function Lookup(s: Schema, attrs: map<string, Value>, name: string): (r: Result<Value, LookupError>)
    ensures r.Ok? <==> name in attrs || name in s.columns
    ensures r.Ok? && name in attrs ==> r.value == attrs[name]
    ensures r.Ok? && name !in attrs ==> r.value == Null
  {
    if name in attrs then Ok(attrs[name])
    else if name in s.columns then Ok(Null)
    else Err(AttributeError(name))
  }

  /** `getattr(record, name, default)`: the default is used only where lookup raises. */
  function Attribute(s: Schema, attrs: map<string, Value>, name: string, default: Value): Value
  {
    match Lookup(s, attrs, name)
    case Ok(v) => v
    case Err(_) => default
  }

  /** A declared column never falls back to the default: unset, it reads as `None`. */
  lemma ColumnIgnoresDefault(s: Schema, attrs: map<string, Value>, name: string, d1: Value, d2: Value)
    requires name in s.columns
    ensures Attribute(s, attrs, name, d1) == Attribute(s, attrs, name, d2)
    ensures name !in attrs ==> Attribute(s, attrs, name, d1) == Null
  {
  }

  /**
   * The keys whose current value differs from the one recorded at the last sync. A key
   * the origin map does not hold is never dirty.
   */
  function DirtyKeys(s: Schema, attrs: map<string, Value>, origin: map<string, Value>): (keys: set<string>)
    ensures keys <= origin.Keys
  {
    set k | k in origin && Attribute(s, attrs, k, origin[k]) != origin[k]
  }

  /**
   * `is_dirty(*names)`: false when nothing changed; otherwise true exactly when every
   * named attribute changed.
   */
  predicate IsDirtySpec(s: Schema, attrs: map<string, Value>, origin: map<string, Value>, names: seq<string>)
  {
    DirtyKeys(s, attrs, origin) != {} && forall i :: 0 <= i < |names| ==> names[i] in DirtyKeys(s, attrs, origin)
  }

  /** What `_sync_attrs` records: every declared column's current value, `None` if unset. */
  function Snapshot(s: Schema, attrs: map<string, Value>): (snap: map<string, Value>)
    ensures snap.Keys == s.columns
  {
    map c | c in s.columns :: Attribute(s, attrs, c, Null)
  }

  /**
   * `persist_attrs(contains_id)`: one entry per declared column, `None` where unset, with
   * the primary key dropped unless asked for.
   */
  function PersistAttrs(s: Schema, attrs: map<string, Value>, containsId: bool): (r: map<string, Value>)
    requires s.pk in s.columns
    ensures r.Keys == if containsId then s.columns else s.columns - {s.pk}
    ensures forall c :: c in r ==> r[c] == (if c in attrs then attrs[c] else Null)
  {
    map c | c in s.columns && (containsId || c != s.pk) :: Attribute(s, attrs, c, Null)
  }

  /** The snapshot taken by a sync is what `persist_attrs(True)` would write. */
  lemma SnapshotIsPersistAttrs(s: Schema, attrs: map<string, Value>)
    requires s.pk in s.columns
    ensures Snapshot(s, attrs) == PersistAttrs(s, attrs, true)
  {
  }

  /** Right after a sync nothing is dirty, so `is_dirty` is false whatever it is asked. */
  lemma SyncedIsClean(s: Schema, attrs: map<string, Value>, origin: map<string, Value>, names: seq<string>)
    requires origin.Keys <= s.columns
    ensures DirtyKeys(s, attrs, origin + Snapshot(s, attrs)) == {}
    ensures !IsDirtySpec(s, attrs, origin + Snapshot(s, attrs), names)
  {
    var synced := origin + Snapshot(s, attrs);
    forall k | k in synced
      ensures Attribute(s, attrs, k, synced[k]) == synced[k]
    {
      assert k in s.columns;
    }
  }

  /**
   * Assigning attributes after a sync: a synced key becomes dirty exactly when it is
   * assigned a value other than the recorded one; keys not assigned keep their state.
   */
  lemma DirtyAfterAssign(s: Schema, attrs: map<string, Value>, origin: map<string, Value>, updates: map<string, Value>)
    ensures forall k :: k in origin && k in updates ==>
      (k in DirtyKeys(s, attrs + updates, origin) <==> updates[k] != origin[k])
    ensures forall k :: k in origin && k !in updates ==>
      (k in DirtyKeys(s, attrs + updates, origin) <==> k in DirtyKeys(s, attrs, origin))
  {
  }

  /** Naming more attributes can only make `is_dirty` harder to satisfy. */
  lemma {:induction false} IsDirtyNarrows(s: Schema, attrs: map<string, Value>, origin: map<string, Value>,
                                          names: seq<string>, more: seq<string>)
    ensures IsDirtySpec(s, attrs, origin, names + more) ==> IsDirtySpec(s, attrs, origin, names)
    ensures IsDirtySpec(s, attrs, origin, names) ==> IsDirtySpec(s, attrs, origin, [])
  {
    if IsDirtySpec(s, attrs, origin, names + more) {
      forall i | 0 <= i < |names|
        ensures names[i] in DirtyKeys(s, attrs, origin)
      {
        assert (names + more)[i] == names[i];
      }
    }
  }

  // ---------------------------------------------------------------------------
  // Records

  datatype RecordError = RecordHasNotBeenPersisted | RecordNotFound

  /** A write that would be sent to the database. */
  datatype Write =
    | Insert(values: map<string, Value>)
    | Update(key: Value, values: map<string, Value>)
    | Remove(key: Value)

  /** A record: its attributes, whether it is persisted, and the values last synced. */
  class Record {
    const schema: Schema
    var attrs: map<string, Value>
    var persisted: bool
    var origin: map<string, Value>

    /** The origin map only ever holds declared columns. */
    predicate Valid()
      reads this
    {
      Defined(schema) && origin.Keys <= schema.columns
    }

    /**
     * `Model(dict_args, **kwargs)`: the dictionary's entries, then the keyword arguments,
     * so a keyword wins on a shared key. A new record is not persisted and has no origin.
     */
    constructor (s: Schema, dictArgs: map<string, Value>, kwargs: map<string, Value>)
      requires Defined(s)
      ensures schema == s && Valid()
      ensures attrs.Keys == dictArgs.Keys + kwargs.Keys
      ensures forall k :: k in kwargs ==> attrs[k] == kwargs[k]
      ensures forall k :: k in dictArgs && k !in kwargs ==> attrs[k] == dictArgs[k]
      ensures !persisted && origin == map[]
    {
      schema := s;
      attrs := dictArgs + kwargs;
      persisted := false;
      origin := map[];
    }

    /** The primary key's value: `None` while unset. */
    function Pk(): Value
      reads this
    {
      Attribute(schema, attrs, schema.pk, Null)
    }

    /**
     * `is_dirty(*names)`: collects the changed origin keys with their current and
     * recorded values, then checks the names against them.
     */
    method IsDirty(names: seq<string>) returns (dirty: bool)
      ensures dirty == IsDirtySpec(schema, attrs, origin, names)
    {
      var changed: map<string, (Value, Value)> := map[];
      var todo := origin.Keys;
      while todo != {}
        invariant todo <= origin.Keys
        invariant changed.Keys == DirtyKeys(schema, attrs, origin) - todo
        invariant forall k :: k in changed ==> changed[k] == (Attribute(schema, attrs, k, origin[k]), origin[k])
        decreases todo
      {
        var k :| k in todo;
        var v := origin[k];
        var current := Attribute(schema, attrs, k, v);
        if current != v {
          changed := changed[k := (current, v)];
        }
        todo := todo - {k};
      }
      if changed == map[] {
        assert DirtyKeys(schema, attrs, origin) == {} by {
          assert changed.Keys == {};
        }
        return false;
      }
      assert changed.Keys != {};
      var i := 0;
      while i < |names|
        invariant 0 <= i <= |names|
        invariant forall j :: 0 <= j < i ==> names[j] in changed
      {
        if names[i] !in changed {
          return false;
        }
        i := i + 1;
      }
      return true;
    }

    /** `_sync_attrs()`: records every declared column's current value in the origin map. */
    method SyncAttrs()
      requires Valid()
      modifies this
      ensures Valid()
      ensures origin == old(origin) + Snapshot(schema, attrs)
      ensures attrs == old(attrs) && persisted == old(persisted)
    {
      var todo := schema.columns;
      ghost var done: set<string> := {};
      while todo != {}
        invariant todo + done == schema.columns && todo !! done
        invariant origin == old(origin) + map c | c in done :: Attribute(schema, attrs, c, Null)
        invariant attrs == old(attrs) && persisted == old(persisted)
        decreases todo
      {
        var c :| c in todo;
        origin := origin[c := Attribute(schema, attrs, c, Null)];
        todo := todo - {c};
        done := done + {c};
      }
      assert done == schema.columns;
    }

    /**
     * `save()`: an unpersisted record is inserted, takes the key the insert returns and
     * becomes persisted; a persisted one is updated under its key. Either way the
     * columns other than the key are written, and the record is synced afterwards.
     */
    method Save(insertedId: Value) returns (w: Write)
      requires Valid()
      modifies this
      ensures Valid() && persisted
      ensures old(persisted) ==> w == Update(old(Pk()), PersistAttrs(schema, old(attrs), false)) && attrs == old(attrs)
      ensures !old(persisted) ==> w == Insert(PersistAttrs(schema, old(attrs), false)) && attrs == old(attrs)[schema.pk := insertedId]
      ensures origin == old(origin) + Snapshot(schema, attrs)
    {
      var values := PersistAttrs(schema, attrs, false);
      if persisted {
        w := Update(Pk(), values);
      } else {
        w := Insert(values);
        attrs := attrs[schema.pk := insertedId];
        persisted := true;
      }
      SyncAttrs();
    }

    /**
     * `update_attributes(**updates)`: refused on an unpersisted record; otherwise the
     * updates are written under the record's key and assigned, without a sync.
     */
    method UpdateAttributes(updates: map<string, Value>) returns (r: Result<Write, RecordError>)
      requires Valid()
      modifies this
      ensures Valid() && persisted == old(persisted) && origin == old(origin)
      ensures !old(persisted) ==> r == Err(RecordHasNotBeenPersisted) && attrs == old(attrs)
      ensures old(persisted) ==> r == Ok(Update(old(Pk()), updates)) && attrs == old(attrs) + updates
    {
      if !persisted {
        return Err(RecordHasNotBeenPersisted);
      }
      r := Ok(Update(Pk(), updates));
      attrs := attrs + updates;
    }

    /** `delete()`: refused on an unpersisted record; otherwise removes it by its key. */
    method Delete() returns (r: Result<Write, RecordError>)
      ensures r.Err? <==> !persisted
      ensures r.Err? ==> r.error == RecordHasNotBeenPersisted
      ensures r.Ok? ==> r.value == Remove(Pk())
    {
      if !persisted {
        return Err(RecordHasNotBeenPersisted);
      }
      return Ok(Remove(Pk()));
    }
  }

  /** Saving leaves the record clean: `is_dirty` is false until an attribute changes. */
  method SaveThenClean(r: Record, insertedId: Value, names: seq<string>) returns (dirty: bool)
    requires r.Valid()
    modifies r
    ensures r.persisted && !dirty
  {
    var _ := r.Save(insertedId);
    SyncedIsClean(r.schema, r.attrs, old(r.origin), names);
    dirty := r.IsDirty(names);
  }

  // ---------------------------------------------------------------------------
  // find

  /** What `find(*ids)` returns: one record for one id, otherwise a list. */
  datatype Found<R> = One(record: R) | Many(records: seq<R>)

  /**
   * `find(*ids)`, given what the query's `first()` and `all()` return: one id must find
   * a record or `RecordNotFound` is raised; any other number of ids returns `all()`
   * unchecked.
   */
  function Find<R>(ids: seq<Value>, first: Option<R>, all: seq<R>): (r: Result<Found<R>, RecordError>)
    ensures r.Err? <==> |ids| == 1 && first.None?
    ensures r.Err? ==> r.error == RecordNotFound
    ensures r.Ok? && |ids| == 1 ==> r.value == One(first.value)
    ensures |ids| != 1 ==> r == Ok(Many(all))
  {
    if |ids| == 1 then
      if first.None? then Err(RecordNotFound) else Ok(One(first.value))
    else Ok(Many(all))
  }

  /** The keyword argument `find` filters on, as written: the column literally named `id`. */
  function FindFilterAsWritten(ids: seq<Value>): (string, Value)
  {
    ("id", List(ids))
  }

  /** The keyword argument `find` filters on: the primary key, in the list of ids. */
  function FindFilter(s: Schema, ids: seq<Value>): (string, Value)
  {
    (s.pk, List(ids))
  }

  /**
   * The filter, as written, ignores the configured primary key: for a model keyed on
   * `uid` it parses to a predicate on the column `id`.
   */
  lemma FindIgnoresPrimaryKey(s: Schema, ids: seq<Value>)
    requires s.pk == "uid" && Defined(s)
    ensures var f := FindFilterAsWritten(ids);
      ParseArg(f.0, f.1) == Ok(Predicate(["id"], InList(false), ids))
    ensures ["id"] != [s.pk]
  {
    AbsentHeadThenPrefix("id", KeySeparator);
    assert CleanSegment("id");
    ParseKeyText(Key(["id"], None));
    assert KeyText(Key(["id"], None)) == "id";
  }

  /**
   * The intended filter selects the records whose primary key is one of the ids,
   * whatever the key is called (as long as it reads back as a plain column name).
   */
  lemma FindFiltersOnPrimaryKey(s: Schema, ids: seq<Value>)
    requires CleanKey(Key([s.pk], None))
    ensures var f := FindFilter(s, ids);
      ParseArg(f.0, f.1) == Ok(Predicate([s.pk], InList(false), ids))
  {
    ParseKeyText(Key([s.pk], None));
    assert KeyText(Key([s.pk], None)) == s.pk;
  }
}
