/**
 * The feature store: a table of geometry-bearing rows behind a driver, with
 * platform-specific spatial SQL, a lazily resolved SRID, cancellable hooks
 * around every write, and the conversion of result rows to features.
 *
 * The database is a map from id to row plus a sequence for new ids and the
 * list of write statements issued; the driver's own coordinate transform,
 * its quoting, the way a stored row comes back from a select and the
 * GeoJSON form of a feature are functions the store is given.
 */
module FeatureTypes {
  import opened Wrappers
  import opened PhpValues
  import opened DataItems
  import opened Drivers
  import opened SqlFragments
  import opened ColumnNames
  import opened GeometryText

  const UploadDirName := "featureTypes"

  const OnBeforeSave := "onBeforeSave"
  const OnAfterSave := "onAfterSave"
  const OnBeforeInsert := "onBeforeInsert"
  const OnAfterInsert := "onAfterInsert"
  const OnBeforeUpdate := "onBeforeUpdate"
  const OnAfterUpdate := "onAfterUpdate"

  const TransformUnsupported := "Driver isn't ablet to transform ewkt"
  const NoUpdateCriteria := "Feature can't be updated without criteria"
  const IncompatibleData := "Feature data given isn't compatible to save into the table: "

  /** A data item with the SRID its geometry is expressed in. */
  class Feature {
    const item: DataItem
    var srid: Value

    constructor (args: Attrs, srid: Value, uniqueIdField: string)
      ensures fresh(item)
      ensures item.uniqueIdField == uniqueIdField
      ensures item.id == InitialId(args, uniqueIdField)
      ensures item.attributes == InitialAttributes(args, uniqueIdField)
      ensures this.srid == srid
    {
      item := new DataItem(args, uniqueIdField, false);
      this.srid := srid;
    }

    method SetSrid(s: Value)
      modifies this
      ensures srid == s
    {
      srid := s;
    }
  }

  /** What the store's `create` is given: a feature, or anything else the
      driver's cast accepts. */
  datatype FeatureArg = FeatureObject(feature: Feature) | NonFeature(arg: CreateArg)

  /** The array a new feature is built from. A data item that is not a
      feature is read through its public properties, of which it has none. */
  function FeatureInput(arg: CreateArg, uniqueId: string): (r: Attrs)
    ensures arg.ItemArg? ==> r == map[]
    ensures !arg.ItemArg? ==> r == CreateInput(arg, uniqueId)
  {
    if arg.ItemArg? then map[] else CreateInput(arg, uniqueId)
  }

  /** The objects a write may change in a feature it is handed. */
  function ItemsOf(arg: FeatureArg): set<object> {
    if arg.FeatureObject? then {arg.feature.item} else {}
  }

  /** A statement written to the database. */
  datatype Statement =
    | InsertRow(data: Attrs)
    | UpdateRows(data: Attrs, id: Value)
    | AddGeometryColumnDdl(table: string, geometryType: string, srid: Value, column: string, schema: string, dimensions: int)

  /** The store's table, behind the connection. New rows take the next value
      of the table's id sequence, which is also the last insert id. */
  class Database {
    var table: map<Value, Attrs>
    var nextId: int
    var statements: seq<Statement>

    constructor (table: map<Value, Attrs>, nextId: int)
      ensures this.table == table && this.nextId == nextId && statements == []
    {
      this.table := table;
      this.nextId := nextId;
      statements := [];
    }
  }

  /** The driver and connection as the store sees them. `report` is how a
      select returns a stored row with its geometry read in the given SRID;
      `insertError` and `updateError` are the exception the connection
      raises for an insert of a payload, or an update of a payload at an id,
      if any (a constraint violation, an unknown column). */
  datatype Backend = Backend(
    platform: Platform,
    tableName: string,
    geographic: bool,
    tableSrid: Value,
    transformEwkt: (Value, Value) -> Value,
    quote: string -> string,
    report: (Attrs, Value) -> Attrs,
    insertError: Attrs -> Option<string>,
    updateError: (Attrs, Value) -> Option<string>,
    toGeoJson: (Value, Attrs, Value) -> Value)

  /** A hook either lets the operation go on, with a possibly rewritten
      payload and the operation's allow flag, or raises an exception. */
  datatype HookOutcome<T> = Proceed(payload: T, allow: bool) | Raise(message: string)

  /** Hooks by event name: those around `save` see the data given to
      `save`, those around `insert` and `update` the row payload; both see
      the feature's id. */
  datatype Hooks = Hooks(
    save: map<string, (FeatureArg, Value) -> HookOutcome<FeatureArg>>,
    write: map<string, (Attrs, Value) -> HookOutcome<Attrs>>)

  /** Runs the hook registered for an event; without one the operation goes
      on unchanged. */
  function RunHook<T>(hooks: map<string, (T, Value) -> HookOutcome<T>>, name: string, payload: T, id: Value): (r: HookOutcome<T>)
    ensures name !in hooks ==> r == Proceed(payload, true)
  {
    if name in hooks then hooks[name](payload, id) else Proceed(payload, true)
  }

  function Raised<T>(o: HookOutcome<T>): (r: Option<string>)
    ensures r.Some? <==> o.Raise?
  {
    if o.Raise? then Some(o.message) else None
  }

  /** The SRID after `getSrid`: a truthy SRID is kept; otherwise a platform
      with spatial metadata supplies the table's SRID. */
  function ResolvedSrid(srid: Value, backend: Backend): (r: Value)
    ensures Truthy(srid) ==> r == srid
    ensures !Truthy(srid) && !backend.platform.OtherPlatform? ==> r == backend.tableSrid
    ensures !Truthy(srid) && backend.platform.OtherPlatform? ==> r == srid
  {
    if Truthy(srid) || backend.platform.OtherPlatform? then srid else backend.tableSrid
  }

  /** Resolving twice gives what resolving once gives. */
  lemma ResolvedSridIdempotent(srid: Value, backend: Backend)
    ensures ResolvedSrid(ResolvedSrid(srid, backend), backend) == ResolvedSrid(srid, backend)
  {
  }

  /** An entry `cleanFeatureData` drops: an integer key that is a position
      in the merged field list. String keys are never dropped; a key like
      "1", which PHP would store as the integer 1, is written `IntKey(1)`. */
  predicate Dropped(k: Key, fieldCount: nat) {
    k.IntKey? && 0 <= k.i < fieldCount
  }

  /** The payload after `cleanFeatureData`. */
  function Cleaned(data: Attrs, fieldCount: nat): (r: Attrs)
    ensures forall k :: k in r <==> k in data && !Dropped(k, fieldCount)
    ensures forall k :: k in r ==> r[k] == data[k]
  {
    map k | k in data && !Dropped(k, fieldCount) :: data[k]
  }

  /** `array_search` with loose comparison: the first position holding a
      value loosely equal to the needle, or none (PHP's `false`). */
  function ArraySearch(fields: seq<string>, needle: Value): (r: Option<nat>)
    ensures r.Some? ==> r.value < |fields| && LooseEquals(needle, Str(fields[r.value]))
                          && forall j :: 0 <= j < r.value ==> !LooseEquals(needle, Str(fields[j]))
    ensures r.None? ==> forall j :: 0 <= j < |fields| ==> !LooseEquals(needle, Str(fields[j]))
  {
    if fields == [] then None
    else if LooseEquals(needle, Str(fields[0])) then Some(0)
    else
      match ArraySearch(fields[1..], needle)
      case Some(j) => Some(j + 1)
      case None => None
  }

  function RemoveAt(fields: seq<string>, i: nat): (r: seq<string>)
    ensures i < |fields| ==> |r| == |fields| - 1
    ensures i >= |fields| ==> r == fields
  {
    if i < |fields| then fields[..i] + fields[i + 1..] else fields
  }

  /** The field list after construction: without explicit fields but with a
      geometry field, the entry `array_search` finds is removed; when it
      finds none, `false` is used as the key, which is the key 0. */
  function PrunedFields(fields: seq<string>, args: Attrs): seq<string> {
    var hasFields := IsSet(args, K("fields")) && args[K("fields")].Arr?;
    if !hasFields && IsSet(args, K("geomField")) then RemoveAt(fields, ArraySearch(fields, args[K("geomField")]).GetOr(0))
    else fields
  }

  /** The geometry field is removed from the field list where it stands. */
  lemma PruningRemovesGeomField(fields: seq<string>, args: Attrs, i: nat)
    requires !IsSet(args, K("fields")) && IsSet(args, K("geomField"))
    requires i < |fields| && args[K("geomField")] == Str(fields[i])
    requires forall j :: 0 <= j < i ==> fields[j] != fields[i]
    ensures PrunedFields(fields, args) == fields[..i] + fields[i + 1..]
  {
    assert LooseEquals(Str(fields[i]), Str(fields[i]));
    var k := ArraySearch(fields, args[K("geomField")]);
    assert k.Some? && k.value <= i;
  }

  /** When the geometry field is not in the list, the first field is
      removed instead. */
  lemma PruningWithoutGeomFieldDropsFirst(fields: seq<string>, args: Attrs)
    requires !IsSet(args, K("fields")) && IsSet(args, K("geomField"))
    requires fields != [] && forall j :: 0 <= j < |fields| ==> !LooseEquals(args[K("geomField")], Str(fields[j]))
    ensures PrunedFields(fields, args) == fields[1..]
  {
  }

  /** The default upload directory of a field: the table's directory, and
      below it the field's own when a field name is given. */
  function DefaultFileUri(tableName: string, fieldName: Value): string {
    UploadDirName + "/" + tableName + (if Truthy(fieldName) then "/" + ToStr(fieldName) else "")
  }

  /** A file-info entry that names a field and a URI and is about this field. */
  predicate FileInfoMatches(info: Attrs, fieldName: Value) {
    IsSet(info, K("field")) && IsSet(info, K("uri")) && LooseEquals(fieldName, info[K("field")])
  }

  /** A sequence as a PHP list. */
  function ListOf(xs: seq<Value>): (r: Attrs)
    ensures forall k :: k in r <==> k.IntKey? && 0 <= k.i < |xs|
    ensures forall i :: 0 <= i < |xs| ==> r[IntKey(i)] == xs[i]
  {
    map k | k in (set i | 0 <= i < |xs| :: IntKey(i)) :: xs[k.i]
  }

  /** The FeatureCollection a search returns. */
  function FeatureCollection(geoJson: seq<Value>): Value {
    Arr(map[K("type") := Str("FeatureCollection"), K("features") := Arr(ListOf(geoJson))])
  }

  /** At most `limit` rows; a negative limit is not modelled as a cap. */
  function Limit(rows: seq<Attrs>, limit: int): (r: seq<Attrs>)
    ensures |r| <= |rows| && r == rows[..|r|]
    ensures 0 <= limit ==> |r| == if limit < |rows| then limit else |rows|
  {
    if 0 <= limit < |rows| then rows[..limit] else rows
  }

  /** The query a search runs: the select expression for the geometry
      column, the WHERE clause and the row limit. */
  datatype Query = Query(geometrySelect: string, where: Option<string>, limit: int)

  datatype SearchResult = Features(features: seq<Feature>) | Collection(collection: Value)

  /** What `save` returns when the input is accepted: the re-fetched feature
      (none when the id matches no row), or the exception with the feature
      and the data being saved. */
  datatype SaveOutcome = Saved(found: Option<Feature>) | Failed(message: string, feature: Feature, featureData: FeatureArg)

  /** The write `save` dispatches to. */
  datatype WritePath = NoWrite | InsertPath | UpdatePath

  /** What a write of `save` can change besides the feature: the table, the
      statement log, the next row id and the two write flags. */
  datatype WriteState = WriteState(table: map<Value, Attrs>, statements: seq<Statement>, nextId: int,
                                   allowInsert: bool, allowUpdate: bool)

  /** The write state after an insert that ends in `end`: the hook's flag
      is kept, and a written row gets the next id under the id column. */
  function AfterInsert(w: WriteState, end: InsertEnd, uniqueId: string): WriteState {
    var flagged := w.(allowInsert := if end.flag.Some? then end.flag.value else w.allowInsert);
    if end.row.Some? then
      flagged.(table := w.table[Int(w.nextId) := end.row.value[K(uniqueId) := Int(w.nextId)]],
               statements := w.statements + [InsertRow(end.row.value)],
               nextId := w.nextId + 1)
    else flagged
  }

  /** The write state after an update of the rows with id `id` that ends
      in `end`. */
  function AfterUpdate(w: WriteState, end: UpdateEnd, id: Value): WriteState {
    var flagged := w.(allowUpdate := if end.flag.Some? then end.flag.value else w.allowUpdate);
    if end.write.Some? then
      flagged.(table := UpdatedTable(w.table, id, end.write.value),
               statements := w.statements + [UpdateRows(end.write.value, id)])
    else flagged
  }

  /** The write state, the feature's id and the failure the write step of
      `save` leaves. */
  datatype Written = Written(state: WriteState, id: Value, failure: Option<string>)

  /** What the write step of `save` along `path` leaves, from the write
      state `w` and a feature with id `id`, when an insert would end in
      `insertEnd` and an update in `updateEnd`. */
  function WriteResult(path: WritePath, w: WriteState, id: Value, insertEnd: InsertEnd, updateEnd: UpdateEnd,
                       uniqueId: string): Written
  {
    match path
    case NoWrite => Written(w, id, None)
    case InsertPath => Written(AfterInsert(w, insertEnd, uniqueId), insertEnd.id, insertEnd.failure)
    case UpdatePath => Written(AfterUpdate(w, updateEnd, id), id, updateEnd.failure)
  }

  /** `save` accepts arrays and objects only. */
  predicate Incompatible(arg: FeatureArg) {
    arg.NonFeature? && arg.arg.ValueArg? && !arg.arg.v.Arr?
  }

  /** The rows of `table` whose id is `id`, updated with `data`. A null id
      matches no row, as `uid = NULL` is never true in SQL. */
  function UpdatedTable(table: map<Value, Attrs>, id: Value, data: Attrs): (r: map<Value, Attrs>)
    ensures r.Keys == table.Keys
  {
    if id != Null && id in table then table[id := table[id] + data] else table
  }

  /** An update merges the data into the row with the id, and only there;
      no row is added or removed, and a null id changes nothing. */
  lemma UpdatedTableEffect(table: map<Value, Attrs>, id: Value, data: Attrs)
    ensures var r := UpdatedTable(table, id, data);
            && r.Keys == table.Keys
            && (forall k :: k in r && k != id ==> r[k] == table[k])
            && (id == Null ==> r == table)
            && (id != Null && id in table ==> r[id] == table[id] + data)
  {
  }

  /** The payload a write hands to its before hook: the feature's array
      form after `cleanFeatureData`, with the geometry entry replaced by its
      transform (a missing entry is transformed as null). */
  function WritePayload(view: Attrs, fieldCount: nat, geomField: string, backend: Backend, sridTo: Value): (r: Attrs)
    ensures K(geomField) in r
    ensures r[K(geomField)] == backend.transformEwkt(Get(Cleaned(view, fieldCount), K(geomField)), sridTo)
    ensures forall k :: k != K(geomField) ==> (k in r <==> k in view && !Dropped(k, fieldCount))
    ensures forall k :: k in r && k != K(geomField) ==> r[k] == view[k]
  {
    var data := Cleaned(view, fieldCount);
    data[K(geomField) := backend.transformEwkt(Get(data, K(geomField)), sridTo)]
  }

  /** The payload of an update: the write payload without the id column. */
  function UpdatePayload(view: Attrs, fieldCount: nat, geomField: string, uniqueId: string,
                         backend: Backend, sridTo: Value): Attrs
  {
    WritePayload(view, fieldCount, geomField, backend, sridTo) - {K(uniqueId)}
  }

  /** The update payload holds the write payload's entries except the id
      column. */
  lemma UpdatePayloadEntries(view: Attrs, fieldCount: nat, geomField: string, uniqueId: string,
                             backend: Backend, sridTo: Value)
    ensures var r := UpdatePayload(view, fieldCount, geomField, uniqueId, backend, sridTo);
            var w := WritePayload(view, fieldCount, geomField, backend, sridTo);
            && K(uniqueId) !in r
            && (forall k :: k != K(uniqueId) ==> (k in r <==> k in w))
            && (forall k :: k in r ==> r[k] == w[k])
  {
  }

  /** How an insert ends: the exception it raises, if any; the payload it
      writes, if any; the id the feature is given; and the value the
      allow-insert flag is left with (none when it is not reached). */
  datatype InsertEnd = InsertEnd(failure: Option<string>, row: Option<Attrs>, id: Value, flag: Option<bool>)

  /** An insert from the payload its before hook is handed. Without the
      geographic capability the transform raises before anything else. A
      vetoed insert writes nothing and gives the feature a null id; the
      after hook runs either way. An insert the connection rejects raises
      before the feature's id is set and before the after hook. */
  function InsertEnding(backend: Backend, writeHooks: map<string, (Attrs, Value) -> HookOutcome<Attrs>>,
                        payload: Attrs, entryId: Value, nextId: int): (r: InsertEnd)
    ensures r.row.Some? ==> r.id == Int(nextId) && r.failure == Raised(RunHook(writeHooks, OnAfterInsert, r.row.value, r.id))
    ensures r.row.None? ==> r.id == entryId || r.id == Null
  {
    if !backend.geographic then InsertEnd(Some(TransformUnsupported), None, entryId, None)
    else
      match RunHook(writeHooks, OnBeforeInsert, payload, entryId)
      case Raise(m) => InsertEnd(Some(m), None, entryId, Some(true))
      case Proceed(data, allow) =>
        if allow && backend.insertError(data).Some? then InsertEnd(backend.insertError(data), None, entryId, Some(true))
        else
          var id := if allow then Int(nextId) else Null;
          InsertEnd(Raised(RunHook(writeHooks, OnAfterInsert, data, id)), if allow then Some(data) else None, id, Some(allow))
  }

  /** How an update ends: the exception it raises, if any; the payload it
      writes, if any; and the value the allow-update flag is left with. */
  datatype UpdateEnd = UpdateEnd(failure: Option<string>, write: Option<Attrs>, flag: Option<bool>)

  /** An update from the payload its before hook is handed. A payload the
      hook leaves empty is rejected before any write, whatever the flag. An
      update the connection rejects raises before the after hook. */
  function UpdateEnding(backend: Backend, writeHooks: map<string, (Attrs, Value) -> HookOutcome<Attrs>>,
                        payload: Attrs, id: Value): (r: UpdateEnd)
    ensures r.write.Some? ==> r.write.value != map[] && r.flag == Some(true)
  {
    if !backend.geographic then UpdateEnd(Some(TransformUnsupported), None, None)
    else
      match RunHook(writeHooks, OnBeforeUpdate, payload, id)
      case Raise(m) => UpdateEnd(Some(m), None, Some(true))
      case Proceed(data, allow) =>
        if data == map[] then UpdateEnd(Some(NoUpdateCriteria), None, Some(allow))
        else if allow && backend.updateError(data, id).Some? then UpdateEnd(backend.updateError(data, id), None, Some(true))
        else UpdateEnd(Raised(RunHook(writeHooks, OnAfterUpdate, data, id)), if allow then Some(data) else None, Some(allow))
  }

  /** A vetoed insert writes nothing and leaves the feature without an id,
      and its after hook still decides whether it raises. */
  lemma VetoedInsert(backend: Backend, writeHooks: map<string, (Attrs, Value) -> HookOutcome<Attrs>>,
                     payload: Attrs, entryId: Value, nextId: int)
    requires backend.geographic
    requires RunHook(writeHooks, OnBeforeInsert, payload, entryId).Proceed?
    requires !RunHook(writeHooks, OnBeforeInsert, payload, entryId).allow
    ensures var r := InsertEnding(backend, writeHooks, payload, entryId, nextId);
            r.row.None? && r.id == Null && r.flag == Some(false)
            && r.failure == Raised(RunHook(writeHooks, OnAfterInsert, RunHook(writeHooks, OnBeforeInsert, payload, entryId).payload, Null))
  {
  }

  /** Without hooks, an insert on a geographic driver writes its payload
      and gives the feature the next id, unless the connection rejects it. */
  lemma InsertWithoutHooks(backend: Backend, payload: Attrs, entryId: Value, nextId: int)
    requires backend.geographic
    ensures InsertEnding(backend, map[], payload, entryId, nextId)
            == if backend.insertError(payload).Some? then InsertEnd(backend.insertError(payload), None, entryId, Some(true))
               else InsertEnd(None, Some(payload), Int(nextId), Some(true))
  {
  }

  /** An insert the connection rejects writes nothing, keeps the feature's
      id and raises the connection's exception, whatever the after hook. */
  lemma RejectedInsert(backend: Backend, writeHooks: map<string, (Attrs, Value) -> HookOutcome<Attrs>>,
                       payload: Attrs, entryId: Value, nextId: int)
    requires backend.geographic
    requires RunHook(writeHooks, OnBeforeInsert, payload, entryId).Proceed?
    requires RunHook(writeHooks, OnBeforeInsert, payload, entryId).allow
    requires backend.insertError(RunHook(writeHooks, OnBeforeInsert, payload, entryId).payload).Some?
    ensures var r := InsertEnding(backend, writeHooks, payload, entryId, nextId);
            r.row.None? && r.id == entryId
            && r.failure == backend.insertError(RunHook(writeHooks, OnBeforeInsert, payload, entryId).payload)
  {
  }

  /** The update payload always holds the geometry entry, so it is empty
      only when a hook empties it or the geometry field is the id field. */
  lemma UpdatePayloadNotEmpty(view: Attrs, fieldCount: nat, geomField: string, uniqueId: string,
                              backend: Backend, sridTo: Value)
    requires geomField != uniqueId
    ensures UpdatePayload(view, fieldCount, geomField, uniqueId, backend, sridTo) != map[]
  {
    assert K(geomField) in UpdatePayload(view, fieldCount, geomField, uniqueId, backend, sridTo);
  }

  /** An update whose hook empties the payload raises and writes nothing. */
  lemma EmptiedUpdateRejected(backend: Backend, writeHooks: map<string, (Attrs, Value) -> HookOutcome<Attrs>>,
                              payload: Attrs, id: Value)
    requires backend.geographic
    requires RunHook(writeHooks, OnBeforeUpdate, payload, id).Proceed?
    requires RunHook(writeHooks, OnBeforeUpdate, payload, id).payload == map[]
    ensures UpdateEnding(backend, writeHooks, payload, id).failure == Some(NoUpdateCriteria)
    ensures UpdateEnding(backend, writeHooks, payload, id).write.None?
  {
  }

  /** Without hooks, an update on a geographic driver writes its payload
      when it is not empty, unless the connection rejects it. */
  lemma UpdateWithoutHooks(backend: Backend, payload: Attrs, id: Value)
    requires backend.geographic && payload != map[]
    ensures UpdateEnding(backend, map[], payload, id)
            == if backend.updateError(payload, id).Some? then UpdateEnd(backend.updateError(payload, id), None, Some(true))
               else UpdateEnd(None, Some(payload), Some(true))
  {
  }

  /** An update the connection rejects writes nothing and raises the
      connection's exception, whatever the after hook. */
  lemma RejectedUpdate(backend: Backend, writeHooks: map<string, (Attrs, Value) -> HookOutcome<Attrs>>,
                       payload: Attrs, id: Value)
    requires backend.geographic
    requires RunHook(writeHooks, OnBeforeUpdate, payload, id).Proceed?
    requires RunHook(writeHooks, OnBeforeUpdate, payload, id).allow
    requires RunHook(writeHooks, OnBeforeUpdate, payload, id).payload != map[]
    requires backend.updateError(RunHook(writeHooks, OnBeforeUpdate, payload, id).payload, id).Some?
    ensures var r := UpdateEnding(backend, writeHooks, payload, id);
            r.write.None? && r.failure == backend.updateError(RunHook(writeHooks, OnBeforeUpdate, payload, id).payload, id)
  {
  }

  /** The rows as the store converts them: lower-cased column names on
      Oracle, as reported elsewhere. */
  function Renamed(rows: seq<Attrs>, columns: seq<Key>, platform: Platform): (r: seq<Attrs>)
    ensures |r| == |rows|
  {
    if platform.Oracle? then seq(|rows|, i requires 0 <= i < |rows| => RenameColumns(rows[i], columns, LowerKey))
    else rows
  }

  class FeatureStore {
    const driver: Driver
    const db: Database
    const backend: Backend
    const geomField: string
    const sqlFilter: Value
    const filesInfo: seq<Attrs>
    const hooks: Hooks
    var srid: Value
    var sridQueries: nat
    var allowSave: bool
    var allowInsert: bool
    var allowUpdate: bool

    /** Builds the store over a driver whose settings are already applied.
        Without an explicit field list but with a geometry field, the
        driver's field list is pruned. */
    constructor (driver: Driver, db: Database, backend: Backend, args: Attrs, geomField: string,
                 srid: Value, sqlFilter: Value, filesInfo: seq<Attrs>, hooks: Hooks)
      modifies driver
      ensures this.driver == driver && this.db == db && this.backend == backend
      ensures this.geomField == geomField && this.srid == srid && this.sqlFilter == sqlFilter
      ensures this.filesInfo == filesInfo && this.hooks == hooks && sridQueries == 0
      ensures driver.fields == PrunedFields(old(driver.fields), args)
      ensures driver.uniqueId == old(driver.uniqueId) && driver.settings == old(driver.settings)
    {
      this.driver := driver;
      this.db := db;
      this.backend := backend;
      this.geomField := geomField;
      this.srid := srid;
      this.sqlFilter := sqlFilter;
      this.filesInfo := filesInfo;
      this.hooks := hooks;
      sridQueries := 0;
      allowSave := false;
      allowInsert := false;
      allowUpdate := false;
      new;
      var hasFields := IsSet(args, K("fields")) && args[K("fields")].Arr?;
      if !hasFields && IsSet(args, K("geomField")) {
        var fields := driver.GetStoreFields();
        fields := RemoveAt(fields, ArraySearch(fields, args[K("geomField")]).GetOr(0));
        var _ := driver.SetFields(fields);
      }
    }

    /** The SRID, looked up in the table's spatial metadata while it is not
        known (falsy) and remembered afterwards. */
    method GetSrid() returns (r: Value)
      modifies this
      ensures srid == ResolvedSrid(old(srid), backend) && r == srid
      ensures sridQueries == if Truthy(old(srid)) || backend.platform.OtherPlatform? then old(sridQueries) else old(sridQueries) + 1
      ensures allowSave == old(allowSave) && allowInsert == old(allowInsert) && allowUpdate == old(allowUpdate)
    {
      if !Truthy(srid) {
        match backend.platform
        case PostgreSql =>
          srid := backend.tableSrid;
          sridQueries := sridQueries + 1;
        case Oracle =>
          srid := backend.tableSrid;
          sridQueries := sridQueries + 1;
        case OtherPlatform(_) =>
      }
      r := srid;
    }

    /** Casts the argument to a feature: a feature is returned as it is,
        anything else becomes a new feature in the store's SRID. */
    method Create(arg: FeatureArg) returns (f: Feature)
      modifies this
      ensures arg.FeatureObject? ==> f == arg.feature && srid == old(srid)
      ensures arg.NonFeature? ==> fresh(f) && fresh(f.item) && srid == ResolvedSrid(old(srid), backend)
      ensures arg.NonFeature? ==> f.item.uniqueIdField == driver.uniqueId && f.srid == srid
      ensures arg.NonFeature? ==> f.item.id == InitialId(FeatureInput(arg.arg, driver.uniqueId), driver.uniqueId)
      ensures arg.NonFeature? ==> f.item.attributes == InitialAttributes(FeatureInput(arg.arg, driver.uniqueId), driver.uniqueId)
      ensures allowSave == old(allowSave) && allowInsert == old(allowInsert) && allowUpdate == old(allowUpdate)
    {
      if arg.FeatureObject? {
        f := arg.feature;
      } else {
        var storeSrid := GetSrid();
        f := new Feature(FeatureInput(arg.arg, driver.uniqueId), storeSrid, driver.uniqueId);
      }
    }

    /** Transforms a geometry to the given SRID, or to the store's when the
        given one is falsy; only a driver with the geographic capability can. */
    method TransformEwkt(ewkt: Value, givenSrid: Value) returns (r: Result<Value>)
      modifies this
      ensures srid == if Truthy(givenSrid) then old(srid) else ResolvedSrid(old(srid), backend)
      ensures !backend.geographic ==> r == Err(TransformUnsupported)
      ensures backend.geographic ==>
                r == Ok(backend.transformEwkt(ewkt, if Truthy(givenSrid) then givenSrid else ResolvedSrid(old(srid), backend)))
      ensures allowSave == old(allowSave) && allowInsert == old(allowInsert) && allowUpdate == old(allowUpdate)
    {
      var target := givenSrid;
      if !Truthy(target) {
        target := GetSrid();
      }
      if !backend.geographic {
        return Err(TransformUnsupported);
      }
      r := Ok(backend.transformEwkt(ewkt, target));
    }

    /** Adds a geometry column when the driver has the geographic
        capability; reports whether it did. */
    method AddGeometryColumn(tableName: string, geometryType: string, srid: Value,
                             geomFieldName: string, schemaName: string, dimensions: int) returns (r: bool)
      modifies db
      ensures r == backend.geographic
      ensures db.statements == old(db.statements)
                + (if r then [AddGeometryColumnDdl(tableName, geometryType, srid, geomFieldName, schemaName, dimensions)] else [])
      ensures db.table == old(db.table) && db.nextId == old(db.nextId)
    {
      r := false;
      if backend.geographic {
        db.statements := db.statements + [AddGeometryColumnDdl(tableName, geometryType, srid, geomFieldName, schemaName, dimensions)];
        r := true;
      }
    }

    /** Removes from a payload the entries whose key is a position in the
        list of the store's fields followed by the id and geometry fields.
        Attributes named by strings are all kept. */
    method CleanFeatureData(data: Attrs) returns (r: Attrs)
      ensures forall k :: k in r <==> k in data && !Dropped(k, |driver.fields| + 2)
      ensures forall k :: k in r ==> r[k] == data[k]
    {
      var fields := driver.GetFields() + [driver.GetUniqueId(), geomField];
      r := data;
      var rest := data.Keys;
      while rest != {}
        invariant rest <= data.Keys
        invariant forall k :: k in r <==> k in data && (k in rest || !Dropped(k, |fields|))
        invariant forall k :: k in r ==> r[k] == data[k]
        decreases rest
      {
        var k :| k in rest;
        if k.IntKey? && 0 <= k.i < |fields| {
          r := r - {k};
        }
        rest := rest - {k};
      }
    }

    /** The upload directory of a field, relative to the upload root: the
        URI of the first file-info entry about the field, or the default. */
    method GetFileUri(fieldName: Value) returns (path: Value)
      ensures (forall i :: 0 <= i < |filesInfo| ==> !FileInfoMatches(filesInfo[i], fieldName)) ==>
                path == Str(DefaultFileUri(backend.tableName, fieldName))
      ensures forall i :: 0 <= i < |filesInfo| ==>
                (FileInfoMatches(filesInfo[i], fieldName) && (forall j :: 0 <= j < i ==> !FileInfoMatches(filesInfo[j], fieldName)))
                ==> path == filesInfo[i][K("uri")]
    {
      path := Str(UploadDirName + "/" + backend.tableName);
      if Truthy(fieldName) {
        path := Str(path.s + "/" + ToStr(fieldName));
      }
      var i := 0;
      while i < |filesInfo|
        invariant 0 <= i <= |filesInfo|
        invariant path == Str(DefaultFileUri(backend.tableName, fieldName))
        invariant forall j :: 0 <= j < i ==> !FileInfoMatches(filesInfo[j], fieldName)
      {
        var info := filesInfo[i];
        if IsSet(info, K("field")) && IsSet(info, K("uri")) && LooseEquals(fieldName, info[K("field")]) {
          path := info[K("uri")];
          assert FileInfoMatches(filesInfo[i], fieldName);
          return;
        }
        i := i + 1;
      }
    }

    /** Turns features into a FeatureCollection of their GeoJSON forms, in
        the same order. */
    method ToFeatureCollection(features: seq<Feature>) returns (collection: Value, geoJson: seq<Value>)
      ensures |geoJson| == |features|
      ensures forall i :: 0 <= i < |features| ==>
                geoJson[i] == backend.toGeoJson(features[i].item.id, features[i].item.attributes, features[i].srid)
      ensures collection == FeatureCollection(geoJson)
    {
      geoJson := [];
      var i := 0;
      while i < |features|
        invariant 0 <= i <= |features|
        invariant |geoJson| == i
        invariant forall j :: 0 <= j < i ==>
                    geoJson[j] == backend.toGeoJson(features[j].item.id, features[j].item.attributes, features[j].srid)
      {
        geoJson := geoJson + [backend.toGeoJson(features[i].item.id, features[i].item.attributes, features[i].srid)];
        i := i + 1;
      }
      collection := FeatureCollection(geoJson);
    }

    /** Converts result rows to features: on Oracle the column names are
        lower-cased first; every row becomes a new feature, which takes the
        given SRID unless that is loosely equal to null. Returns the
        column order the renaming followed. */
    method PrepareResults(rows: seq<Attrs>, givenSrid: Value) returns (features: seq<Feature>, columns: seq<Key>)
      modifies this
      ensures backend.platform.Oracle? && |rows| > 0 ==>
                Distinct(columns) && forall k :: k in columns <==> k in rows[0]
      ensures srid == if |rows| > 0 then ResolvedSrid(old(srid), backend) else old(srid)
      ensures |features| == |rows|
      ensures forall i :: 0 <= i < |rows| ==>
                fresh(features[i]) && fresh(features[i].item)
                && features[i].item.uniqueIdField == driver.uniqueId
                && features[i].item.id == InitialId(Renamed(rows, columns, backend.platform)[i], driver.uniqueId)
                && features[i].item.attributes == InitialAttributes(Renamed(rows, columns, backend.platform)[i], driver.uniqueId)
                && features[i].srid == if LooseEquals(givenSrid, Null) then srid else givenSrid
      ensures allowSave == old(allowSave) && allowInsert == old(allowInsert) && allowUpdate == old(allowUpdate)
    {
      var renamed;
      renamed, columns := RenameResults(rows);
      features := FeaturesOf(renamed, givenSrid);
    }

    /** The rows with their column names lower-cased on Oracle, and the
        column names of the first row in the order they were renamed. */
    method RenameResults(rows: seq<Attrs>) returns (renamed: seq<Attrs>, columns: seq<Key>)
      ensures backend.platform.Oracle? && |rows| > 0 ==>
                Distinct(columns) && forall k :: k in columns <==> k in rows[0]
      ensures renamed == Renamed(rows, columns, backend.platform)
    {
      renamed := rows;
      columns := [];
      if backend.platform.Oracle? {
        var buffer := new Attrs[|rows|](i requires 0 <= i < |rows| => rows[i]);
        columns := TransformColumnNames(buffer, LowerKey);
        renamed := buffer[..];
      }
    }

    /** One new feature per row, in the given SRID or, when that is null,
        in the store's. */
    method FeaturesOf(rows: seq<Attrs>, givenSrid: Value) returns (features: seq<Feature>)
      modifies this
      ensures srid == if |rows| > 0 then ResolvedSrid(old(srid), backend) else old(srid)
      ensures |features| == |rows|
      ensures forall i :: 0 <= i < |rows| ==>
                fresh(features[i]) && fresh(features[i].item)
                && features[i].item.uniqueIdField == driver.uniqueId
                && features[i].item.id == InitialId(rows[i], driver.uniqueId)
                && features[i].item.attributes == InitialAttributes(rows[i], driver.uniqueId)
                && features[i].srid == if LooseEquals(givenSrid, Null) then srid else givenSrid
      ensures allowSave == old(allowSave) && allowInsert == old(allowInsert) && allowUpdate == old(allowUpdate)
    {
      var hasSrid := !LooseEquals(givenSrid, Null);
      features := [];
      var i := 0;
      while i < |rows|
        invariant 0 <= i <= |rows| && |features| == i
        invariant srid == if i > 0 then ResolvedSrid(old(srid), backend) else old(srid)
        invariant allowSave == old(allowSave) && allowInsert == old(allowInsert) && allowUpdate == old(allowUpdate)
        invariant forall j :: 0 <= j < i ==>
                    fresh(features[j]) && fresh(features[j].item)
                    && features[j].item.uniqueIdField == driver.uniqueId
                    && features[j].item.id == InitialId(rows[j], driver.uniqueId)
                    && features[j].item.attributes == InitialAttributes(rows[j], driver.uniqueId)
                    && features[j].srid == if hasSrid then givenSrid else ResolvedSrid(old(srid), backend)
      {
        var f := Create(NonFeature(ValueArg(Arr(rows[i]))));
        if hasSrid {
          f.SetSrid(givenSrid);
        }
        features := features + [f];
        i := i + 1;
      }
    }

    /** The feature whose id is `id`, as a select returns it with the
        geometry read in the given SRID (the store's when that is falsy),
        converted by `PrepareResults`; none when no row has that id (a null
        id matches no row). */
    method GetById(id: Value, givenSrid: Value) returns (found: Option<Feature>, ghost columns: seq<Key>)
      modifies this
      ensures found.Some? <==> id != Null && id in db.table
      ensures srid == if Truthy(givenSrid) && found.None? then old(srid) else ResolvedSrid(old(srid), backend)
      ensures found.Some? ==>
                var row := backend.report(db.table[id], if Truthy(givenSrid) then givenSrid else ResolvedSrid(old(srid), backend));
                fresh(found.value) && fresh(found.value.item)
                && found.value.item.uniqueIdField == driver.uniqueId
                && found.value.item.id == InitialId(Renamed([row], columns, backend.platform)[0], driver.uniqueId)
                && found.value.item.attributes == InitialAttributes(Renamed([row], columns, backend.platform)[0], driver.uniqueId)
                && found.value.srid == (if LooseEquals(givenSrid, Null) then ResolvedSrid(old(srid), backend) else givenSrid)
                && (backend.platform.Oracle? ==> Distinct(columns) && forall k :: k in columns <==> k in row)
      ensures allowSave == old(allowSave) && allowInsert == old(allowInsert) && allowUpdate == old(allowUpdate)
    {
      var selectSrid := givenSrid;
      if !Truthy(givenSrid) {
        selectSrid := GetSrid();
      }
      ResolvedSridIdempotent(old(srid), backend);
      var rows := if id != Null && id in db.table then [backend.report(db.table[id], selectSrid)] else [];
      var features;
      features, columns := PrepareResults(rows, givenSrid);
      found := if |features| > 0 then Some(features[0]) else None;
    }

    /** The payload of a write: the feature's array form, cleaned, with
        the geometry transformed to the given SRID (the store's when that
        is falsy). */
    method PayloadOf(f: Feature, givenSrid: Value) returns (r: Result<Attrs>)
      modifies this, f.item
      ensures srid == if Truthy(givenSrid) then old(srid) else ResolvedSrid(old(srid), backend)
      ensures f.item.attributes == old(f.item.attributes)[K(f.item.uniqueIdField) := old(f.item.id)]
      ensures f.item.id == old(f.item.id)
      ensures !backend.geographic ==> r == Err(TransformUnsupported)
      ensures backend.geographic ==>
                r == Ok(WritePayload(ArrayView(old(f.item.id), old(f.item.attributes), f.item.uniqueIdField),
                                     |driver.fields| + 2, geomField, backend,
                                     if Truthy(givenSrid) then givenSrid else ResolvedSrid(old(srid), backend)))
      ensures allowSave == old(allowSave) && allowInsert == old(allowInsert) && allowUpdate == old(allowUpdate)
    {
      var view := f.item.ToArray();
      var data := CleanFeatureData(view);
      assert data == Cleaned(view, |driver.fields| + 2);
      var geometry := TransformEwkt(Get(data, K(geomField)), givenSrid);
      if geometry.Err? {
        return Err(geometry.message);
      }
      r := Ok(data[K(geomField) := geometry.value]);
    }

    /** The insert of a feature: the payload is built from its array form,
        the before hook may rewrite or veto it, a written row takes the next
        id of the sequence, the feature takes that id (null when vetoed), and
        the after hook runs. The exception raised, if any, is returned. */
    method InsertFeature(f: Feature) returns (failure: Option<string>)
      modifies this, db, f.item
      ensures srid == ResolvedSrid(old(srid), backend)
      ensures f.item.attributes == old(f.item.attributes)[K(f.item.uniqueIdField) := old(f.item.id)]
      ensures var end := InsertEnding(backend, hooks.write,
                           WritePayload(ArrayView(old(f.item.id), old(f.item.attributes), f.item.uniqueIdField),
                                        |driver.fields| + 2, geomField, backend, ResolvedSrid(old(srid), backend)),
                           old(f.item.id), old(db.nextId));
              failure == end.failure && f.item.id == end.id
              && allowInsert == (if end.flag.Some? then end.flag.value else old(allowInsert))
              && (end.row.Some? ==>
                    db.table == old(db.table)[Int(old(db.nextId)) := end.row.value[K(driver.uniqueId) := Int(old(db.nextId))]]
                    && db.statements == old(db.statements) + [InsertRow(end.row.value)]
                    && db.nextId == old(db.nextId) + 1)
              && (end.row.None? ==>
                    db.table == old(db.table) && db.statements == old(db.statements) && db.nextId == old(db.nextId))
      ensures allowSave == old(allowSave) && allowUpdate == old(allowUpdate)
    {
      ghost var spec := WritePayload(ArrayView(f.item.id, f.item.attributes, f.item.uniqueIdField),
                                     |driver.fields| + 2, geomField, backend, ResolvedSrid(srid, backend));
      var storeSrid := GetSrid();
      ResolvedSridIdempotent(old(srid), backend);
      var payload := PayloadOf(f, storeSrid);
      if payload.Err? {
        return Some(payload.message);
      }
      assert payload.value == spec;
      failure := InsertPayload(f, payload.value);
    }

    /** The insert once its payload is built: hooks, write and id. */
    method InsertPayload(f: Feature, payload: Attrs) returns (failure: Option<string>)
      requires backend.geographic
      modifies this, db, f.item
      ensures var end := InsertEnding(backend, hooks.write, payload, old(f.item.id), old(db.nextId));
              failure == end.failure && f.item.id == end.id
              && allowInsert == end.flag.value
              && (end.row.Some? ==>
                    db.table == old(db.table)[Int(old(db.nextId)) := end.row.value[K(driver.uniqueId) := Int(old(db.nextId))]]
                    && db.statements == old(db.statements) + [InsertRow(end.row.value)]
                    && db.nextId == old(db.nextId) + 1)
              && (end.row.None? ==>
                    db.table == old(db.table) && db.statements == old(db.statements) && db.nextId == old(db.nextId))
      ensures f.item.attributes == old(f.item.attributes)
      ensures srid == old(srid) && allowSave == old(allowSave) && allowUpdate == old(allowUpdate)
    {
      var data := payload;
      allowInsert := true;
      var before := RunHook(hooks.write, OnBeforeInsert, data, f.item.id);
      if before.Raise? {
        return Some(before.message);
      }
      data := before.payload;
      allowInsert := before.allow;
      var lastId := Null;
      if allowInsert {
        var error := backend.insertError(data);
        if error.Some? {
          return error;
        }
        db.table := db.table[Int(db.nextId) := data[K(driver.uniqueId) := Int(db.nextId)]];
        db.statements := db.statements + [InsertRow(data)];
        lastId := Int(db.nextId);
        db.nextId := db.nextId + 1;
      }
      f.item.SetId(lastId);
      var after := RunHook(hooks.write, OnAfterInsert, data, f.item.id);
      failure := Raised(after);
    }

    /** The update of a feature: the payload is built from its array form
        without the id column, the before hook may rewrite it or clear the
        flag, an empty payload is rejected, and the row with the feature's
        id is updated while the flag stays set; the after hook runs. */
    method UpdateFeature(f: Feature) returns (failure: Option<string>)
      modifies this, db, f.item
      ensures srid == ResolvedSrid(old(srid), backend)
      ensures f.item.attributes == old(f.item.attributes)[K(f.item.uniqueIdField) := old(f.item.id)]
      ensures f.item.id == old(f.item.id)
      ensures var end := UpdateEnding(backend, hooks.write,
                           UpdatePayload(ArrayView(old(f.item.id), old(f.item.attributes), f.item.uniqueIdField),
                                         |driver.fields| + 2, geomField, driver.uniqueId, backend, ResolvedSrid(old(srid), backend)),
                           old(f.item.id));
              failure == end.failure
              && allowUpdate == (if end.flag.Some? then end.flag.value else old(allowUpdate))
              && (end.write.Some? ==>
                    db.table == UpdatedTable(old(db.table), old(f.item.id), end.write.value)
                    && db.statements == old(db.statements) + [UpdateRows(end.write.value, old(f.item.id))])
              && (end.write.None? ==> db.table == old(db.table) && db.statements == old(db.statements))
      ensures db.nextId == old(db.nextId)
      ensures allowSave == old(allowSave) && allowInsert == old(allowInsert)
    {
      var id := f.item.id;
      ghost var view := ArrayView(f.item.id, f.item.attributes, f.item.uniqueIdField);
      ghost var sridTo := ResolvedSrid(srid, backend);
      var payload := PayloadOf(f, Null);
      if payload.Err? {
        return Some(payload.message);
      }
      assert payload.value == WritePayload(view, |driver.fields| + 2, geomField, backend, sridTo);
      assert payload.value - {K(driver.uniqueId)} == UpdatePayload(view, |driver.fields| + 2, geomField, driver.uniqueId, backend, sridTo);
      ghost var ending := UpdateEnding(backend, hooks.write, UpdatePayload(view, |driver.fields| + 2, geomField, driver.uniqueId, backend, sridTo), id);
      assert ending == UpdateEnding(backend, hooks.write, payload.value - {K(driver.uniqueId)}, id);
      ghost var oldTable := db.table;
      failure := UpdatePayloadRows(id, payload.value - {K(driver.uniqueId)});
      assert ending.write.Some? ==> db.table == UpdatedTable(oldTable, id, ending.write.value);
      assert oldTable == old(db.table);
    }

    /** The update once its payload is built: hooks and write. */
    method UpdatePayloadRows(id: Value, payload: Attrs) returns (failure: Option<string>)
      requires backend.geographic
      modifies this, db
      ensures var end := UpdateEnding(backend, hooks.write, payload, id);
              failure == end.failure
              && allowUpdate == end.flag.value
              && (end.write.Some? ==>
                    db.table == UpdatedTable(old(db.table), id, end.write.value)
                    && db.statements == old(db.statements) + [UpdateRows(end.write.value, id)])
              && (end.write.None? ==> db.table == old(db.table) && db.statements == old(db.statements))
      ensures db.nextId == old(db.nextId)
      ensures srid == old(srid) && allowSave == old(allowSave) && allowInsert == old(allowInsert)
    {
      var data := payload;
      allowUpdate := true;
      var before := RunHook(hooks.write, OnBeforeUpdate, data, id);
      if before.Raise? {
        return Some(before.message);
      }
      data := before.payload;
      allowUpdate := before.allow;
      if data == map[] {
        return Some(NoUpdateCriteria);
      }
      if allowUpdate {
        var error := backend.updateError(data, id);
        if error.Some? {
          return error;
        }
        db.table := UpdatedTable(db.table, id, data);
        db.statements := db.statements + [UpdateRows(data, id)];
      }
      var after := RunHook(hooks.write, OnAfterUpdate, data, id);
      failure := Raised(after);
    }

    /** The id of the feature `create` makes of (or finds in) the argument. */
    ghost function EntryId(arg: FeatureArg): Value
      reads driver, ItemsOf(arg)
    {
      if arg.FeatureObject? then arg.feature.item.id
      else InitialId(FeatureInput(arg.arg, driver.uniqueId), driver.uniqueId)
    }

    /** The array form of the feature `create` makes of (or finds in) the
        argument. */
    ghost function EntryView(arg: FeatureArg): Attrs
      reads driver, ItemsOf(arg)
    {
      if arg.FeatureObject? then ArrayView(arg.feature.item.id, arg.feature.item.attributes, arg.feature.item.uniqueIdField)
      else ArrayView(InitialId(FeatureInput(arg.arg, driver.uniqueId), driver.uniqueId),
                     InitialAttributes(FeatureInput(arg.arg, driver.uniqueId), driver.uniqueId), driver.uniqueId)
    }

    /** `create` as the writes use it: the feature's id and array form are
        the ones `EntryId` and `EntryView` predict, and the SRID the writes
        resolve is unchanged. */
    method CreateEntry(arg: FeatureArg) returns (f: Feature)
      modifies this
      ensures arg.FeatureObject? ==> f == arg.feature
      ensures arg.NonFeature? ==> fresh(f) && fresh(f.item)
      ensures f.item.id == old(EntryId(arg))
      ensures ArrayView(f.item.id, f.item.attributes, f.item.uniqueIdField) == old(EntryView(arg))
      ensures srid == if arg.FeatureObject? then old(srid) else ResolvedSrid(old(srid), backend)
      ensures allowSave == old(allowSave) && allowInsert == old(allowInsert) && allowUpdate == old(allowUpdate)
    {
      f := Create(arg);
      ResolvedSridIdempotent(old(srid), backend);
    }

    /** How an insert of the feature with array form `view` and id `id`
        ends from the current state. */
    ghost function InsertEndOf(view: Attrs, id: Value): InsertEnd
      reads this`srid, driver, db`nextId
    {
      InsertEnding(backend, hooks.write,
                   WritePayload(view, |driver.fields| + 2, geomField, backend, ResolvedSrid(srid, backend)), id, db.nextId)
    }

    /** How an update of the feature with array form `view` and id `id`
        ends from the current state. */
    ghost function UpdateEndOf(view: Attrs, id: Value): UpdateEnd
      reads this`srid, driver
    {
      UpdateEnding(backend, hooks.write,
                   UpdatePayload(view, |driver.fields| + 2, geomField, driver.uniqueId, backend, ResolvedSrid(srid, backend)), id)
    }

    /** The part of the state a write of `save` can change. */
    ghost function Writes(): WriteState
      reads this, db
    {
      WriteState(db.table, db.statements, db.nextId, allowInsert, allowUpdate)
    }

    /** `insert`: casts the argument to a feature and inserts it. */
    method Insert(arg: FeatureArg) returns (f: Feature, failure: Option<string>)
      modifies this, db, ItemsOf(arg)
      ensures arg.FeatureObject? ==> f == arg.feature
      ensures arg.NonFeature? ==> fresh(f) && fresh(f.item)
      ensures srid == ResolvedSrid(old(srid), backend)
      ensures var end := InsertEnding(backend, hooks.write,
                           WritePayload(old(EntryView(arg)), |driver.fields| + 2, geomField, backend, ResolvedSrid(old(srid), backend)),
                           old(EntryId(arg)), old(db.nextId));
              failure == end.failure && f.item.id == end.id
              && allowInsert == (if end.flag.Some? then end.flag.value else old(allowInsert))
              && (end.row.Some? ==>
                    db.table == old(db.table)[Int(old(db.nextId)) := end.row.value[K(driver.uniqueId) := Int(old(db.nextId))]]
                    && db.statements == old(db.statements) + [InsertRow(end.row.value)]
                    && db.nextId == old(db.nextId) + 1)
              && (end.row.None? ==> db.table == old(db.table) && db.statements == old(db.statements) && db.nextId == old(db.nextId))
      ensures allowSave == old(allowSave) && allowUpdate == old(allowUpdate)
    {
      f := CreateEntry(arg);
      failure := InsertFeature(f);
    }

    /** `update`: casts the argument to a feature and updates its row. */
    method Update(arg: FeatureArg) returns (f: Feature, failure: Option<string>)
      modifies this, db, ItemsOf(arg)
      ensures arg.FeatureObject? ==> f == arg.feature
      ensures arg.NonFeature? ==> fresh(f) && fresh(f.item)
      ensures srid == ResolvedSrid(old(srid), backend)
      ensures f.item.id == old(EntryId(arg)) && db.nextId == old(db.nextId)
      ensures var end := UpdateEnding(backend, hooks.write,
                           UpdatePayload(old(EntryView(arg)), |driver.fields| + 2, geomField, driver.uniqueId,
                                         backend, ResolvedSrid(old(srid), backend)),
                           old(EntryId(arg)));
              failure == end.failure
              && allowUpdate == (if end.flag.Some? then end.flag.value else old(allowUpdate))
              && (end.write.Some? ==>
                    db.table == UpdatedTable(old(db.table), f.item.id, end.write.value)
                    && db.statements == old(db.statements) + [UpdateRows(end.write.value, f.item.id)])
              && (end.write.None? ==> db.table == old(db.table) && db.statements == old(db.statements))
      ensures allowSave == old(allowSave) && allowInsert == old(allowInsert)
    {
      f := CreateEntry(arg);
      failure := UpdateFeature(f);
    }

    /** `save`: rejects data that is neither an array nor an object; casts
        it to a feature; runs the before-save hook, which may veto; inserts
        when auto-update is off or the feature has no id, and updates
        otherwise; runs the after-save hook; and re-fetches the feature by
        its id. An exception raised on the way is returned with the feature
        and the data being saved. The write taken, the feature worked on
        and the exception the write raised are reported alongside. */
    method Save(arg: FeatureArg, autoUpdate: bool)
      returns (r: Result<SaveOutcome>, ghost path: WritePath, ghost feature: Feature?, ghost writeFailure: Option<string>,
               ghost columns: seq<Key>)
      modifies this, db, ItemsOf(arg)
      ensures Incompatible(arg) ==>
                r == Err(IncompatibleData + backend.tableName) && path == NoWrite && srid == old(srid)
      ensures !Incompatible(arg) ==>
                r.Ok? && srid == if arg.FeatureObject? && path == NoWrite
                              && (r.value.Failed? || (Truthy(arg.feature.srid) && r.value.found.None?))
                        then old(srid) else ResolvedSrid(old(srid), backend)
      ensures !Incompatible(arg) ==> r.Ok? && feature != null
      ensures arg.FeatureObject? ==> feature == arg.feature
      ensures var before := RunHook(hooks.save, OnBeforeSave, arg, old(EntryId(arg)));
              !Incompatible(arg) ==>
                path == (if before.Raise? || !before.allow then NoWrite
                         else if !autoUpdate || old(EntryId(arg)) == Null then InsertPath else UpdatePath)
                && allowSave == (before.Raise? || before.allow)
                && (before.Raise? ==> r == Ok(Failed(before.message, feature, arg)))
      ensures path == NoWrite ==> writeFailure == None && Writes() == old(Writes()) && unchanged(ItemsOf(arg))
      ensures !Incompatible(arg) ==>
                Written(Writes(), feature.item.id, writeFailure)
                == WriteResult(path, old(Writes()), old(EntryId(arg)), old(InsertEndOf(EntryView(arg), EntryId(arg))),
                               old(UpdateEndOf(EntryView(arg), EntryId(arg))), driver.uniqueId)
      ensures var before := RunHook(hooks.save, OnBeforeSave, arg, old(EntryId(arg)));
              !Incompatible(arg) && before.Proceed? && writeFailure.Some? ==>
                r == Ok(Failed(writeFailure.value, feature, before.payload))
      ensures var before := RunHook(hooks.save, OnBeforeSave, arg, old(EntryId(arg)));
              !Incompatible(arg) && before.Proceed? && writeFailure.None? ==>
                var after := RunHook(hooks.save, OnAfterSave, before.payload, feature.item.id);
                (r.value.Failed? <==> after.Raise?)
                && (after.Raise? ==> r == Ok(Failed(after.message, feature, before.payload)))
      ensures r.Ok? && r.value.Saved? ==> feature != null && (r.value.found.Some? <==> feature.item.id != Null && feature.item.id in db.table)
      ensures r.Ok? && r.value.Saved? && r.value.found.Some? ==>
                var storeSrid := ResolvedSrid(old(srid), backend);
                var row := backend.report(db.table[feature.item.id], if Truthy(feature.srid) then feature.srid else storeSrid);
                fresh(r.value.found.value) && fresh(r.value.found.value.item)
                && r.value.found.value.item.uniqueIdField == driver.uniqueId
                && r.value.found.value.item.id == InitialId(Renamed([row], columns, backend.platform)[0], driver.uniqueId)
                && r.value.found.value.item.attributes == InitialAttributes(Renamed([row], columns, backend.platform)[0], driver.uniqueId)
                && r.value.found.value.srid == (if LooseEquals(feature.srid, Null) then storeSrid else feature.srid)
      ensures r.Ok? && r.value.Failed? ==> r.value.feature == feature
    {
      feature := null;
      path := NoWrite;
      writeFailure := None;
      columns := [];
      if Incompatible(arg) {
        return Err(IncompatibleData + backend.tableName), path, feature, writeFailure, columns;
      }
      var f := CreateEntry(arg);
      feature := f;
      var featureData := arg;
      var before := RunHook(hooks.save, OnBeforeSave, featureData, f.item.id);
      if before.Raise? {
        allowSave := true;
        return Ok(Failed(before.message, f, featureData)), path, feature, writeFailure, columns;
      }
      featureData := before.payload;
      ghost var view := ArrayView(f.item.id, f.item.attributes, f.item.uniqueIdField);
      assert old(EntryView(arg)) == view;
      ResolvedSridIdempotent(old(srid), backend);
      ghost var sridTo := ResolvedSrid(old(srid), backend);
      assert sridTo == ResolvedSrid(srid, backend);
      ghost var insertEnd := InsertEnding(backend, hooks.write,
                                          WritePayload(view, |driver.fields| + 2, geomField, backend, sridTo), f.item.id, db.nextId);
      ghost var updateEnd := UpdateEnding(backend, hooks.write,
                                          UpdatePayload(view, |driver.fields| + 2, geomField, driver.uniqueId, backend, sridTo), f.item.id);
      assert insertEnd == old(InsertEndOf(EntryView(arg), EntryId(arg)));
      assert updateEnd == old(UpdateEndOf(EntryView(arg), EntryId(arg)));
      var outcome;
      outcome, path, writeFailure, columns := SaveEntry(f, featureData, before.allow, autoUpdate, sridTo, insertEnd, updateEnd);
      r := Ok(outcome);
    }

    /** The part of `save` after the before-save hook: the hook's verdict
        `allow` is stored, an allowed save writes the feature, and a write
        that did not raise is followed by the after-save hook and a fetch
        of the feature by its id. `storeSrid` is the store's resolved SRID. */
    method SaveEntry(f: Feature, featureData: FeatureArg, allow: bool, autoUpdate: bool,
                     ghost storeSrid: Value, ghost insertEnd: InsertEnd, ghost updateEnd: UpdateEnd)
      returns (r: SaveOutcome, ghost path: WritePath, ghost writeFailure: Option<string>, ghost columns: seq<Key>)
      requires storeSrid == ResolvedSrid(srid, backend)
      requires insertEnd == InsertEndOf(ArrayView(f.item.id, f.item.attributes, f.item.uniqueIdField), f.item.id)
      requires updateEnd == UpdateEndOf(ArrayView(f.item.id, f.item.attributes, f.item.uniqueIdField), f.item.id)
      modifies this, db, f.item
      ensures allowSave == allow
      ensures path == if !allow then NoWrite else if !autoUpdate || old(f.item.id) == Null then InsertPath else UpdatePath
      ensures path == NoWrite ==> unchanged(f.item)
      ensures Written(Writes(), f.item.id, writeFailure)
              == WriteResult(path, old(Writes()), old(f.item.id), insertEnd, updateEnd, driver.uniqueId)
      ensures writeFailure.Some? ==> r == Failed(writeFailure.value, f, featureData)
      ensures writeFailure.None? ==>
                var after := RunHook(hooks.save, OnAfterSave, featureData, f.item.id);
                (r.Failed? <==> after.Raise?) && (after.Raise? ==> r == Failed(after.message, f, featureData))
      ensures r.Saved? ==> (r.found.Some? <==> f.item.id != Null && f.item.id in db.table)
      ensures r.Saved? && r.found.Some? ==>
                var row := backend.report(db.table[f.item.id], if Truthy(f.srid) then f.srid else storeSrid);
                fresh(r.found.value) && fresh(r.found.value.item)
                && r.found.value.item.uniqueIdField == driver.uniqueId
                && r.found.value.item.id == InitialId(Renamed([row], columns, backend.platform)[0], driver.uniqueId)
                && r.found.value.item.attributes == InitialAttributes(Renamed([row], columns, backend.platform)[0], driver.uniqueId)
                && r.found.value.srid == (if LooseEquals(f.srid, Null) then storeSrid else f.srid)
      ensures srid == if path == NoWrite && (r.Failed? || (Truthy(f.srid) && r.found.None?)) then old(srid) else storeSrid
    {
      allowSave := allow;
      path := NoWrite;
      columns := [];
      var failure: Option<string> := None;
      if allowSave {
        failure, path := WriteFeature(f, autoUpdate, insertEnd, updateEnd);
      }
      writeFailure := failure;
      if failure.Some? {
        return Failed(failure.value, f, featureData), path, writeFailure, columns;
      }
      ghost var written := Writes();
      ResolvedSridIdempotent(old(srid), backend);
      r, columns := FinishSave(f, featureData, storeSrid);
      assert Writes() == written;
    }

    /** The write `save` dispatches to: an insert when auto-update is off
        or the feature has no id, an update otherwise. */
    method WriteFeature(f: Feature, autoUpdate: bool, ghost insertEnd: InsertEnd, ghost updateEnd: UpdateEnd)
      returns (failure: Option<string>, ghost path: WritePath)
      requires insertEnd == InsertEndOf(ArrayView(f.item.id, f.item.attributes, f.item.uniqueIdField), f.item.id)
      requires updateEnd == UpdateEndOf(ArrayView(f.item.id, f.item.attributes, f.item.uniqueIdField), f.item.id)
      modifies this, db, f.item
      ensures path == if !autoUpdate || old(f.item.id) == Null then InsertPath else UpdatePath
      ensures allowSave == old(allowSave)
      ensures srid == ResolvedSrid(old(srid), backend)
      ensures Written(Writes(), f.item.id, failure)
              == WriteResult(path, old(Writes()), old(f.item.id), insertEnd, updateEnd, driver.uniqueId)
    {
      if !autoUpdate || !f.item.HasId() {
        path := InsertPath;
        failure := WriteInsert(f, insertEnd);
      } else {
        path := UpdatePath;
        failure := WriteUpdate(f, updateEnd);
      }
    }

    /** The insert path of `save`. */
    method WriteInsert(f: Feature, ghost insertEnd: InsertEnd) returns (failure: Option<string>)
      requires insertEnd == InsertEndOf(ArrayView(f.item.id, f.item.attributes, f.item.uniqueIdField), f.item.id)
      modifies this, db, f.item
      ensures allowSave == old(allowSave)
      ensures srid == ResolvedSrid(old(srid), backend)
      ensures failure == insertEnd.failure && f.item.id == insertEnd.id
      ensures Writes() == AfterInsert(old(Writes()), insertEnd, driver.uniqueId)
    {
      failure := InsertFeature(f);
    }

    /** The update path of `save`. */
    method WriteUpdate(f: Feature, ghost updateEnd: UpdateEnd) returns (failure: Option<string>)
      requires updateEnd == UpdateEndOf(ArrayView(f.item.id, f.item.attributes, f.item.uniqueIdField), f.item.id)
      modifies this, db, f.item
      ensures allowSave == old(allowSave)
      ensures srid == ResolvedSrid(old(srid), backend)
      ensures failure == updateEnd.failure && f.item.id == old(f.item.id)
      ensures Writes() == AfterUpdate(old(Writes()), updateEnd, old(f.item.id))
    {
      failure := UpdateFeature(f);
    }

    /** The end of a `save` whose write did not raise: the after-save hook
        runs, and the feature is fetched again by its id, in its SRID (the
        store's resolved SRID `storeSrid` when that is falsy). */
    method FinishSave(f: Feature, featureData: FeatureArg, ghost storeSrid: Value) returns (r: SaveOutcome, ghost columns: seq<Key>)
      requires storeSrid == ResolvedSrid(srid, backend)
      modifies this
      ensures r.Saved? ==> (r.found.Some? <==> f.item.id != Null && f.item.id in db.table)
      ensures r.Saved? && r.found.Some? ==>
                var row := backend.report(db.table[f.item.id], if Truthy(f.srid) then f.srid else storeSrid);
                fresh(r.found.value) && fresh(r.found.value.item)
                && r.found.value.item.uniqueIdField == driver.uniqueId
                && r.found.value.item.id == InitialId(Renamed([row], columns, backend.platform)[0], driver.uniqueId)
                && r.found.value.item.attributes == InitialAttributes(Renamed([row], columns, backend.platform)[0], driver.uniqueId)
                && r.found.value.srid == (if LooseEquals(f.srid, Null) then storeSrid else f.srid)
      ensures r.Failed? <==> RunHook(hooks.save, OnAfterSave, featureData, f.item.id).Raise?
      ensures r.Failed? ==> r == Failed(RunHook(hooks.save, OnAfterSave, featureData, f.item.id).message, f, featureData)
      ensures srid == if r.Failed? || (Truthy(f.srid) && r.found.None?) then old(srid) else ResolvedSrid(old(srid), backend)
      ensures allowSave == old(allowSave) && allowInsert == old(allowInsert) && allowUpdate == old(allowUpdate)
    {
      var after := RunHook(hooks.save, OnAfterSave, featureData, f.item.id);
      if after.Raise? {
        return Failed(after.message, f, featureData), [];
      }
      var found;
      found, columns := GetById(f.item.id, f.srid);
      r := Saved(found);
    }

    /** The non-spatial conditions of `search`, appended in order: the
        store's filter, the caller's condition and the proximity test. */
    method AppendFilters(conditions: seq<string>, criteria: Attrs) returns (r: seq<string>)
      ensures r == conditions + FilterPart(sqlFilter) + WherePart(criteria) + DistancePart(criteria, geomField, backend.quote)
    {
      var where := Get(criteria, K("where"));
      r := conditions;
      if Truthy(sqlFilter) {
        r := r + [ToStr(sqlFilter)];
      }
      if Truthy(where) {
        r := r + [ToStr(where)];
      }
      if IsSet(criteria, K("source")) && IsSet(criteria, K("distance")) {
        r := r + ["ST_DWithin(t." + geomField + "," + backend.quote(ToStr(criteria[K("source")]))
                  + "," + ToStr(criteria[K("distance")]) + ")"];
      }
    }

    /** Whether building the query of `search` leaves the store's SRID as
        it is: a truthy SRID is asked for and no intersect geometry is given. */
    predicate QueryKeepsSrid(criteria: Attrs) {
      Truthy(Get(criteria, K("srid"))) && !Truthy(Get(criteria, K("intersectGeometry")))
    }

    /** The query part of `search`: the geometry select expression, the
        WHERE clause and the limit, and the SRID the rows are read in. */
    method SearchQuery(criteria: Attrs) returns (query: Query, querySrid: Value)
      modifies this
      ensures srid == if QueryKeepsSrid(criteria) then old(srid) else ResolvedSrid(old(srid), backend)
      ensures querySrid == if IsSet(criteria, K("srid")) then criteria[K("srid")] else ResolvedSrid(old(srid), backend)
      ensures var storeSrid := ResolvedSrid(old(srid), backend);
              query == Query(GetGeomAttribute(backend.platform, geomField, if Truthy(querySrid) then querySrid else storeSrid),
                             WhereClause(SearchConditions(criteria, backend.platform, geomField, sqlFilter, querySrid, storeSrid, backend.quote)),
                             SearchLimit(criteria))
      ensures allowSave == old(allowSave) && allowInsert == old(allowInsert) && allowUpdate == old(allowUpdate)
    {
      ghost var storeSrid := ResolvedSrid(old(srid), backend);
      ResolvedSridIdempotent(old(srid), backend);
      var maxResults := if IsSet(criteria, K("maxResults")) then IntVal(criteria[K("maxResults")]) else MaxResults;
      if IsSet(criteria, K("srid")) {
        querySrid := criteria[K("srid")];
      } else {
        querySrid := GetSrid();
      }
      var selectSrid := querySrid;
      if !Truthy(selectSrid) {
        selectSrid := GetSrid();
      }
      var geometrySelect := GetGeomAttribute(backend.platform, geomField, selectSrid);
      var conditions := IntersectConditions(criteria, querySrid);
      conditions := AppendFilters(conditions, criteria);
      assert conditions == SearchConditions(criteria, backend.platform, geomField, sqlFilter, querySrid, storeSrid, backend.quote);
      query := Query(geometrySelect, WhereClause(conditions), maxResults);
    }

    /** The spatial condition of `search`: the intersection with the
        rounded geometry of the criteria, when one is given. */
    method IntersectConditions(criteria: Attrs, querySrid: Value) returns (conditions: seq<string>)
      modifies this
      ensures conditions == IntersectPart(criteria, backend.platform, geomField, querySrid, ResolvedSrid(old(srid), backend))
      ensures srid == if Truthy(Get(criteria, K("intersectGeometry"))) then ResolvedSrid(old(srid), backend) else old(srid)
      ensures allowSave == old(allowSave) && allowInsert == old(allowInsert) && allowUpdate == old(allowUpdate)
    {
      conditions := [];
      var intersect := Get(criteria, K("intersectGeometry"));
      if Truthy(intersect) {
        var geometry := RoundGeometry(ToStr(intersect), 2);
        var sridTo := GetSrid();
        conditions := [GenIntersectCondition(backend.platform, geometry, geomField, querySrid, sridTo).GetOr("")];
      }
    }

    /** `search`: builds the query from the criteria, takes the rows the
        driver returns for it up to the limit, converts them to features and
        returns them, or their FeatureCollection when that return type is
        asked for. The features and their GeoJSON forms are reported
        alongside. */
    method Search(criteria: Attrs, fetched: seq<Attrs>)
      returns (query: Query, result: SearchResult, ghost features: seq<Feature>, ghost geoJson: seq<Value>, ghost columns: seq<Key>)
      modifies this
      ensures var storeSrid := ResolvedSrid(old(srid), backend);
              var querySrid := if IsSet(criteria, K("srid")) then criteria[K("srid")] else storeSrid;
              query == Query(GetGeomAttribute(backend.platform, geomField, if Truthy(querySrid) then querySrid else storeSrid),
                             WhereClause(SearchConditions(criteria, backend.platform, geomField, sqlFilter, querySrid, storeSrid, backend.quote)),
                             SearchLimit(criteria))
      ensures var rows := Limit(fetched, SearchLimit(criteria));
              |features| == |rows|
              && forall i :: 0 <= i < |rows| ==>
                   fresh(features[i]) && fresh(features[i].item)
                   && features[i].item.id == InitialId(Renamed(rows, columns, backend.platform)[i], driver.uniqueId)
                   && features[i].item.attributes == InitialAttributes(Renamed(rows, columns, backend.platform)[i], driver.uniqueId)
                   && features[i].srid == (var querySrid := if IsSet(criteria, K("srid")) then criteria[K("srid")]
                                                             else ResolvedSrid(old(srid), backend);
                                           if LooseEquals(querySrid, Null) then ResolvedSrid(old(srid), backend) else querySrid)
      ensures srid == if QueryKeepsSrid(criteria) && Limit(fetched, SearchLimit(criteria)) == [] then old(srid)
                      else ResolvedSrid(old(srid), backend)
      ensures var rows := Limit(fetched, SearchLimit(criteria));
              backend.platform.Oracle? && |rows| > 0 ==> Distinct(columns) && forall k :: k in columns <==> k in rows[0]
      ensures result.Collection? <==> LooseEquals(Get(criteria, K("returnType")), Str("FeatureCollection"))
      ensures result.Features? ==> result.features == features
      ensures result.Collection? ==>
                result.collection == FeatureCollection(geoJson) && |geoJson| == |features|
                && forall i :: 0 <= i < |features| ==>
                     geoJson[i] == backend.toGeoJson(features[i].item.id, features[i].item.attributes, features[i].srid)
    {
      var returnType := Get(criteria, K("returnType"));
      var querySrid;
      query, querySrid := SearchQuery(criteria);
      var rows := Limit(fetched, query.limit);
      ResolvedSridIdempotent(old(srid), backend);
      var converted: seq<Feature> := [];
      columns := [];
      if |rows| > 0 {
        converted, columns := PrepareResults(rows, querySrid);
      }
      features := converted;
      geoJson := [];
      if LooseEquals(returnType, Str("FeatureCollection")) {
        var collection;
        collection, geoJson := ToFeatureCollection(converted);
        result := Collection(collection);
      } else {
        result := Features(converted);
      }
    }
  }
}
