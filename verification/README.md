# Data source feature store — a Dafny model

This project models the core of a PHP data-source library for map
applications:

- **data items**: a record made of an optional id and a map of attributes. The id field's name is fixed per item.
- **the base storage driver**: it takes its settings through setter dispatch, keeps the list of selected fields and the id column, and casts any argument to a data item.
- **the feature type store**: it keeps geometry-bearing rows in a database table and provides:
  - platform-specific spatial SQL for PostgreSQL and Oracle;
  - a lazily resolved SRID;
  - insert, update and save, guarded by cancellable event hooks;
  - search with an intersect filter, a permanent SQL filter, a caller condition and a proximity condition;
  - conversion of result rows to features and to a GeoJSON FeatureCollection.

The modules follow the source:

- `PhpValues` (values.dfy) holds the PHP values the code moves around:
  - array keys, scalars and arrays;
  - `isset`, truthiness, string conversion, `intval`, `is_numeric`;
  - loose `==`.
- `GeometryText` (geometry.dfy) models `getWktType` and `roundGeometry`.
- `DataItems` (data_item.dfy) holds the `DataItem` class and the functions that specify it.
- `Drivers` (base_driver.dfy) holds the `Driver` class. Its constructor's setter dispatch is specified as a fold over the settings.
- `SqlFragments` (sql.dfy) holds `genIntersectCondition`, `getGeomAttribute` and the WHERE clause a search builds.
- `ColumnNames` (columns.dfy) models `transformColumnNames`, in place on an array of rows.
- `FeatureTypes` (feature_type.dfy) holds the `Feature` and `FeatureStore` classes, and a `Database` object holding the table.

State the source changes in place is class state with `modifies` frames:

- the item's id and attributes;
- the driver's fields and id column;
- the store's SRID and its allow flags;
- the table, the id sequence and the statement log.

Each such method is proved against specification functions, for example:

- `ArrayView`, `Unwrap` / `InitialId` / `InitialAttributes`;
- `ApplyAll`, `RenameColumns`, `SearchConditions`;
- `InsertEnding` / `UpdateEnding`, and `WriteResult`, which says what the write step of `save` leaves (`AfterInsert` / `AfterUpdate` on a `WriteState` snapshot of the table, statement log, sequence and write flags).

Lemmas about these functions state what the source promises.

## Model

| member | source | states |
|---|---|---|
| DataItems.DataItem.constructor | Entity/DataItem.php:40-68 | the item's id is the unwrapped input's id entry when set (else null), and its attributes are the unwrapped input without that entry; without `fill` the input is used as it is |
| DataItems.Unwrap | Entity/DataItem.php:50-58 | without `fill` the input is returned unchanged |
| DataItems.ConstructionTakesId | Entity/DataItem.php:61-64 | a set id entry becomes the (non-null) id and is removed from the attributes; every other entry is kept with its value |
| DataItems.EnvelopeSuppliesId | Entity/DataItem.php:50-58 | with `fill` and an "attributes" array, the item is built from that array and `args["id"]` becomes the id |
| DataItems.ArrayView | Entity/DataItem.php:85-96 | the array form holds the id field exactly when the id is non-null, then with the id as value; all other keys are the stored attributes |
| DataItems.ToArrayRoundTrip | Entity/DataItem.php:40-96 | building an item from a map and taking `toArray` gives the map back, except that a null id entry is dropped |
| DataItems.DataItem.SetId | Entity/DataItem.php:101-104 | the id becomes `v`, attributes unchanged; `HasId` then holds iff `v` is not null |
| DataItems.DataItem.HasId | Entity/DataItem.php:111-114 | the item has an id exactly when its array form holds the id field |
| DataItems.DataItem.GetId | Entity/DataItem.php:121-124 | the id is non-null exactly when the item has one, and it is then the array form's entry under the id field |
| DataItems.DataItem.SetAttributes | Entity/DataItem.php:140-143 | the attributes are replaced, the id is unchanged |
| DataItems.DataItem.GetAttributes | Entity/DataItem.php:131-135 | writes the current id (null included) into the stored attributes under the id field and returns them |
| DataItems.DataItem.ToArray | Entity/DataItem.php:85-96 | returns `ArrayView` of the id and the attributes as they were; the stored attributes keep the id written by `getAttributes` |
| Drivers.UcWords | Component/Drivers/BaseDriver.php:51 | `ucwords` keeps the length and upper-cases the first character |
| Drivers.UcWordsOfWord | Component/Drivers/BaseDriver.php:51 | a one-word key has exactly its first letter upper-cased |
| Drivers.SetterForUniqueId | Component/Drivers/BaseDriver.php:51-53 | the key "uniqueId" dispatches to `setUniqueId` |
| Drivers.ApplySetting | Component/Drivers/BaseDriver.php:50-55 | a key without a setter of the class leaves the state unchanged; a setter changes only its own part of the state |
| Drivers.Dispatched | Component/Drivers/BaseDriver.php:52 | keeps only settings whose setter name is a method of the class |
| Drivers.UnmatchedSettingsIgnored | Component/Drivers/BaseDriver.php:49-56 | applying all settings equals applying only the dispatched ones |
| Drivers.UniqueIdKept | Component/Drivers/BaseDriver.php:49-56 | without a `uniqueId` setting the id column keeps its name |
| Drivers.LastUniqueIdWins | Component/Drivers/BaseDriver.php:49-56 | the last string given for `uniqueId` is the id column, whatever other settings follow |
| Drivers.DefaultUniqueId | Component/Drivers/BaseDriver.php:32 | a driver built without a `uniqueId` setting uses "id" |
| Drivers.Driver.constructor | Component/Drivers/BaseDriver.php:45-60 | the state is the fold of `ApplySetting` over the settings from the defaults, and the settings are stored |
| Drivers.Driver.SetUniqueId | Component/Drivers/BaseDriver.php:65-68 | the id column is replaced, nothing else changes |
| Drivers.Driver.SetFields | Component/Drivers/BaseDriver.php:82-85 | the field list is replaced and returned, nothing else changes |
| Drivers.Driver.GetFields | Component/Drivers/BaseDriver.php:73-76 | returns the driver's current field list |
| Drivers.Driver.GetUniqueId | Component/Drivers/BaseDriver.php:102-105 | returns the driver's current id column |
| Drivers.Driver.GetStoreFields | Component/Drivers/BaseDriver.php:92-95 | the store fields are the driver's fields |
| Drivers.Driver.GetLastInsertId | Component/Drivers/BaseDriver.php:141-144 | the base driver reports 0 |
| Drivers.StringList | Component/Drivers/BaseDriver.php:82 | a value is a field list exactly when it is a PHP list of strings, and the list holds those strings in order |
| Drivers.CreateInput | Component/Drivers/BaseDriver.php:113-126 | a numeric value becomes `{uniqueId: intval(v)}`, an array or object is used as it is, any other value gives an empty item |
| Drivers.CreateFromNumber | Component/Drivers/BaseDriver.php:115-118 | a numeric argument gives an item with that number as its id and no attributes |
| Drivers.Driver.Create | Component/Drivers/BaseDriver.php:113-126 | a data item is returned as it is; anything else gives a fresh item keyed by the driver's id column and built from `CreateInput` |
| GeometryText.IndexOf | Component/Drivers/BaseDriver.php:155 | `strpos` for one character: the first index holding it, or none exactly when it does not occur |
| GeometryText.WktBody | Component/Drivers/BaseDriver.php:154-157 | a text not starting with "SRID" is kept; an EWKT text loses everything up to its first ';' |
| GeometryText.WktType | Component/Drivers/BaseDriver.php:152-159 | the result is the body's prefix before its first '(', contains no '(' and is empty when there is no '(' |
| GeometryText.WktTypeOfWkt | Component/Drivers/BaseDriver.php:152-159 | for a WKT text the type is everything before the first '(' |
| GeometryText.WktTypeOfEwkt | Component/Drivers/BaseDriver.php:152-159 | for an EWKT text the SRID prefix is skipped and the type is what precedes the first '(' after it |
| GeometryText.WktTypeEwktExample | Component/Drivers/BaseDriver.php:152-159 | "SRID=4326;POINT(1 2)" has type "POINT" |
| GeometryText.WktTypeWktExample | Component/Drivers/BaseDriver.php:152-159 | "POLYGON((0 0,1 1,1 0,0 0))" has type "POLYGON" |
| GeometryText.IndexOfFirst | Component/Drivers/BaseDriver.php:155 | `strpos` finds the first occurrence of the character |
| GeometryText.WktTypeUntrimmed | Component/Drivers/BaseDriver.php:158 | a space before '(' stays part of the type |
| GeometryText.WktTypeWithoutParenthesis | Component/Drivers/BaseDriver.php:158 | a text without '(' has the empty type |
| GeometryText.MatchAt | Component/Drivers/BaseDriver.php:173 | a match of the effective pattern `(\d+)\.(\d<round>)\d+` at the start of the text, with its kept part and its whole extent |
| GeometryText.MatchAtShape | Component/Drivers/BaseDriver.php:173 | a match is a run of digits, a point, a digit, the precision text and the whole run of digits after it; only that last run is removed |
| GeometryText.MatchNeedsPointBeforeTwo | Component/Drivers/BaseDriver.php:173 | with precision 2, a match needs a digit, a point, a digit and the character '2', in that order |
| GeometryText.Replace | Component/Drivers/BaseDriver.php:173 | the replacement never lengthens the text |
| GeometryText.ReplaceKeepsNonDigits | Component/Drivers/BaseDriver.php:171-174 | rounding only removes digits: the non-digit characters stay, in order |
| GeometryText.ReplaceWithoutPoint | Component/Drivers/BaseDriver.php:171-174 | a text without a decimal point comes back unchanged |
| GeometryText.RoundGeometry | Component/Drivers/BaseDriver.php:171-174 | the result is never longer than the geometry, and its non-digit characters are exactly the geometry's, in order |
| GeometryText.CutsAfterDigitTwo | Component/Drivers/BaseDriver.php:171-174 | a number whose second fractional digit is '2' loses every fractional digit after it, and the scan goes on after the number |
| GeometryText.NoPointBeforeTwoKept | Component/Drivers/BaseDriver.php:171-174 | a text with no point that has a digit before it and a '2' two places after it comes back unchanged |
| GeometryText.RoundGeometryKeepExample | Component/Drivers/BaseDriver.php:171-174 | "1.23456" is left as it is: its second fractional digit is not '2' |
| GeometryText.RoundGeometryPointExample | Component/Drivers/BaseDriver.php:171-174 | "POINT(1.23456 7.89123)" is left as it is, not rounded to "POINT(1.23 7.89)" |
| GeometryText.FirstPassCutsFirstNumber | Component/Drivers/BaseDriver.php:171-174 | on a text shaped like "1.123.424" the first pass cuts the first number after its '2', which joins it to the second |
| GeometryText.SecondPassCutsSecondNumber | Component/Drivers/BaseDriver.php:171-174 | on the result, shaped like "1.12.424", a second pass skips the first number and cuts the second |
| GeometryText.RoundGeometryNotIdempotent | Component/Drivers/BaseDriver.php:171-174 | for every text shaped like "1.123.424" (any digits in place of 1, 1, 3, 4 and 4), rounding twice differs from rounding once |
| SqlFragments.GenIntersectCondition | Component/FeatureType.php:438-450 | a condition exists exactly for PostgreSQL and Oracle; it is that platform's spatial-predicate text around the geometry and the geometry column, and between them stand the geometry's SRID and the target SRID, in that order |
| SqlFragments.GetGeomAttribute | Component/FeatureType.php:461-473 | PostgreSQL and Oracle read the column's text form transformed to the target SRID, which stands between the platform's function text and the alias to the column's name; other platforms read the bare column |
| SqlFragments.GeomAttributeExamples | Component/FeatureType.php:461-473 | the PostgreSQL select expression of "geom" in 25832, and the bare column elsewhere |
| SqlFragments.OracleGeomAttributeExample | Component/FeatureType.php:468-470 | the Oracle select expression of "geom" in 25832 |
| SqlFragments.WhereClause | Component/FeatureType.php:353-355 | a WHERE clause is set exactly when there is at least one condition |
| SqlFragments.SearchLimit | Component/FeatureType.php:322 | the limit is `intval(maxResults)` when it is set, and 5000 otherwise |
| SqlFragments.SearchConditions | Component/FeatureType.php:331-355 | a search has at most four conditions, and a non-empty permanent filter is always one of them |
| SqlFragments.JoinContains | Component/FeatureType.php:354 | every joined condition occurs in the WHERE text |
| SqlFragments.FilterAlwaysApplies | Component/FeatureType.php:337-340 | a non-empty permanent filter occurs in every search's WHERE clause |
| SqlFragments.NoConditionsNoWhere | Component/FeatureType.php:331-355 | there is no WHERE clause iff there is no intersect geometry, no filter, no caller condition and no source/distance pair |
| SqlFragments.FilterAndWhere | Component/FeatureType.php:337-355 | the filter and the caller's condition are joined as "filter AND where" |
| SqlFragments.IntersectComesFirst | Component/FeatureType.php:331-335 | with an intersect geometry, the first condition is the spatial predicate on the geometry rounded to precision 2 |
| ColumnNames.RenameColumn | Component/FeatureType.php:421-422 | the old name is gone, the new name holds the old value, and other keys are untouched |
| ColumnNames.RenameColumnsEffect | Component/FeatureType.php:417-426 | under an unambiguous renaming, all old names are gone, each new name carries its column's value, and all other entries are untouched |
| ColumnNames.LowerCasingUpperNames | Component/FeatureType.php:417-426 | lower-casing distinct upper-case column names moves each value to the lower-case name |
| ColumnNames.LowerKeyOfUpperName | Component/FeatureType.php:417 | lower-casing never maps an upper-case name onto an upper-case name, and it is injective on upper-case names |
| ColumnNames.LowerCaseNameDropped | Component/FeatureType.php:421-422 | a column already named in lower case is dropped: `{ID: 1, name: v}` becomes `{id: 1}` |
| ColumnNames.ColumnsOf | Component/FeatureType.php:419-420 | the keys of the first row, each once |
| ColumnNames.RenameRow | Component/FeatureType.php:420-423 | renames one row exactly as `RenameColumns` |
| ColumnNames.TransformColumnNames | Component/FeatureType.php:417-426 | every row is renamed along the first row's columns, visited in one order; no rows, no columns |
| ColumnNames.RenameRows | Component/FeatureType.php:419-425 | every row is renamed along the given columns, in place |
| FeatureTypes.Feature.constructor | Component/FeatureType.php:534-547 | a feature is a fresh data item built without the envelope, plus its SRID |
| FeatureTypes.RunHook | Component/FeatureType.php:230-232 | without a registered hook the operation proceeds with its payload unchanged |
| FeatureTypes.ResolvedSrid | Component/FeatureType.php:554-570 | a truthy SRID is kept; otherwise PostgreSQL and Oracle supply the table's SRID and other platforms keep it |
| FeatureTypes.ResolvedSridIdempotent | Component/FeatureType.php:554-570 | once resolved, the SRID resolves to itself, so later `getSrid` calls return the remembered value |
| FeatureTypes.FeatureStore.GetSrid | Component/FeatureType.php:554-570 | the SRID becomes `ResolvedSrid` of the old one and is returned; the metadata is queried only while it is falsy on a spatial platform |
| FeatureTypes.FeatureStore.constructor | Component/FeatureType.php:100-112 | without explicit fields but with a geometry field, the driver's field list is `PrunedFields` of the old list |
| FeatureTypes.ArraySearch | Component/FeatureType.php:109 | `array_search` with loose comparison: the first loosely equal position, or none exactly when no position matches |
| FeatureTypes.RemoveAt | Component/FeatureType.php:109 | `unset` at a valid position shortens the list by one; at an absent position it changes nothing |
| FeatureTypes.PruningRemovesGeomField | Component/FeatureType.php:100-112 | the geometry field is removed from the field list where it first stands |
| FeatureTypes.PruningWithoutGeomFieldDropsFirst | Component/FeatureType.php:107-110 | when the geometry field is not in the list, the first field is removed instead |
| FeatureTypes.FeatureInput | Component/FeatureType.php:534-547 | a data item that is not a feature gives an empty input; anything else is cast as the driver casts it |
| FeatureTypes.FeatureStore.Create | Component/FeatureType.php:534-547 | a feature is returned unchanged; anything else becomes a fresh feature in the store's resolved SRID, built from `FeatureInput` |
| FeatureTypes.FeatureStore.TransformEwkt | Component/FeatureType.php:257-268 | the target is the given SRID when truthy, else the store's; without the geographic capability the result is the "isn't able to transform" error |
| FeatureTypes.FeatureStore.AddGeometryColumn | Component/FeatureType.php:619-634 | the DDL is issued and true returned exactly when the driver is geographic; the table is untouched |
| FeatureTypes.Cleaned | Component/FeatureType.php:594-605 | the entries kept are exactly those whose key is not an integer position in the merged field list, each with its value |
| FeatureTypes.FeatureStore.CleanFeatureData | Component/FeatureType.php:594-605 | the result is the payload without the integer keys below the field count plus two, every other entry kept with its value |
| FeatureTypes.FeatureStore.GetFileUri | Component/FeatureType.php:712-728 | the URI of the first file-info entry about the field, or the default "featureTypes/<table>[/<field>]" when there is none |
| FeatureTypes.ListOf | Component/FeatureType.php:578-586 | a PHP list of the values, in order |
| FeatureTypes.FeatureStore.ToFeatureCollection | Component/FeatureType.php:578-586 | the collection holds each feature's GeoJSON form, in the features' order |
| FeatureTypes.Renamed | Component/FeatureType.php:499-501 | renaming keeps the number of rows |
| FeatureTypes.Limit | Component/FeatureType.php:357 | at most `limit` rows, a prefix of the fetched ones, and exactly `min(limit, rows)` of them for a non-negative limit |
| FeatureTypes.Feature.SetSrid | Component/FeatureType.php:506-508 | the feature's SRID becomes the given one |
| FeatureTypes.FeatureStore.PrepareResults | Component/FeatureType.php:497-513 | one fresh feature per row, in order, built from the row with lower-cased columns on Oracle; it takes the given SRID unless that is loosely null |
| FeatureTypes.FeatureStore.RenameResults | Component/FeatureType.php:499-503 | on Oracle the rows are `RenameColumns` of the first row's distinct columns under lower-casing; elsewhere they are unchanged |
| FeatureTypes.FeatureStore.FeaturesOf | Component/FeatureType.php:505-510 | one fresh feature per row, in order, with the row's id and attributes, in the given SRID unless that is loosely null |
| FeatureTypes.FeatureStore.GetById | Component/FeatureType.php:146-155 | a feature is found exactly when the id is not null and is in the table; it is built from that row as a select in the given SRID (the store's when that is falsy) reports it (on Oracle with the row's column names, each once, lower-cased), and takes the given SRID unless that is loosely null, the store's resolved SRID otherwise; the store's SRID is resolved unless a truthy SRID is given and nothing is found |
| FeatureTypes.WritePayload | Component/FeatureType.php:221-226 | the payload is the cleaned array form with the geometry entry replaced by its transform; every other entry keeps its value |
| FeatureTypes.UpdatePayloadEntries | Component/FeatureType.php:287-290 | the update payload lacks the id column and otherwise holds exactly the write payload's entries, with their values |
| FeatureTypes.FeatureStore.PayloadOf | Component/FeatureType.php:221-226 | the write payload of the feature's array form, or the transform error; the feature's attributes gain the id entry |
| FeatureTypes.InsertEnding | Component/FeatureType.php:217-248 | a written row takes the next id of the sequence, and the failure is the after hook's; a row not written leaves the id as it was or null; a write the connection rejects fails with its exception |
| FeatureTypes.VetoedInsert | Component/FeatureType.php:234-242 | a vetoed insert writes nothing, gives the feature a null id and still runs the after hook |
| FeatureTypes.InsertWithoutHooks | Component/FeatureType.php:217-248 | without hooks an insert writes its payload under the next id, unless the connection rejects it |
| FeatureTypes.RejectedInsert | Component/FeatureType.php:237-240 | an insert the connection rejects writes nothing, keeps the feature's id and fails with the connection's exception |
| FeatureTypes.FeatureStore.InsertFeature | Component/FeatureType.php:217-248 | the table, the statement log, the id sequence, the feature's id and the allow-insert flag end as `InsertEnding` says |
| FeatureTypes.FeatureStore.InsertPayload | Component/FeatureType.php:231-246 | from a built payload, the hooks, the write or the connection's rejection, the id sequence, the feature's id and the allow-insert flag follow `InsertEnding` |
| FeatureTypes.FeatureStore.Insert | Component/FeatureType.php:217-248 | casts the argument and inserts it; the table, the statement log, the id sequence, the feature's id and the allow-insert flag follow `InsertEnding` on the argument's array form; the allow-save and allow-update flags are unchanged |
| FeatureTypes.UpdateEnding | Component/FeatureType.php:278-310 | a write only happens with a non-empty payload and the flag set; a write the connection rejects fails with its exception |
| FeatureTypes.UpdatePayloadNotEmpty | Component/FeatureType.php:287-296 | the update payload always holds the geometry entry unless the geometry field is the id field |
| FeatureTypes.EmptiedUpdateRejected | Component/FeatureType.php:292-296 | a payload emptied by the hook raises "can't be updated without criteria" and writes nothing |
| FeatureTypes.UpdateWithoutHooks | Component/FeatureType.php:278-310 | without hooks an update writes its non-empty payload, unless the connection rejects it |
| FeatureTypes.RejectedUpdate | Component/FeatureType.php:302-304 | an update the connection rejects writes nothing and fails with the connection's exception |
| FeatureTypes.UpdatedTableEffect | Component/FeatureType.php:302 | the row with the id is merged with the data, other rows and the id set are unchanged, and a null id changes nothing |
| FeatureTypes.UpdatedTable | Component/FeatureType.php:302-304 | an update never adds or removes a row id |
| FeatureTypes.FeatureStore.UpdateFeature | Component/FeatureType.php:278-310 | the table, the statement log and the allow-update flag end as `UpdateEnding` says; the id and the sequence are unchanged |
| FeatureTypes.FeatureStore.UpdatePayloadRows | Component/FeatureType.php:291-308 | from a built payload, the hooks, the empty-payload check, the write or the connection's rejection and the allow-update flag follow `UpdateEnding`; the sequence is unchanged |
| FeatureTypes.FeatureStore.CreateEntry | Component/FeatureType.php:534-547 | the created feature has the id and array form that `EntryId` and `EntryView` predict from the argument; a feature object is used as it is and leaves the store's SRID alone, any other argument resolves it (`getSrid`) |
| FeatureTypes.FeatureStore.Update | Component/FeatureType.php:278-310 | casts the argument and updates its row as `UpdateEnding` says, appending the update to the statement log exactly when a write happens; the allow-update flag follows the hook; the feature keeps the argument's id; the allow-save and allow-insert flags are unchanged |
| FeatureTypes.FeatureStore.Save | Component/FeatureType.php:165-209 | incompatible data is rejected and changes nothing; the before hook may raise or veto; the insert path is taken when auto-update is off or there is no id, else the update path; no write leaves the table, the statement log, the sequence, the write flags and the feature's item unchanged; the table, statement log, sequence, write flags, feature id and write failure are `WriteResult` of the path (the insert path as `InsertEnding`, the update path as `UpdateEnding` and `UpdatedTable` say); an exception of the write is returned with the feature and the hook's data; otherwise the after-save hook's exception is, and without one the re-fetched feature is found exactly when its id is in the table, and is then a fresh feature with that row's id and attributes as a select in the feature's SRID reports them, in the feature's SRID or the store's resolved one when that is loosely null; the store's SRID ends resolved, except when a feature object is neither written nor re-selected in the store's SRID |
| FeatureTypes.FeatureStore.SaveEntry | Component/FeatureType.php:184-199 | the hook's verdict is stored as the allow-save flag; a vetoed save writes nothing and leaves the item alone; otherwise the table, statement log, sequence, write flags, feature id and failure are `WriteResult` of the chosen path; a write failure is returned with the feature and data, and otherwise the after-save hook and the re-fetch end as in `FinishSave`; the store's SRID ends resolved unless nothing was written and nothing was selected in it |
| FeatureTypes.FeatureStore.WriteFeature | Component/FeatureType.php:184-192 | the insert path when auto-update is off or the feature has no id, the update path otherwise; the table, statement log, sequence, write flags, feature id and failure are `WriteResult` of that path, as `InsertEnding` or `UpdateEnding` says; the store's SRID ends resolved |
| FeatureTypes.FeatureStore.WriteInsert | Component/FeatureType.php:186-187 | the insert path of `save`: its failure, the feature's id, the table, the statement log, the id sequence and the allow-insert flag are those of `InsertEnding` (`AfterInsert`) |
| FeatureTypes.FeatureStore.WriteUpdate | Component/FeatureType.php:188-191 | the update path of `save`: its failure is that of `UpdateEnding`, the id and the sequence are unchanged, and the table, the statement log and the allow-update flag change as `AfterUpdate` says (`UpdatedTable` and one update statement when there is a write) |
| FeatureTypes.FeatureStore.FinishSave | Component/FeatureType.php:194-205 | the after-save hook's exception is returned with the feature and data; otherwise the feature is fetched again, found exactly when its id is in the table, and is then a fresh feature with that row's id and attributes as a select in the feature's SRID reports them, in the feature's SRID or the store's resolved one when that is loosely null; the store's SRID is resolved exactly when the select was built in it (`getSelectQueryBuilder`); the three flags are unchanged |
| FeatureTypes.FeatureStore.IntersectConditions | Component/FeatureType.php:331-335 | the spatial condition on the criteria's geometry rounded to precision 2, only when that geometry is truthy; only then is the store's SRID resolved |
| FeatureTypes.FeatureStore.AppendFilters | Component/FeatureType.php:337-351 | appends the filter, the caller's condition and the proximity test in that order |
| FeatureTypes.FeatureStore.SearchQuery | Component/FeatureType.php:318-357 | the select expression, the WHERE clause and the limit are those of `SearchConditions` in the criteria's SRID (the store's when unset); the store's SRID is resolved unless the criteria give a truthy SRID and no intersect geometry |
| FeatureTypes.FeatureStore.Search | Component/FeatureType.php:318-375 | the query is that of `SearchQuery`; the rows up to the limit become one fresh feature each, in the query's SRID unless that is loosely null (on Oracle with the first row's column names, each once, lower-cased), returned as they are or as the FeatureCollection of their GeoJSON forms when that return type is asked for; the store's SRID stays as it was only when the criteria give a truthy SRID, no intersect geometry and no row, and is resolved otherwise |

## Left out

- The service container and the Symfony and Doctrine plumbing are not modelled. That covers connections, query builders, statement execution and the concrete drivers.
- SQL is not executed. Six functions of the backend stand in for it:
  - `report`: how a select in a given SRID returns a stored row;
  - `insertError` and `updateError`: the exception the connection raises for a write, if any;
  - `transformEwkt`: the database's coordinate transform;
  - `quote`: the connection's quoting;
  - `toGeoJson`: a feature's GeoJSON form.
- `Drivers.Driver.GetLastInsertId` returns 0 in the base driver, but the concrete drivers return the row's real id. The store's insert therefore takes ids from the table's own sequence (`Database.nextId`). An id given in an insert payload is not honoured.
- `DataItem`'s JSON-string input: `json_decode` is not modelled. JSON text is passed as the `Arr` it decodes to, and a `Str` argument stands for text that `json_decode` does not turn into an array. `__toString` and the `getParent`/`setParent` stubs are left out.
- Feature.php is not part of this model. A feature is a data item built without the envelope, plus its SRID. The geometry stays an attribute under the geometry field. Feature's own `toArray` is taken as `DataItem`'s. Its EWKT splitting is not modelled.
- `FeatureStore`'s hooks are functions of the payload and the feature id. The `secureEval` of configured PHP code is not modelled. A hook's effect is:
  - a possibly rewritten payload and the operation's allow flag;
  - or an exception.

  Exceptions become a returned failure message.
- Only `setUniqueId` and `setFields` are dispatched by the base driver's constructor. The setters of subclasses (table name, geometry field, SRID, filter, events, files) are constructor parameters of `FeatureStore`. That includes the store's own `setFields`, `setGeomField`, `setSrid` and `setFilter`. The parent `DataStore` constructor is not part of this model.
- `Drivers.CreateInput`: a scalar that is neither numeric nor an array (`true`, a JSON scalar) gives an empty item, where PHP's `DataItem` keeps the scalar as its attributes (Entity/DataItem.php:140-143).
- `DataItems.Unwrap`: under `fill`, an `attributes` entry that is not an array makes the model fall back to the whole input, where PHP stores the scalar, or fails writing the id into a string offset (Entity/DataItem.php:49-56).
- `Drivers.ApplySetting`: `setUniqueId` applies only to string values and `setFields` only to lists of strings. PHP would store any value, or raise a type error for a non-array.
- PHP floats, objects other than data items, and the numeric-string comparisons of PHP 8 are not modelled:
  - `is_numeric` and `intval` cover integer notation only;
  - `LooseEquals` compares an integer to a string by its decimal spelling.
- `FeatureTypes.Limit`: a negative `maxResults` is not treated as a cap.
- `FeatureTypes.FeatureStore.PrepareResults`: on Oracle with no rows, PHP 8 raises a type error in `transformColumnNames`. The model returns no features instead. `search` only calls it with rows; `getById` calls it whatever the select returns.
- `FeatureTypes.FeatureStore.GetById`: on Oracle, an id that matches no row makes PHP 8 raise a type error in `transformColumnNames` (FeatureType.php:153, 419). The model returns no feature instead.
- `FeatureTypes.FeatureStore.Save`: on Oracle, a re-fetch that finds no row (a vetoed insert leaves the id null) raises that same type error. It is an `Error`, not an `Exception`, so the `catch` of `save` does not hold it. The model returns `Saved(None)` instead.
- `FeatureTypes.UpdatedTable`: the table is keyed by the id value itself. A null id matches no row, as in SQL. The database's conversions between an integer id and its string spelling (`uid = '5'` matching 5) are not modelled, and nothing constrains the keys of the starting table.
- `FeatureTypes.InsertEnding`: whether the connection rejects a write depends only on the payload (and, for an update, the id), not on the rows already in the table; constraint violations against other rows are not modelled.
- `FeatureTypes.FeatureStore.GetById`: the lookup matches ids the same way as `UpdatedTable`, so a string id does not find an integer key.
- The row order of `transformColumnNames` depends on PHP's insertion order of keys. The model visits the first row's keys in an order it chooses. Renaming only depends on that order when names collide.
- Not modelled:
  - the routing helpers (`routeBetweenGeom`, the ways tables);
  - file paths on disk (`getFilePath`, `getFileUrl`, `genFilePath`, `countFiles`);
  - `getGeomType`, `getTableSequenceName`, `repairTableSequence`;
  - `toArray` of the store.

  They talk to the filesystem or run SQL against metadata.
- `FeatureType.php` repeats `getWktType` and `roundGeometry` verbatim from the base driver (lines 856-863 and 485-488). They are modelled once, in `GeometryText`.
- `getWktType` does not trim its result and raises no error without '('. `roundGeometry` interpolates `$round` into the pattern: with the default 2 it cuts after a fractional digit '2'. It does not round to two digits. The model follows the code in both.
- `roundGeometry`'s own comment (BaseDriver.php:161-170) says it rounds the geometry to the `$round` parameter. The code returns "POINT(1.23456 7.89123)" unchanged and is not idempotent. The model follows the code: `RoundGeometryPointExample` and `RoundGeometryNotIdempotent` state what it does.
