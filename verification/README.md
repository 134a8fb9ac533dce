# CollectionDatatable column inference, in Dafny

This project models the column-inference logic of the Lightning web component
`CollectionDatatable`. The component receives a collection of loosely-typed
record rows and, once the object's schema is in hand, builds the column list
it hands to a generic child datatable:

- **Seed row.** `connectedCallback` does nothing for a missing or empty
  collection. Otherwise it stores the server's display-type map and takes the
  `Id` of the first row that has its own `Id` key. That id starts the schema
  lookup.
- **Inferred field selection.** `_createSetFromUniqueCollectionFields` scans
  the rows in collection order and each row's keys in `Object.keys` order. It
  keeps the keys the schema (`_objectFieldsMap`) describes and collects them
  in a JavaScript `Set`: once each, by first appearance.
- **Column list.** `_createColumns` first records the layout hint
  `columnWidthsMode`: `'auto'` when a non-empty `shownFields` allow-list is
  configured, `'fixed'` otherwise. It then maps the allow-list, or the
  inferred selection, one-to-one and in order to column descriptors.
- **Column descriptor.** `_createColumnAttribute` gives
  `{label, fieldName: apiName, type, initialWidth: 200}`. `type` is the
  display-map entry for the upper-cased data type, or `undefined` when there
  is none. A field the schema does not describe makes `fieldConfig.label`
  throw; this can only happen with an allow-list.

Modules, one per concern:

- `Wrappers` (`wrappers.dfy`): `Option` (with `None` for `undefined`) and `Result` (for the thrown error).
- `Records` (`records.dfy`): rows as ordered own-property lists whose names are distinct (the subset type `Row`), `Object.keys`, `hasOwnProperty` and property lookup.
- `FieldInference` (`field_inference.dfy`): the insertion-ordered set (`Dedup`), the filtered scan (`Candidates`) and the inferred selection (`InferredFields`), with their properties.
- `Columns` (`columns.dfy`): schema entries, descriptors, `ColumnAttribute`, the one-to-one list build `BuildColumns`, and their properties.
- `CollectionDatatableComponent` (`collection_datatable.dfy`): the component as a class whose methods update its fields in place. It also holds the end-to-end pipeline `InferColumns` and the lemmas about the two selection modes.
- `InferenceExamples` (`inference_examples.dfy`): concrete instances, worked through by the verifier.

A data type missing from the display-type map is not an error: `Map.get`
returns `undefined` and the column is built with an undefined type
(`collectionDatatable.js:159`). The model gives `renderType == None`
(`Columns.ColumnAttribute`, `InferenceExamples.UnmappedTypeIsUndefined`).

## Model

| member | source | states |
|---|---|---|
| `Records.Keys` | force-app/main/default/lwc/collectionDatatable/collectionDatatable.js:129 | `Object.keys` gives one name per own property of the row, in the row's enumeration order, and never the same name twice |
| `Records.HasOwnProperty` | force-app/main/default/lwc/collectionDatatable/collectionDatatable.js:81 | a row has an own property of a name exactly when one of its entries carries that name |
| `Records.Get` | force-app/main/default/lwc/collectionDatatable/collectionDatatable.js:81-88 | a property read is defined exactly when the row has that own key, and then gives the value of the one entry carrying that name |
| `CollectionDatatableComponent.UsesShownFields` | force-app/main/default/lwc/collectionDatatable/collectionDatatable.js:69-71 | the getter's value is truthy exactly when an allow-list is configured and names at least one field |
| `CollectionDatatableComponent.CollectionDatatable.IsUsingShownFields` | force-app/main/default/lwc/collectionDatatable/collectionDatatable.js:69-71 | read on the component, the getter holds exactly when the current allow-list exists and names at least one field |
| `CollectionDatatableComponent.LayoutMode` | force-app/main/default/lwc/collectionDatatable/collectionDatatable.js:141 | the layout hint is `'fixed'` exactly when there is no allow-list or an empty one, and `'auto'` otherwise |
| `CollectionDatatableComponent.FirstIdRow` | force-app/main/default/lwc/collectionDatatable/collectionDatatable.js:81 | the index found holds a row with its own `Id` key and no earlier row has one; no index means no row has one |
| `CollectionDatatableComponent.FindRecordIdRow` | force-app/main/default/lwc/collectionDatatable/collectionDatatable.js:81 | the `find` loop returns the first row with an `Id` key, or nothing when no row has one |
| `CollectionDatatableComponent.CollectionDatatable.constructor` | force-app/main/default/lwc/collectionDatatable/collectionDatatable.js:43-67 | the host-set `recordCollection` and `shownFields` are stored; the layout hint and record id start unset, and the display map and schema start empty |
| `CollectionDatatableComponent.CollectionDatatable.InitializeFromWire` | force-app/main/default/lwc/collectionDatatable/collectionDatatable.js:92-94 | the record id that starts the schema lookup is stored, nothing else changes |
| `CollectionDatatableComponent.CollectionDatatable.ConnectedCallback` | force-app/main/default/lwc/collectionDatatable/collectionDatatable.js:73-90 | a missing or empty collection changes nothing; otherwise the display map is stored and the record id becomes the `Id` of the first row that has one, or stays as it was when no row has one |
| `FieldInference.DedupSameElements` | force-app/main/default/lwc/collectionDatatable/collectionDatatable.js:127-136 | the insertion-ordered set holds exactly the elements added to it |
| `FieldInference.DedupDistinct` | force-app/main/default/lwc/collectionDatatable/collectionDatatable.js:127-136 | the insertion-ordered set holds no element twice |
| `FieldInference.DedupFirstOccurrence` | force-app/main/default/lwc/collectionDatatable/collectionDatatable.js:127-136 | the set lists elements by first occurrence: earlier in the set means first added earlier |
| `FieldInference.DedupPrefix` | force-app/main/default/lwc/collectionDatatable/collectionDatatable.js:132 | adding more elements never moves or removes one already in the set |
| `FieldInference.DedupUnique` | force-app/main/default/lwc/collectionDatatable/collectionDatatable.js:127-136 | any duplicate-free listing of the added elements by first occurrence is the set itself, so the three properties above define it |
| `FieldInference.FilterInSchemaMembers` | force-app/main/default/lwc/collectionDatatable/collectionDatatable.js:129-133 | a key of a row survives the schema test exactly when the schema describes it |
| `FieldInference.CandidatesAppend` | force-app/main/default/lwc/collectionDatatable/collectionDatatable.js:128-135 | scanning two collections one after the other is scanning their concatenation |
| `FieldInference.CandidatesMembers` | force-app/main/default/lwc/collectionDatatable/collectionDatatable.js:128-135 | the scan meets a name exactly when some row has it as a key and the schema describes it |
| `FieldInference.InferredFieldsInSchema` | force-app/main/default/lwc/collectionDatatable/collectionDatatable.js:129-133 | every inferred field is a schema key; other row keys, such as flattened relationship keys, are dropped |
| `FieldInference.InferredFieldsComplete` | force-app/main/default/lwc/collectionDatatable/collectionDatatable.js:128-135 | a name is inferred if and only if it is a key of some row and the schema describes it |
| `FieldInference.InferredFieldsDistinct` | force-app/main/default/lwc/collectionDatatable/collectionDatatable.js:127-136 | the inferred selection holds no field twice |
| `FieldInference.InferredFieldsScanOrder` | force-app/main/default/lwc/collectionDatatable/collectionDatatable.js:127-136 | inferred fields appear in the order the scan (rows in order, keys in row order) first meets them |
| `FieldInference.InferredFieldsStable` | force-app/main/default/lwc/collectionDatatable/collectionDatatable.js:127-136 | the selection for a collection is a prefix of the selection for that collection with more rows appended |
| `FieldInference.InferredFieldsCharacterized` | force-app/main/default/lwc/collectionDatatable/collectionDatatable.js:126-137 | a sequence is the inferred selection if and only if it lists the scanned schema keys once each by first appearance |
| `FieldInference.InferredFieldsEmpty` | force-app/main/default/lwc/collectionDatatable/collectionDatatable.js:128 | an empty collection infers no field |
| `CollectionDatatableComponent.CollectionDatatable.CreateSetFromUniqueCollectionFields` | force-app/main/default/lwc/collectionDatatable/collectionDatatable.js:126-137 | the nested loops build exactly the inferred selection of the collection against the current schema keys |
| `Columns.ColumnAttribute` | force-app/main/default/lwc/collectionDatatable/collectionDatatable.js:154-162 | a field missing from the schema is an error naming it; otherwise the label is the schema label, the field name the schema API name, the width 200, and the type the display-map entry for the upper-cased data type, undefined when there is none |
| `Columns.ToUpperIdempotent` | force-app/main/default/lwc/collectionDatatable/collectionDatatable.js:159 | upper-casing a data type twice is upper-casing it once |
| `Columns.ColumnTypeIgnoresCase` | force-app/main/default/lwc/collectionDatatable/collectionDatatable.js:159 | the descriptor does not change when the schema's data type is already upper-cased |
| `Columns.BuildColumnsAppend` | force-app/main/default/lwc/collectionDatatable/collectionDatatable.js:143-149 | building the columns of two name lists in turn builds those of their concatenation, the first failure winning |
| `Columns.BuildColumnsSucceeds` | force-app/main/default/lwc/collectionDatatable/collectionDatatable.js:142-150 | the column list is built if and only if the schema describes every name; it then has one descriptor per name, in order |
| `Columns.BuildColumnsFirstError` | force-app/main/default/lwc/collectionDatatable/collectionDatatable.js:143-157 | a failed build names the first field the schema does not describe, all earlier ones being described |
| `CollectionDatatableComponent.CollectionDatatable.AppendColumns` | force-app/main/default/lwc/collectionDatatable/collectionDatatable.js:143-149 | the push loop yields the one-to-one, in-order column list, or the error of the first field the schema lacks |
| `CollectionDatatableComponent.CollectionDatatable.CreateColumns` | force-app/main/default/lwc/collectionDatatable/collectionDatatable.js:139-152 | the layout hint becomes `'auto'` exactly when the allow-list is non-empty and `'fixed'` otherwise, even when the build then fails; the columns are those of the allow-list in that case and of the inferred fields otherwise; no other field changes |
| `CollectionDatatableComponent.CollectionDatatable.ReceiveObjectInfo` | force-app/main/default/lwc/collectionDatatable/collectionDatatable.js:113-122 | once the schema arrives it is stored, and the columns and layout hint handed on are those of the pipeline on the collection, allow-list, schema and display map |
| `CollectionDatatableComponent.InferColumns` | force-app/main/default/lwc/collectionDatatable/collectionDatatable.js:116-118 | the pipeline on rows, allow-list, schema and display map fails only with the `'auto'` hint, and then on a listed field the schema does not describe |
| `CollectionDatatableComponent.ExplicitColumns` | force-app/main/default/lwc/collectionDatatable/collectionDatatable.js:141-145 | with a non-empty allow-list the hint is `'auto'` and the rows play no part; the build succeeds if and only if the schema describes every listed field, and then gives one column per listed field, in list order |
| `CollectionDatatableComponent.ExplicitColumnsFailure` | force-app/main/default/lwc/collectionDatatable/collectionDatatable.js:143-157 | a listed field the schema lacks makes the build fail, naming the first such field |
| `CollectionDatatableComponent.InferredColumns` | force-app/main/default/lwc/collectionDatatable/collectionDatatable.js:146-150 | without an allow-list the hint is `'fixed'` and the build never fails: one column per inferred field, in inferred order, each the descriptor of that field (schema label, API name, width 200 and the display-map type) |
| `CollectionDatatableComponent.EmptyCollectionNoColumns` | force-app/main/default/lwc/collectionDatatable/collectionDatatable.js:126-151 | an empty collection without an allow-list gives no column and no error |
| `InferenceExamples.TwoAccountsInferTwoFields` | force-app/main/default/lwc/collectionDatatable/collectionDatatable.js:126-137 | two rows with keys `Id`, `Name` infer `[Id, Name]` |
| `InferenceExamples.TwoAccountsInferTwoColumns` | force-app/main/default/lwc/collectionDatatable/collectionDatatable.js:139-162 | the same rows with schema labels `ID`, `Name` and text display types give two text columns of width 200 and the `'fixed'` hint |
| `InferenceExamples.FlattenedKeyDropped` | force-app/main/default/lwc/collectionDatatable/collectionDatatable.js:130-133 | a row with a flattened key `Account__r.Owner` infers only `[Id, Name]` |
| `InferenceExamples.UnknownListedFieldFails` | force-app/main/default/lwc/collectionDatatable/collectionDatatable.js:155-157 | an allow-list `[Ghost]` on a schema without `Ghost` fails on `Ghost`, with the `'auto'` hint |
| `InferenceExamples.UnmappedTypeIsUndefined` | force-app/main/default/lwc/collectionDatatable/collectionDatatable.js:159 | a data type missing from the display map gives a column with an undefined type, not an error |

## Left out

- The platform wire adapters `getRecord` and `getObjectInfo` and their reactive re-triggering (`collectionDatatable.js:100-124`) are asynchronous platform services. Only the data branch of `wiredObjectInfo` is modelled, as `ReceiveObjectInfo`. Its error branches and the `getRecord` branch that sets `_objectApiName` are not modelled.
- `ReceiveObjectInfo` requires a record collection to be present. The adapter only fires after `connectedCallback` found a non-empty collection.
- The Apex call `getDisplayTypeMap` and its `await` become the parameter of `ConnectedCallback`. Before that call the display map is an empty map rather than `undefined`.
- `createSetFromDelimitedString` and `reduceErrors` from `c/utils` are not part of this model. The allow-list is taken as an already-parsed sequence of field names.
- Columns.ToUpper: upper-cases ASCII letters only. It does not model Unicode case mapping.
- Toast notifications (`_notifySingleError`) and the `console.log` of the collection are left out. So is the hand-off through `template.querySelector('c-datatable').initializeTable`: `ReceiveObjectInfo` returns the columns instead.
- The pass-through properties `title`, `showRecordCount`, `checkboxType`, `editableFields`, `sortableFields`, `sortedBy`, `sortedDirection` are never read by this logic, so they are left out. So are the stored `_objectInfo` and `_objectApiName`.
- `initializeFromCollection` is an unused setter and is left out.
- `_createColumns` takes a `fieldsToShow` argument. Its only caller passes `this.shownFields`, so `CreateColumns` reads the field directly.
- `isUsingShownFields` returns the set's size (a number) or a falsy value. It is modelled as the boolean it is used as.
- Row values are never inspected, and numbers are modelled as integers. Nested objects held as values are not required to have distinct property names, since nothing reads them.
- Records.Row: a row's entries are taken to be listed in the order `Object.keys` enumerates them. How JavaScript derives that order (integer-like keys first, in ascending numeric order, then the other keys in creation order) is not modelled; Salesforce field API names are never integer-like.
- Every element of the collection is modelled as an object. A `null` or `undefined` element, on which `row.hasOwnProperty` (`collectionDatatable.js:81`) and `Object.keys(row)` (`collectionDatatable.js:129`) throw, is not modelled.
- The schema `_objectFieldsMap` is an empty map before `wiredObjectInfo` delivers data, rather than `undefined`. It is only read after it is set.
- The allow-list is a JavaScript `Set` built by `createSetFromDelimitedString`, so it never names a field twice. The model's `shownFields` is a sequence and does not enforce this; a sequence with a repeated name would give a repeated column the component cannot produce.
