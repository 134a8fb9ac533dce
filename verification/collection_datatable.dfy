/**
 * The `CollectionDatatable` component: it takes a record collection, picks
 * the seed row whose `Id` starts the schema lookup, and once the object's
 * schema is in hand builds the column list for the child datatable, either
 * from the configured allow-list (`shownFields`) or from the fields the rows
 * actually carry.
 */
module CollectionDatatableComponent {
  import opened Wrappers
  import opened Records
  import opened Columns
  import opened FieldInference

  /** Width layout hint handed to the datatable: `'auto'` or `'fixed'`. */
  datatype WidthMode = Auto | Fixed

  /** The key whose presence marks a row fetched by record id. */
  const IdField := "Id"

  /**
   * The value of `isUsingShownFields`: the allow-list when there is none
   * (falsy), its size otherwise (falsy when zero), used as a condition.
   */
  predicate UsesShownFields(shownFields: Option<seq<string>>): (b: bool)
    ensures b <==> shownFields.Some? && exists n :: n in shownFields.value
  {
    if shownFields.None? || |shownFields.value| == 0 then false
    else assert shownFields.value[0] in shownFields.value; true
  }

  /** The layout hint for a configuration. */
  function LayoutMode(shownFields: Option<seq<string>>): (m: WidthMode)
    ensures m == Fixed <==> shownFields.None? || shownFields.value == []
  {
    if UsesShownFields(shownFields) then Auto else Fixed
  }

  /** Index of the first row that has its own `Id` key, if any. */
  function FirstIdRow(rows: seq<Row>): (k: Option<nat>)
    ensures k.Some? ==> && k.value < |rows|
                        && HasOwnProperty(rows[k.value], IdField)
                        && forall j :: 0 <= j < k.value ==> !HasOwnProperty(rows[j], IdField)
    ensures k.None? ==> forall j :: 0 <= j < |rows| ==> !HasOwnProperty(rows[j], IdField)
  {
    if rows == [] then None
    else if HasOwnProperty(rows[0], IdField) then Some(0)
    else match FirstIdRow(rows[1..])
      case None => None
      case Some(k) => Some(k + 1)
  }

  /** `recordCollection.find(row => row.hasOwnProperty('Id'))`. */
  method FindRecordIdRow(rows: seq<Row>) returns (found: Option<Row>)
    ensures found.None? <==> FirstIdRow(rows).None?
    ensures found.Some? ==> found.value == rows[FirstIdRow(rows).value]
  {
    var i := 0;
    while i < |rows|
      invariant 0 <= i <= |rows|
      invariant forall j :: 0 <= j < i ==> !HasOwnProperty(rows[j], IdField)
    {
      if HasOwnProperty(rows[i], IdField) {
        return Some(rows[i]);
      }
      i := i + 1;
    }
    return None;
  }

  /** The columns and layout hint of one inference. */
  datatype Inference = Inference(columns: Result<seq<Column>, ColumnError>, mode: WidthMode)

  /**
   * The whole pipeline once rows, schema and display types are in hand:
   * the allow-list when one is configured, the inferred selection otherwise.
   */
  function InferColumns(rows: seq<Row>, shownFields: Option<seq<string>>, fields: SchemaMap, displayTypes: DisplayTypeMap): (r: Inference)
    // Only an allow-list can make the build throw, and only on a listed field the schema lacks
    ensures r.columns.Err? ==> && r.mode == Auto
                               && shownFields.Some?
                               && r.columns.error.fieldName in shownFields.value
                               && r.columns.error.fieldName !in fields
  {
    var mode := LayoutMode(shownFields);
    var names := if mode == Auto then shownFields.value else InferredFields(rows, fields.Keys);
    var columns := BuildColumns(names, fields, displayTypes);
    InferredFieldsInSchema(rows, fields.Keys);
    BuildColumnsSucceeds(names, fields, displayTypes);
    if columns.Ok? then Inference(columns, mode)
    else
      BuildColumnsFirstError(names, fields, displayTypes);
      Inference(columns, mode)
  }

  /**
   * With an allow-list the layout is `'auto'` and the rows are ignored:
   * the build succeeds exactly when the schema describes every listed
   * field, and then yields one column per listed field, in list order.
   */
  lemma ExplicitColumns(rows: seq<Row>, shownFields: Option<seq<string>>, fields: SchemaMap, displayTypes: DisplayTypeMap)
    requires UsesShownFields(shownFields)
    ensures var r := InferColumns(rows, shownFields, fields, displayTypes);
            && r.mode == Auto
            && (r.columns.Ok? <==> forall n :: n in shownFields.value ==> n in fields)
            && (r.columns.Ok? ==>
                  && |r.columns.value| == |shownFields.value|
                  && forall i :: 0 <= i < |shownFields.value| ==>
                       Ok(r.columns.value[i]) == ColumnAttribute(shownFields.value[i], fields, displayTypes))
  {
    BuildColumnsSucceeds(shownFields.value, fields, displayTypes);
  }

  /** A listed field the schema does not describe makes the build fail, naming the first such field. */
  lemma ExplicitColumnsFailure(rows: seq<Row>, shownFields: Option<seq<string>>, fields: SchemaMap, displayTypes: DisplayTypeMap)
    requires UsesShownFields(shownFields)
    requires exists n :: n in shownFields.value && n !in fields
    ensures var r := InferColumns(rows, shownFields, fields, displayTypes);
            && r.columns.Err?
            && exists k :: && 0 <= k < |shownFields.value|
                           && shownFields.value[k] !in fields
                           && (forall j :: 0 <= j < k ==> shownFields.value[j] in fields)
                           && r.columns.error == UndescribableField(shownFields.value[k])
  {
    BuildColumnsSucceeds(shownFields.value, fields, displayTypes);
    BuildColumnsFirstError(shownFields.value, fields, displayTypes);
  }

  /**
   * Without an allow-list the layout is `'fixed'` and the build never
   * fails: one column per inferred field, in inferred order, each the
   * descriptor of that field, with the schema's label and API name.
   */
  lemma InferredColumns(rows: seq<Row>, shownFields: Option<seq<string>>, fields: SchemaMap, displayTypes: DisplayTypeMap)
    requires !UsesShownFields(shownFields)
    ensures var r := InferColumns(rows, shownFields, fields, displayTypes);
            var names := InferredFields(rows, fields.Keys);
            && r.mode == Fixed
            && r.columns.Ok?
            && |r.columns.value| == |names|
            && forall i :: 0 <= i < |names| ==>
                 && names[i] in fields
                 && Ok(r.columns.value[i]) == ColumnAttribute(names[i], fields, displayTypes)
                 && r.columns.value[i].labelText == fields[names[i]].labelText
                 && r.columns.value[i].fieldName == fields[names[i]].apiName
                 && r.columns.value[i].initialWidth == InitialWidth
  {
    var names := InferredFields(rows, fields.Keys);
    InferredFieldsInSchema(rows, fields.Keys);
    BuildColumnsSucceeds(names, fields, displayTypes);
  }

  /** An empty collection with no allow-list yields no column, and no error. */
  lemma EmptyCollectionNoColumns(shownFields: Option<seq<string>>, fields: SchemaMap, displayTypes: DisplayTypeMap)
    requires !UsesShownFields(shownFields)
    ensures InferColumns([], shownFields, fields, displayTypes) == Inference(Ok([]), Fixed)
  {
  }

  /** The component's state that the column inference reads or writes. */
  class CollectionDatatable {
    /** `@api recordCollection`; `None` when the host passed nothing. */
    var recordCollection: Option<seq<Row>>
    /** The parsed `shownFields` allow-list; `None` while the setter has not run. */
    var shownFields: Option<seq<string>>
    /** `columnWidthsMode`; `None` until the columns are first built. */
    var columnWidthsMode: Option<WidthMode>
    /** `_displayTypeMap` */
    var displayTypeMap: DisplayTypeMap
    /** `_singleRecordId` */
    var singleRecordId: Option<Value>
    /** `_objectFieldsMap` */
    var objectFieldsMap: SchemaMap

    /** The host creates the component and sets its public properties. */
    constructor (recordCollection: Option<seq<Row>>, shownFields: Option<seq<string>>)
      ensures this.recordCollection == recordCollection && this.shownFields == shownFields
      ensures columnWidthsMode == None && singleRecordId == None
      ensures displayTypeMap == map[] && objectFieldsMap == map[]
    {
      this.recordCollection := recordCollection;
      this.shownFields := shownFields;
      columnWidthsMode := None;
      displayTypeMap := map[];
      singleRecordId := None;
      objectFieldsMap := map[];
    }

    /** The `isUsingShownFields` getter, read as a condition. */
    predicate IsUsingShownFields(): (b: bool)
      reads this
      ensures b <==> shownFields.Some? && exists n :: n in shownFields.value
    {
      UsesShownFields(shownFields)
    }

    /** `initializeFromWire`: remember the record id that starts the schema lookup. */
    method InitializeFromWire(recordId: Value)
      modifies this`singleRecordId
      ensures singleRecordId == Some(recordId)
    {
      singleRecordId := Some(recordId);
    }

    /**
     * `connectedCallback`: nothing happens for a missing or empty
     * collection; otherwise the display types are stored and the `Id` of
     * the first row that has one starts the lookup.
     */
    method ConnectedCallback(serverDisplayTypes: DisplayTypeMap)
      modifies this`displayTypeMap, this`singleRecordId
      ensures recordCollection.None? || |recordCollection.value| == 0 ==>
                displayTypeMap == old(displayTypeMap) && singleRecordId == old(singleRecordId)
      ensures recordCollection.Some? && |recordCollection.value| > 0 ==>
                && displayTypeMap == serverDisplayTypes
                && singleRecordId == match FirstIdRow(recordCollection.value)
                                     case None => old(singleRecordId)
                                     case Some(k) => Get(recordCollection.value[k], IdField)
    {
      if recordCollection.None? || |recordCollection.value| == 0 {
        return;
      }
      displayTypeMap := serverDisplayTypes;
      var recordIdRow := FindRecordIdRow(recordCollection.value);
      if recordIdRow.Some? {
        var id := Get(recordIdRow.value, IdField);
        InitializeFromWire(id.value);
      }
    }

    /** `_createSetFromUniqueCollectionFields`: the inferred selection of `collection`. */
    method CreateSetFromUniqueCollectionFields(collection: seq<Row>) returns (uniqueFields: seq<string>)
      ensures uniqueFields == InferredFields(collection, objectFieldsMap.Keys)
    {
      ghost var schema := objectFieldsMap.Keys;
      uniqueFields := [];
      var i := 0;
      while i < |collection|
        invariant 0 <= i <= |collection|
        invariant uniqueFields == Dedup(Candidates(collection[..i], schema))
      {
        var keys := Keys(collection[i]);
        ghost var scanned := Candidates(collection[..i], schema);
        assert keys[..0] == [] && scanned + [] == scanned;
        var j := 0;
        while j < |keys|
          invariant 0 <= j <= |keys|
          invariant uniqueFields == Dedup(scanned + FilterInSchema(keys[..j], schema))
        {
          var fieldName := keys[j];
          FilterInSchemaStep(keys, j, schema);
          // Prevents flattened relationship keys from entering the set
          if fieldName in objectFieldsMap {
            ghost var seen := scanned + FilterInSchema(keys[..j], schema);
            assert scanned + FilterInSchema(keys[..j + 1], schema) == seen + [fieldName];
            DedupStep(seen, fieldName);
            if fieldName !in uniqueFields {
              uniqueFields := uniqueFields + [fieldName];
            }
            assert uniqueFields == Dedup(scanned + FilterInSchema(keys[..j + 1], schema));
          } else {
            assert FilterInSchema(keys[..j], schema) + [] == FilterInSchema(keys[..j], schema);
            assert uniqueFields == Dedup(scanned + FilterInSchema(keys[..j + 1], schema));
          }
          j := j + 1;
        }
        assert keys[..j] == keys;
        CandidatesStep(collection, i, schema);
        i := i + 1;
      }
      assert collection[..i] == collection;
    }

    /** The column pushes of `_createColumns`: one descriptor per name, in order. */
    method AppendColumns(names: seq<string>) returns (columns: Result<seq<Column>, ColumnError>)
      ensures columns == BuildColumns(names, objectFieldsMap, displayTypeMap)
    {
      var finalColumns := [];
      var i := 0;
      while i < |names|
        invariant 0 <= i <= |names|
        invariant BuildColumns(names[..i], objectFieldsMap, displayTypeMap) == Ok(finalColumns)
      {
        var column := ColumnAttribute(names[i], objectFieldsMap, displayTypeMap);
        assert names[..i + 1] == names[..i] + [names[i]];
        BuildColumnsAppend(names[..i], [names[i]], objectFieldsMap, displayTypeMap);
        if column.Err? {
          // The exception escapes the loop and the columns built so far are lost
          assert names == names[..i + 1] + names[i + 1..];
          BuildColumnsAppend(names[..i + 1], names[i + 1..], objectFieldsMap, displayTypeMap);
          return Err(column.error);
        }
        assert [column.value] + [] == [column.value];
        finalColumns := finalColumns + [column.value];
        i := i + 1;
      }
      assert names[..i] == names;
      return Ok(finalColumns);
    }

    /**
     * `_createColumns`: records the layout hint first, then builds the
     * allow-list's columns when one is configured and the inferred ones
     * otherwise. The hint is set even when the build throws.
     */
    method CreateColumns(collectionFields: seq<string>) returns (columns: Result<seq<Column>, ColumnError>)
      modifies this`columnWidthsMode
      ensures columnWidthsMode == Some(LayoutMode(shownFields))
      ensures columns == BuildColumns(if IsUsingShownFields() then shownFields.value else collectionFields,
                                      objectFieldsMap, displayTypeMap)
    {
      columnWidthsMode := if IsUsingShownFields() then Some(Auto) else Some(Fixed);
      if IsUsingShownFields() {
        columns := AppendColumns(shownFields.value);
      } else {
        columns := AppendColumns(collectionFields);
      }
    }

    /**
     * The data branch of `wiredObjectInfo`: index the schema, infer the
     * fields of the collection and build the columns handed to the child
     * datatable.
     */
    method ReceiveObjectInfo(fields: SchemaMap) returns (columns: Result<seq<Column>, ColumnError>)
      requires recordCollection.Some?
      modifies this`objectFieldsMap, this`columnWidthsMode
      ensures objectFieldsMap == fields
      ensures columnWidthsMode.Some?
      ensures Inference(columns, columnWidthsMode.value) ==
              InferColumns(recordCollection.value, shownFields, fields, displayTypeMap)
    {
      objectFieldsMap := fields;
      var collectionFields := CreateSetFromUniqueCollectionFields(recordCollection.value);
      columns := CreateColumns(collectionFields);
    }
  }
}
