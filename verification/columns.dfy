/**
 * Column descriptors for the child datatable, built from the object's
 * schema (field name to label, API name and data type) and the
 * server-configured map from upper-cased data type to column type.
 */
module Columns {
  import opened Wrappers

  /** Schema metadata of one field of the object. */
  datatype FieldConfig = FieldConfig(apiName: string, labelText: string, dataType: string)

  /** Field name to schema metadata (`_objectFieldsMap`). */
  type SchemaMap = map<string, FieldConfig>

  /** Upper-cased data type to datatable column type (`_displayTypeMap`). */
  type DisplayTypeMap = map<string, string>

  /** Every column starts 200 pixels wide. */
  const InitialWidth := 200

  /** A column descriptor; `renderType` is `None` where the source yields `undefined`. */
  datatype Column = Column(labelText: string, fieldName: string, renderType: Option<string>, initialWidth: int)

  /** Looking up `fieldConfig.label` on a field the schema does not hold throws. */
  datatype ColumnError = UndescribableField(fieldName: string)

  /** Upper-casing of one character (ASCII letters only). */
  function UpperChar(c: char): char
  {
    if 'a' <= c <= 'z' then (c as int - 32) as char else c
  }

  /** `s.toUpperCase()`, restricted to ASCII letters. */
  function ToUpper(s: string): (u: string)
    ensures |u| == |s|
  {
    if s == [] then [] else [UpperChar(s[0])] + ToUpper(s[1..])
  }

  /** Upper-casing twice is upper-casing once. */
  lemma {:induction false} ToUpperIdempotent(s: string)
    ensures ToUpper(ToUpper(s)) == ToUpper(s)
  {
    if s != [] {
      ToUpperIdempotent(s[1..]);
      var u := ToUpper(s);
      assert u[1..] == ToUpper(s[1..]);
    }
  }

  /** `_createColumnAttribute`: the descriptor of one field. */
  function ColumnAttribute(fieldName: string, fields: SchemaMap, displayTypes: DisplayTypeMap): (r: Result<Column, ColumnError>)
    ensures r.Err? <==> fieldName !in fields
    ensures r.Err? ==> r.error == UndescribableField(fieldName)
    ensures r.Ok? ==> && r.value.labelText == fields[fieldName].labelText
                      && r.value.fieldName == fields[fieldName].apiName
                      && r.value.initialWidth == 200
    ensures r.Ok? ==> (r.value.renderType.Some? <==> ToUpper(fields[fieldName].dataType) in displayTypes)
    ensures r.Ok? && r.value.renderType.Some? ==>
              r.value.renderType.value == displayTypes[ToUpper(fields[fieldName].dataType)]
  {
    if fieldName !in fields then Err(UndescribableField(fieldName))
    else
      var config := fields[fieldName];
      var key := ToUpper(config.dataType);
      var renderType := if key in displayTypes then Some(displayTypes[key]) else None;
      Ok(Column(config.labelText, config.apiName, renderType, InitialWidth))
  }

  /**
   * The column type does not depend on how the schema cases the data type:
   * a field whose data type is already upper-cased gets the same column.
   */
  lemma ColumnTypeIgnoresCase(fieldName: string, fields: SchemaMap, displayTypes: DisplayTypeMap)
    requires fieldName in fields
    ensures var config := fields[fieldName];
            var upper := fields[fieldName := config.(dataType := ToUpper(config.dataType))];
            ColumnAttribute(fieldName, upper, displayTypes) == ColumnAttribute(fieldName, fields, displayTypes)
  {
    ToUpperIdempotent(fields[fieldName].dataType);
  }

  /**
   * The columns of `names`, one per name and in order; the first name the
   * schema does not describe aborts the whole list, as the exception does.
   */
  function BuildColumns(names: seq<string>, fields: SchemaMap, displayTypes: DisplayTypeMap): Result<seq<Column>, ColumnError>
  {
    if names == [] then Ok([])
    else match ColumnAttribute(names[0], fields, displayTypes)
      case Err(e) => Err(e)
      case Ok(c) =>
        match BuildColumns(names[1..], fields, displayTypes)
        case Err(e) => Err(e)
        case Ok(cs) => Ok([c] + cs)
  }

  /** Building the columns of two lists one after the other builds those of their concatenation. */
  lemma {:induction false} BuildColumnsAppend(a: seq<string>, b: seq<string>, fields: SchemaMap, displayTypes: DisplayTypeMap)
    ensures BuildColumns(a + b, fields, displayTypes) ==
            match BuildColumns(a, fields, displayTypes)
            case Err(e) => Err(e)
            case Ok(ca) =>
              match BuildColumns(b, fields, displayTypes)
              case Err(e) => Err(e)
              case Ok(cb) => Ok(ca + cb)
  {
    if a == [] {
      assert a + b == b;
      match BuildColumns(b, fields, displayTypes)
      case Err(e) =>
      case Ok(cb) => assert [] + cb == cb;
    } else {
      assert (a + b)[0] == a[0] && (a + b)[1..] == a[1..] + b;
      BuildColumnsAppend(a[1..], b, fields, displayTypes);
      match ColumnAttribute(a[0], fields, displayTypes)
      case Err(e) =>
      case Ok(c) =>
        match BuildColumns(a[1..], fields, displayTypes)
        case Err(e) =>
        case Ok(rest) =>
          match BuildColumns(b, fields, displayTypes)
          case Err(e) =>
          case Ok(cb) => assert [c] + (rest + cb) == ([c] + rest) + cb;
    }
  }

  /**
   * The list is built exactly when the schema describes every name, and it
   * then holds one column per name, in the names' order.
   */
  lemma {:induction false} BuildColumnsSucceeds(names: seq<string>, fields: SchemaMap, displayTypes: DisplayTypeMap)
    ensures BuildColumns(names, fields, displayTypes).Ok? <==> forall n :: n in names ==> n in fields
    ensures BuildColumns(names, fields, displayTypes).Ok? ==>
              var cols := BuildColumns(names, fields, displayTypes).value;
              && |cols| == |names|
              && forall i :: 0 <= i < |names| ==> Ok(cols[i]) == ColumnAttribute(names[i], fields, displayTypes)
  {
    if names != [] {
      BuildColumnsSucceeds(names[1..], fields, displayTypes);
      assert names == [names[0]] + names[1..];
      if BuildColumns(names, fields, displayTypes).Ok? {
        var cols := BuildColumns(names, fields, displayTypes).value;
        forall i | 0 <= i < |names|
          ensures Ok(cols[i]) == ColumnAttribute(names[i], fields, displayTypes)
        {
          if i > 0 {
            assert names[i] == names[1..][i - 1];
          }
        }
      }
    }
  }

  /** A failed build names the first field the schema does not describe. */
  lemma {:induction false} BuildColumnsFirstError(names: seq<string>, fields: SchemaMap, displayTypes: DisplayTypeMap)
    requires BuildColumns(names, fields, displayTypes).Err?
    ensures exists k :: && 0 <= k < |names|
                        && names[k] !in fields
                        && (forall j :: 0 <= j < k ==> names[j] in fields)
                        && BuildColumns(names, fields, displayTypes).error == UndescribableField(names[k])
  {
    if names[0] in fields {
      BuildColumnsFirstError(names[1..], fields, displayTypes);
      var k :| && 0 <= k < |names[1..]|
               && names[1..][k] !in fields
               && (forall j :: 0 <= j < k ==> names[1..][j] in fields)
               && BuildColumns(names[1..], fields, displayTypes).error == UndescribableField(names[1..][k]);
      assert forall j :: 0 <= j < k + 1 ==> names[j] in fields by {
        forall j | 0 <= j < k + 1
          ensures names[j] in fields
        {
          if j > 0 {
            assert names[j] == names[1..][j - 1];
          }
        }
      }
      assert names[k + 1] !in fields;
    } else {
      assert names[0] !in fields;
    }
  }
}
