/**
 * Loosely-typed record rows as the component receives them: plain objects
 * whose own properties, distinct by name, are listed in the order
 * `Object.keys` enumerates them, and whose values are never inspected by the
 * column inference.
 */
module Records {
  import opened Wrappers

  /** A field value; relationship fields arrive as nested objects. */
  datatype Value =
    | Null
    | Text(text: string)
    | Number(number: int)
    | Boolean(flag: bool)
    | Nested(fields: seq<Entry>)

  /** One own property of a row. */
  datatype Entry = Entry(name: string, value: Value)

  /** No two entries carry the same name, as no object has two own properties of one name. */
  predicate UniqueNames(entries: seq<Entry>)
  {
    forall i, j :: 0 <= i < j < |entries| ==> entries[i].name != entries[j].name
  }

  /** A plain object: its own properties, in `Object.keys` enumeration order. */
  datatype PlainObject = PlainObject(entries: seq<Entry>)

  /** A record row: a plain object whose own property names are distinct. */
  type Row = o: PlainObject | UniqueNames(o.entries) witness PlainObject([])

  /**
   * `Object.keys(row)`: one name per own property, in enumeration order,
   * and never the same name twice.
   */
  function Keys(row: Row): (keys: seq<string>)
    ensures |keys| == |row.entries|
    ensures forall i :: 0 <= i < |keys| ==> keys[i] == row.entries[i].name
    ensures forall i, j :: 0 <= i < j < |keys| ==> keys[i] != keys[j]
  {
    seq(|row.entries|, i requires 0 <= i < |row.entries| => row.entries[i].name)
  }

  /** `row.hasOwnProperty(name)`. */
  predicate HasOwnProperty(row: Row, name: string): (b: bool)
    ensures b <==> exists e :: e in row.entries && e.name == name
  {
    name in Keys(row)
  }

  /** `row[name]`: the value of the property, `None` when it is undefined. */
  function Get(row: Row, name: string): (v: Option<Value>)
    decreases |row.entries|
    ensures v.Some? <==> HasOwnProperty(row, name)
    ensures v.Some? ==> Entry(name, v.value) in row.entries
    ensures forall e :: e in row.entries && e.name == name ==> v == Some(e.value)
  {
    if row.entries == [] then None
    else if row.entries[0].name == name then
      Some(row.entries[0].value)
    else
      var tail: Row := PlainObject(row.entries[1..]);
      var rest := Get(tail, name);
      assert Keys(row) == [row.entries[0].name] + Keys(tail);
      rest
  }
}
