/** Worked instances of the column inference on concrete rows and schemas. */
module InferenceExamples {
  import opened Wrappers
  import opened Records
  import opened Columns
  import opened FieldInference
  import opened CollectionDatatableComponent

  /** A row holding an `Id` and a `Name`, in that order. */
  lemma AccountRowKeys(id: string, name: string)
    ensures Keys(PlainObject([Entry("Id", Text(id)), Entry("Name", Text(name))])) == ["Id", "Name"]
  {
  }

  /** Both keys of an account row are described by the account schema. */
  lemma AccountKeysInSchema()
    ensures FilterInSchema(["Id", "Name"], {"Id", "Name"}) == ["Id", "Name"]
  {
  }

  /** The scan of two rows keyed `Id`, `Name` meets both keys twice. */
  lemma TwoAccountsScan(rows: seq<Row>)
    requires rows == [PlainObject([Entry("Id", Text("001")), Entry("Name", Text("Acme"))]),
                      PlainObject([Entry("Id", Text("002")), Entry("Name", Text("Globex"))])]
    ensures Candidates(rows, {"Id", "Name"}) == ["Id", "Name", "Id", "Name"]
  {
    var schema := {"Id", "Name"};
    AccountRowKeys("001", "Acme");
    AccountRowKeys("002", "Globex");
    AccountKeysInSchema();
    assert rows[..1] == [rows[0]] && [rows[0]][..0] == [];
    assert Candidates(rows[..1], schema) == ["Id", "Name"];
  }

  /** Feeding `Id`, `Name`, `Id`, `Name` to the set keeps the first two. */
  lemma DedupRepeatedPair()
    ensures Dedup(["Id", "Name", "Id", "Name"]) == ["Id", "Name"]
  {
    var c: seq<string> := ["Id", "Name", "Id", "Name"];
    assert c[..3] == ["Id", "Name", "Id"] && c[..3][..2] == ["Id", "Name"];
    assert ["Id", "Name"][..1] == ["Id"] && ["Id"][..0] == [];
    assert Dedup(["Id", "Name"]) == ["Id", "Name"];
  }

  /** Two account rows with the same keys infer each key once, in row order. */
  lemma TwoAccountsInferTwoFields(rows: seq<Row>)
    requires rows == [PlainObject([Entry("Id", Text("001")), Entry("Name", Text("Acme"))]),
                      PlainObject([Entry("Id", Text("002")), Entry("Name", Text("Globex"))])]
    ensures InferredFields(rows, {"Id", "Name"}) == ["Id", "Name"]
  {
    TwoAccountsScan(rows);
    DedupRepeatedPair();
  }

  /** The account schema's data types, upper-cased. */
  lemma UpperCasedAccountTypes()
    ensures ToUpper("id") == "ID" && ToUpper("string") == "STRING"
  {
  }

  /** The `Id` and `Name` fields of the account schema both render as text. */
  lemma AccountColumns(fields: SchemaMap, displayTypes: DisplayTypeMap)
    requires fields == map["Id" := FieldConfig("Id", "ID", "id"), "Name" := FieldConfig("Name", "Name", "string")]
    requires displayTypes == map["ID" := "text", "STRING" := "text"]
    ensures BuildColumns(["Id", "Name"], fields, displayTypes) ==
              Ok([Column("ID", "Id", Some("text"), 200), Column("Name", "Name", Some("text"), 200)])
  {
    UpperCasedAccountTypes();
    var idColumn, nameColumn := Column("ID", "Id", Some("text"), 200), Column("Name", "Name", Some("text"), 200);
    assert ColumnAttribute("Id", fields, displayTypes) == Ok(idColumn);
    assert ColumnAttribute("Name", fields, displayTypes) == Ok(nameColumn);
    assert ["Id", "Name"][1..] == ["Name"] && ["Name"][1..] == [];
    assert BuildColumns([], fields, displayTypes) == Ok([]);
    assert [nameColumn] + [] == [nameColumn] && [idColumn] + [nameColumn] == [idColumn, nameColumn];
    assert BuildColumns(["Name"], fields, displayTypes) == Ok([nameColumn]);
  }

  /**
   * Two account rows, no allow-list: a fixed-width `ID` column and a `Name`
   * column, both rendered as text.
   */
  lemma TwoAccountsInferTwoColumns(rows: seq<Row>)
    requires rows == [PlainObject([Entry("Id", Text("001")), Entry("Name", Text("Acme"))]),
                      PlainObject([Entry("Id", Text("002")), Entry("Name", Text("Globex"))])]
    ensures var fields := map["Id" := FieldConfig("Id", "ID", "id"), "Name" := FieldConfig("Name", "Name", "string")];
            var displayTypes := map["ID" := "text", "STRING" := "text"];
            InferColumns(rows, None, fields, displayTypes) ==
              Inference(Ok([Column("ID", "Id", Some("text"), 200), Column("Name", "Name", Some("text"), 200)]), Fixed)
  {
    var fields := map["Id" := FieldConfig("Id", "ID", "id"), "Name" := FieldConfig("Name", "Name", "string")];
    assert fields.Keys == {"Id", "Name"};
    TwoAccountsInferTwoFields(rows);
    AccountColumns(fields, map["ID" := "text", "STRING" := "text"]);
  }

  /** A flattened relationship key the schema does not describe is dropped. */
  lemma FlattenedKeyDropped()
    ensures var rows := [PlainObject([Entry("Id", Text("1")), Entry("Name", Text("Acme")), Entry("Account__r.Owner", Text("x"))])];
            InferredFields(rows, {"Id", "Name"}) == ["Id", "Name"]
  {
    var row := PlainObject([Entry("Id", Text("1")), Entry("Name", Text("Acme")), Entry("Account__r.Owner", Text("x"))]);
    var keys: seq<string> := ["Id", "Name", "Account__r.Owner"];
    var schema := {"Id", "Name"};
    assert Keys(row) == keys;
    assert keys[..2] == ["Id", "Name"] && keys[..2][..1] == ["Id"] && ["Id"][..0] == [];
    assert "Account__r.Owner" !in schema;
    assert FilterInSchema(keys, schema) == ["Id", "Name"];
    assert [row][..0] == [];
    assert Candidates([row], schema) == ["Id", "Name"];
    assert ["Id", "Name"][..1] == ["Id"];
    assert Dedup(["Id", "Name"]) == ["Id", "Name"];
  }

  /** An allow-list naming a field the schema lacks fails on that field. */
  lemma UnknownListedFieldFails()
    ensures var fields := map["Amount" := FieldConfig("Amount", "Amount", "currency")];
            InferColumns([], Some(["Ghost"]), fields, map[]) == Inference(Err(UndescribableField("Ghost")), Auto)
  {
  }

  /** A data type missing from the display map leaves the column type undefined. */
  lemma UnmappedTypeIsUndefined()
    ensures var fields := map["Amount" := FieldConfig("Amount", "Amount", "currency")];
            ColumnAttribute("Amount", fields, map["STRING" := "text"]) == Ok(Column("Amount", "Amount", None, 200))
  {
  }
}
