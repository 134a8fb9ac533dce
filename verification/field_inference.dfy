/**
 * Inferred field selection: the field names the component shows when no
 * explicit allow-list is configured. The rows are scanned in collection
 * order and each row's keys in `Object.keys` order; keys the object's schema
 * does not describe (flattened relationship keys, for one) are dropped, and
 * the survivors are collected into an insertion-ordered set.
 */
module FieldInference {
  import opened Records

  /** No name occurs twice. */
  ghost predicate Distinct(s: seq<string>)
  {
    forall i, j :: 0 <= i < j < |s| ==> s[i] != s[j]
  }

  /** Position of the first occurrence of `x` in `s`. */
  function IndexOf(s: seq<string>, x: string): (i: nat)
    requires x in s
    ensures i < |s| && s[i] == x && x !in s[..i]
  {
    if s[0] == x then 0
    else
      var i := IndexOf(s[1..], x) + 1;
      assert s[..i] == [s[0]] + s[1..][..i - 1];
      i
  }

  /**
   * The insertion order of a JavaScript `Set` fed with `s`: each element at
   * its first occurrence, later repeats ignored.
   */
  function Dedup(s: seq<string>): seq<string>
  {
    if s == [] then []
    else
      var d := Dedup(s[..|s| - 1]);
      if s[|s| - 1] in d then d else d + [s[|s| - 1]]
  }

  /** The keys of `keys` that the schema describes, in their order. */
  function FilterInSchema(keys: seq<string>, schema: set<string>): seq<string>
  {
    if keys == [] then []
    else
      var last := keys[|keys| - 1];
      FilterInSchema(keys[..|keys| - 1], schema) + (if last in schema then [last] else [])
  }

  /**
   * Every schema-described key met by the scan of `rows`: rows in
   * collection order, keys in row order, repeats included.
   */
  function Candidates(rows: seq<Row>, schema: set<string>): seq<string>
  {
    if rows == [] then []
    else Candidates(rows[..|rows| - 1], schema) + FilterInSchema(Keys(rows[|rows| - 1]), schema)
  }

  /** The inferred selection: schema-described row keys, once each, by first appearance. */
  function InferredFields(rows: seq<Row>, schema: set<string>): seq<string>
  {
    Dedup(Candidates(rows, schema))
  }

  // ---------------------------------------------------------------------
  // Insertion-ordered set semantics

  /** Adding an element the prefix already holds finds it at the same position. */
  lemma IndexOfAppend(s: seq<string>, t: seq<string>, x: string)
    requires x in s
    ensures x in s + t && IndexOf(s + t, x) == IndexOf(s, x)
  {
    var i := IndexOf(s, x);
    assert (s + t)[i] == x;
    assert (s + t)[..i] == s[..i];
  }

  /** `Set.prototype.add`: an element already present leaves the set as it was, a new one goes last. */
  lemma DedupStep(s: seq<string>, x: string)
    ensures Dedup(s + [x]) == if x in Dedup(s) then Dedup(s) else Dedup(s) + [x]
  {
  }

  /** A new element is first found at the end. */
  lemma IndexOfNew(s: seq<string>, x: string)
    requires x !in s
    ensures IndexOf(s + [x], x) == |s|
  {
  }

  /** The set holds exactly the elements fed to it. */
  lemma {:induction false} DedupSameElements(s: seq<string>)
    ensures forall x :: x in Dedup(s) <==> x in s
  {
    if s != [] {
      var init := s[..|s| - 1];
      DedupSameElements(init);
      assert s == init + [s[|s| - 1]];
    }
  }

  /** The set holds no element twice. */
  lemma {:induction false} DedupDistinct(s: seq<string>)
    ensures Distinct(Dedup(s))
  {
    if s != [] {
      DedupDistinct(s[..|s| - 1]);
    }
  }

  /** Feeding one more element keeps the set ordered by first occurrence. */
  lemma DedupOrderStep(s: seq<string>, init: seq<string>)
    requires s != [] && init == s[..|s| - 1]
    requires forall x :: x in Dedup(init) ==> x in init
    requires forall i, j :: 0 <= i < j < |Dedup(init)| ==> IndexOf(init, Dedup(init)[i]) < IndexOf(init, Dedup(init)[j])
    ensures forall i, j :: 0 <= i < j < |Dedup(s)| ==>
              && Dedup(s)[i] in s && Dedup(s)[j] in s
              && IndexOf(s, Dedup(s)[i]) < IndexOf(s, Dedup(s)[j])
  {
    var last := s[|s| - 1];
    var d, e := Dedup(init), Dedup(s);
    assert s == init + [last];
    DedupSameElements(init);
    forall i, j | 0 <= i < j < |e|
      ensures e[i] in s && e[j] in s && IndexOf(s, e[i]) < IndexOf(s, e[j])
    {
      assert e[i] == d[i];
      IndexOfAppend(init, [last], d[i]);
      if j < |d| {
        assert e[j] == d[j];
        IndexOfAppend(init, [last], d[j]);
      } else {
        IndexOfNew(init, last);
      }
    }
  }

  /**
   * The set lists its elements by first occurrence: an element that
   * comes earlier in the set first occurs earlier in the input.
   */
  lemma {:induction false} DedupFirstOccurrence(s: seq<string>)
    ensures forall x :: x in Dedup(s) ==> x in s
    ensures forall i, j :: 0 <= i < j < |Dedup(s)| ==> IndexOf(s, Dedup(s)[i]) < IndexOf(s, Dedup(s)[j])
  {
    DedupSameElements(s);
    if s != [] {
      DedupFirstOccurrence(s[..|s| - 1]);
      DedupOrderStep(s, s[..|s| - 1]);
    }
  }

  /** Feeding more elements never moves or removes an element already in the set. */
  lemma {:induction false} DedupPrefix(s: seq<string>, t: seq<string>)
    ensures Dedup(s) <= Dedup(s + t)
  {
    if t != [] {
      var init := t[..|t| - 1];
      DedupPrefix(s, init);
      assert (s + t)[..|s + t| - 1] == s + init;
    } else {
      assert s + t == s;
    }
  }

  /**
   * `d` lists the elements of `s` once each, ordered by their first
   * occurrence in `s`.
   */
  ghost predicate ListsByFirstOccurrence(s: seq<string>, d: seq<string>)
  {
    && Distinct(d)
    && (forall x :: x in d <==> x in s)
    && (forall i, j :: 0 <= i < j < |d| ==> IndexOf(s, d[i]) < IndexOf(s, d[j]))
  }

  /** A listing of `init + [x]` where `x` repeats an earlier element lists `init` too. */
  lemma ListingDropRepeat(init: seq<string>, x: string, d: seq<string>)
    requires x in init
    requires ListsByFirstOccurrence(init + [x], d)
    ensures ListsByFirstOccurrence(init, d)
  {
    var s := init + [x];
    assert forall y :: y in d <==> y in init;
    forall i, j | 0 <= i < j < |d|
      ensures IndexOf(init, d[i]) < IndexOf(init, d[j])
    {
      IndexOfAppend(init, [x], d[i]);
      IndexOfAppend(init, [x], d[j]);
    }
  }

  /** A listing of `init + [x]` where `x` is new ends with `x`. */
  lemma ListingEndsWithNew(init: seq<string>, x: string, d: seq<string>)
    requires x !in init
    requires ListsByFirstOccurrence(init + [x], d)
    ensures d != [] && d[|d| - 1] == x
  {
    var s := init + [x];
    assert x in d;
    IndexOfNew(init, x);
    var k := IndexOf(d, x);
    var y := d[|d| - 1];
    assert y in s;
    if y != x {
      IndexOfAppend(init, [x], y);
    }
    assert IndexOf(s, d[k]) <= IndexOf(s, y);
  }

  /** A listing of `init + [x]` where `x` is new lists `init` once `x` is dropped from its end. */
  lemma ListingDropNew(init: seq<string>, x: string, d: seq<string>)
    requires x !in init
    requires ListsByFirstOccurrence(init + [x], d)
    ensures d != [] && d[|d| - 1] == x
    ensures ListsByFirstOccurrence(init, d[..|d| - 1])
  {
    ListingEndsWithNew(init, x, d);
    var rest := d[..|d| - 1];
    assert d == rest + [x];
    forall y
      ensures y in rest <==> y in init
    {
      if y in rest {
        var m :| 0 <= m < |rest| && rest[m] == y;
        assert d[m] != d[|d| - 1];
      }
      if y in init {
        assert y in d && y != x;
      }
    }
    forall i, j | 0 <= i < j < |rest|
      ensures IndexOf(init, rest[i]) < IndexOf(init, rest[j])
    {
      assert rest[i] == d[i] && rest[j] == d[j];
      IndexOfAppend(init, [x], rest[i]);
      IndexOfAppend(init, [x], rest[j]);
    }
  }

  /** Only the empty sequence lists the elements of an empty input. */
  lemma ListingOfEmpty(s: seq<string>, d: seq<string>)
    requires forall x :: x in d ==> x in s
    ensures s == [] ==> d == []
  {
    if d != [] {
      assert d[0] in s;
    }
  }

  /**
   * The set is the only duplicate-free listing of the input by first
   * occurrence.
   */
  lemma {:induction false} DedupUnique(s: seq<string>, d: seq<string>)
    requires ListsByFirstOccurrence(s, d)
    ensures d == Dedup(s)
  {
    if s == [] {
      ListingOfEmpty(s, d);
    } else {
      var init, x := s[..|s| - 1], s[|s| - 1];
      assert s == init + [x];
      if x in init {
        ListingDropRepeat(init, x, d);
        DedupUnique(init, d);
      } else {
        ListingDropNew(init, x, d);
        DedupUnique(init, d[..|d| - 1]);
        DedupSameElements(init);
        assert d == d[..|d| - 1] + [x];
      }
    }
  }

  // ---------------------------------------------------------------------
  // The scan

  /** A key survives the filter exactly when it is a row key the schema describes. */
  lemma {:induction false} FilterInSchemaMembers(keys: seq<string>, schema: set<string>)
    ensures forall x :: x in FilterInSchema(keys, schema) <==> x in keys && x in schema
  {
    if keys != [] {
      FilterInSchemaMembers(keys[..|keys| - 1], schema);
      assert keys == keys[..|keys| - 1] + [keys[|keys| - 1]];
    }
  }

  /** Scanning two collections one after the other scans their concatenation. */
  lemma {:induction false} CandidatesAppend(a: seq<Row>, b: seq<Row>, schema: set<string>)
    ensures Candidates(a + b, schema) == Candidates(a, schema) + Candidates(b, schema)
  {
    if b != [] {
      var init := b[..|b| - 1];
      CandidatesAppend(a, init, schema);
      assert (a + b)[..|a + b| - 1] == a + init;
    } else {
      assert a + b == a;
    }
  }

  /** The scan meets a name exactly when some row has it as a key and the schema describes it. */
  lemma {:induction false} CandidatesMembers(rows: seq<Row>, schema: set<string>, x: string)
    ensures x in Candidates(rows, schema) <==>
            x in schema && exists i :: 0 <= i < |rows| && x in Keys(rows[i])
  {
    if rows != [] {
      var init, last := rows[..|rows| - 1], rows[|rows| - 1];
      CandidatesMembers(init, schema, x);
      FilterInSchemaMembers(Keys(last), schema);
      if x in Candidates(init, schema) {
        var i :| 0 <= i < |init| && x in Keys(init[i]);
        assert rows[i] == init[i];
      } else if x in FilterInSchema(Keys(last), schema) {
        assert x in Keys(rows[|rows| - 1]);
      }
      if x in schema && exists i :: 0 <= i < |rows| && x in Keys(rows[i]) {
        var i :| 0 <= i < |rows| && x in Keys(rows[i]);
        if i < |init| {
          assert rows[i] == init[i];
        }
      }
    }
  }

  /** Scanning one more row appends that row's schema-described keys. */
  lemma CandidatesStep(rows: seq<Row>, i: nat, schema: set<string>)
    requires i < |rows|
    ensures Candidates(rows[..i + 1], schema) == Candidates(rows[..i], schema) + FilterInSchema(Keys(rows[i]), schema)
  {
    assert rows[..i + 1][..i] == rows[..i];
  }

  /** Testing one more key appends it when the schema describes it. */
  lemma FilterInSchemaStep(keys: seq<string>, j: nat, schema: set<string>)
    requires j < |keys|
    ensures FilterInSchema(keys[..j + 1], schema) ==
            FilterInSchema(keys[..j], schema) + (if keys[j] in schema then [keys[j]] else [])
  {
    assert keys[..j + 1][..j] == keys[..j];
  }

  // ---------------------------------------------------------------------
  // Properties of the inferred selection

  /** Every inferred field is described by the schema; other row keys are dropped. */
  lemma InferredFieldsInSchema(rows: seq<Row>, schema: set<string>)
    ensures forall x :: x in InferredFields(rows, schema) ==> x in schema
  {
    DedupSameElements(Candidates(rows, schema));
    forall x | x in InferredFields(rows, schema)
      ensures x in schema
    {
      CandidatesMembers(rows, schema, x);
    }
  }

  /**
   * A name is inferred exactly when it is a key of some row and the schema
   * describes it.
   */
  lemma InferredFieldsComplete(rows: seq<Row>, schema: set<string>, x: string)
    ensures x in InferredFields(rows, schema) <==>
            x in schema && exists i :: 0 <= i < |rows| && x in Keys(rows[i])
  {
    DedupSameElements(Candidates(rows, schema));
    CandidatesMembers(rows, schema, x);
  }

  /** The inferred selection holds no field twice. */
  lemma InferredFieldsDistinct(rows: seq<Row>, schema: set<string>)
    ensures Distinct(InferredFields(rows, schema))
  {
    DedupDistinct(Candidates(rows, schema));
  }

  /**
   * The inferred selection lists its fields in the order the scan first
   * meets them.
   */
  lemma InferredFieldsScanOrder(rows: seq<Row>, schema: set<string>)
    ensures forall x :: x in InferredFields(rows, schema) ==> x in Candidates(rows, schema)
    ensures forall i, j :: 0 <= i < j < |InferredFields(rows, schema)| ==>
              IndexOf(Candidates(rows, schema), InferredFields(rows, schema)[i]) <
              IndexOf(Candidates(rows, schema), InferredFields(rows, schema)[j])
  {
    DedupFirstOccurrence(Candidates(rows, schema));
  }

  /**
   * Rows appended to the collection only add fields at the end: a later
   * repeat does not move an earlier entry.
   */
  lemma InferredFieldsStable(rows: seq<Row>, more: seq<Row>, schema: set<string>)
    ensures InferredFields(rows, schema) <= InferredFields(rows + more, schema)
  {
    CandidatesAppend(rows, more, schema);
    DedupPrefix(Candidates(rows, schema), Candidates(more, schema));
  }

  /**
   * The inferred selection is characterized without reference to how it
   * is computed: it is exactly the duplicate-free listing of the scanned
   * schema keys by first appearance.
   */
  lemma InferredFieldsCharacterized(rows: seq<Row>, schema: set<string>, selection: seq<string>)
    ensures selection == InferredFields(rows, schema) <==>
            ListsByFirstOccurrence(Candidates(rows, schema), selection)
  {
    var c := Candidates(rows, schema);
    DedupSameElements(c);
    DedupDistinct(c);
    DedupFirstOccurrence(c);
    if ListsByFirstOccurrence(c, selection) {
      DedupUnique(c, selection);
    }
  }

  /** An empty collection infers no field. */
  lemma InferredFieldsEmpty(schema: set<string>)
    ensures InferredFields([], schema) == []
  {
  }
}
