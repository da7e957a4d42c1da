/**
 * Concrete exports: a flattener writing the columns "name" and "age" from each object, over
 * the roots used by the package's own examples.
 */
module CsvScenarios {
  import opened Wrappers
  import opened DynamicValues
  import opened CsvExport
  import Text

  /** `d.Col("name", s.Key("name")); d.Col("age", s.Key("age"))`. */
  function NameAge(s: Source): seq<ColCall>
  {
    [ColCall("name", SourceKey(s, ["name"]), None), ColCall("age", SourceKey(s, ["age"]), None)]
  }

  function Person(name: string, age: real): map<string, Raw>
  {
    map["name" := RString(name), "age" := RFloat(age)]
  }

  lemma PersonFields(name: string, age: real)
    ensures "name" in Person(name, age) && Person(name, age)["name"] == RString(name)
    ensures "age" in Person(name, age) && Person(name, age)["age"] == RFloat(age)
  {
  }

  /** The row `NameAge` builds from one object. */
  lemma NameAgeRow(m: map<string, Raw>, withHeaders: bool)
    ensures ApplyCalls(NewRowState(withHeaders), NameAge(Source(NewDynamicValue(RMap(m)), None))) ==
      RowState(map["name" := Source(RootKey(Value(RMap(m)), "name"), None),
                   "age" := Source(RootKey(Value(RMap(m)), "age"), None)],
               if withHeaders then ["name", "age"] else [],
               withHeaders)
  {
    var calls := NameAge(Source(NewDynamicValue(RMap(m)), None));
    assert calls[..1] == [calls[0]] && calls[..1][..0] == [];
  }

  /** The data record of such a row under the headers "name", "age". */
  lemma NameAgeRecord(m: map<string, Raw>, withHeaders: bool, c: Codecs)
    requires "name" in m && m["name"].RString?
    requires "age" in m ==> m["age"].RFloat?
    ensures RenderFields(ApplyCalls(NewRowState(withHeaders), NameAge(Source(NewDynamicValue(RMap(m)), None))).values,
                         ["name", "age"], c) ==
      Returned([m["name"].s, if "age" in m then c.formatG(m["age"].f) else ""])
  {
    var vals := ApplyCalls(NewRowState(withHeaders), NameAge(Source(NewDynamicValue(RMap(m)), None))).values;
    var name := RootKey(Value(RMap(m)), "name");
    var ageValue := RootKey(Value(RMap(m)), "age");
    assert vals == map["name" := Source(name, None), "age" := Source(ageValue, None)] by {
      NameAgeRow(m, withHeaders);
    }
    var age := if "age" in m then c.formatG(m["age"].f) else "";
    assert StrVal(name, c) == Rendered(m["name"].s, None) by {
      assert name == Value(m["name"]);
    }
    assert StrVal(ageValue, c) == Rendered(age, None) by {
      if "age" in m {
        assert ageValue == Value(m["age"]);
      } else {
        assert ageValue == DynamicValueNull;
      }
    }
    assert FieldOf(vals, "name", c) == Returned(m["name"].s);
    assert FieldOf(vals, "age", c) == Returned(age);
    RenderTwoFields(vals, "name", "age", c);
  }

  /** A record of two headers whose fields both render. */
  lemma RenderTwoFields(values: map<string, Source>, h1: string, h2: string, c: Codecs)
    requires FieldOf(values, h1, c).Returned? && FieldOf(values, h2, c).Returned?
    ensures RenderFields(values, [h1, h2], c) == Returned([FieldOf(values, h1, c).value, FieldOf(values, h2, c).value])
  {
    var hs := [h1, h2];
    assert hs[0] == h1 && hs[1..] == [h2];
    var tail := [h2];
    assert tail[0] == h2 && tail[1..] == [];
    assert RenderFields(values, [], c) == Returned([]);
    assert [FieldOf(values, h2, c).value] + [] == [FieldOf(values, h2, c).value];
    assert RenderFields(values, tail, c) == Returned([FieldOf(values, h2, c).value]);
    assert [FieldOf(values, h1, c).value] + [FieldOf(values, h2, c).value] ==
      [FieldOf(values, h1, c).value, FieldOf(values, h2, c).value];
  }

  /** Two records, as text. */
  lemma EncodeTwo(a: string, b: string, x: string, y: string)
    ensures Encode([[a, b], [x, y]]) == a + "," + b + "\n" + x + "," + y + "\n"
  {
    EncodePair(a, b);
    EncodePair(x, y);
    var recs := [[a, b], [x, y]];
    var parts := seq(|recs|, i requires 0 <= i < |recs| => EncodeRecord(recs[i]));
    assert parts == [EncodeRecord([a, b]), EncodeRecord([x, y])];
    assert parts[1..] == [EncodeRecord([x, y])] && parts[1..][1..] == [];
    assert Text.Concat(parts[1..]) == EncodeRecord([x, y]) + "";
    assert EncodeRecord([x, y]) + "" == EncodeRecord([x, y]);
  }

  /** Three records, as text. */
  lemma EncodeThree(a: string, b: string, x: string, y: string, u: string, v: string)
    ensures Encode([[a, b], [x, y], [u, v]]) ==
      a + "," + b + "\n" + x + "," + y + "\n" + u + "," + v + "\n"
  {
    EncodePair(a, b);
    EncodePair(x, y);
    EncodePair(u, v);
    var recs := [[a, b], [x, y], [u, v]];
    var parts := seq(|recs|, i requires 0 <= i < |recs| => EncodeRecord(recs[i]));
    assert parts == [EncodeRecord([a, b]), EncodeRecord([x, y]), EncodeRecord([u, v])];
    assert parts[1..] == [EncodeRecord([x, y]), EncodeRecord([u, v])];
    assert parts[1..][1..] == [EncodeRecord([u, v])] && parts[1..][1..][1..] == [];
    assert Text.Concat(parts[1..][1..]) == EncodeRecord([u, v]) + "";
    assert EncodeRecord([u, v]) + "" == EncodeRecord([u, v]);
    assert Text.Concat(parts[1..]) == EncodeRecord([x, y]) + EncodeRecord([u, v]);
    assert Text.Concat(parts) == EncodeRecord([a, b]) + (EncodeRecord([x, y]) + EncodeRecord([u, v]));
  }

  lemma EncodePair(a: string, b: string)
    ensures EncodeRecord([a, b]) == a + "," + b + "\n"
  {
    var fields := [a, b];
    assert fields[1..] == [b];
    assert Text.Join([b], ",") == b;
    assert Text.Join(fields, ",") == a + "," + Text.Join([b], ",");
  }

  /** An export of one row with headers, where nothing fails. */
  lemma OneRowRun(cs: Csv, r0: RowState, fields: seq<string>, accepts: nat, writeError: Error, c: Codecs)
    requires cs.DataCsv? && GenerateRows(cs) == [r0] && RootSources(cs.rootData).decodeFailure == None
    requires r0.withHeaders && RenderFields(r0.values, r0.headers, c) == Returned(fields) && accepts >= 2
    ensures ExportSpec(cs, [], accepts, writeError, None, c) == Run([r0.headers, fields], Exported)
  {
    assert EmitRow(r0, [], [], accepts, writeError, c) == Step(r0.headers, Progress([r0.headers, fields], None));
    assert [r0][1..] == [];
    assert EmitRows([r0], [], [], accepts, writeError, c) == Progress([r0.headers, fields], None);
  }

  /** An export of a row with headers and one without, where nothing fails. */
  lemma TwoRowRun(cs: Csv, r0: RowState, r1: RowState, f0: seq<string>, f1: seq<string>,
                  accepts: nat, writeError: Error, c: Codecs)
    requires cs.DataCsv? && GenerateRows(cs) == [r0, r1] && RootSources(cs.rootData).decodeFailure == None
    requires r0.withHeaders && !r1.withHeaders && accepts >= 3
    requires RenderFields(r0.values, r0.headers, c) == Returned(f0) && RenderFields(r1.values, r0.headers, c) == Returned(f1)
    ensures ExportSpec(cs, [], accepts, writeError, None, c) == Run([r0.headers, f0, f1], Exported)
  {
    var hs := r0.headers;
    assert EmitRow(r0, [], [], accepts, writeError, c) == Step(hs, Progress([hs, f0], None));
    assert EmitRow(r1, hs, [hs, f0], accepts, writeError, c) == Step(hs, Progress([hs, f0, f1], None));
    assert [r0, r1][1..] == [r1] && [r1][1..] == [];
    assert EmitRows([r1], hs, [hs, f0], accepts, writeError, c) == Progress([hs, f0, f1], None);
  }

  /** A single object: its headers, then its fields ("" where the age is missing). */
  lemma ExportOneObject(m: map<string, Raw>, accepts: nat, writeError: Error, c: Codecs)
    requires "name" in m && m["name"].RString? && ("age" in m ==> m["age"].RFloat?)
    requires accepts >= 2
    ensures ExportSpec(NewCsv(NewDynamicValue(RMap(m)), NameAge), [], accepts, writeError, None, c)
         == Run([["name", "age"], [m["name"].s, if "age" in m then c.formatG(m["age"].f) else ""]], Exported)
  {
    var cs := NewCsv(NewDynamicValue(RMap(m)), NameAge);
    var r0 := ApplyCalls(NewRowState(true), NameAge(Source(NewDynamicValue(RMap(m)), None)));
    NameAgeRow(m, true);
    NameAgeRecord(m, true, c);
    ObjectRootGivesOneRow(m, NameAge);
    OneRowRun(cs, r0, [m["name"].s, if "age" in m then c.formatG(m["age"].f) else ""], accepts, writeError, c);
  }

  /** A single object: `name,age` then `John,30` (the package's "simple export" example). */
  lemma SimpleExport(accepts: nat, writeError: Error, c: Codecs)
    requires c.formatG(30.0) == "30" && accepts >= 2
    ensures ExportSpec(NewCsv(NewDynamicValue(RMap(Person("John", 30.0))), NameAge), [], accepts, writeError, None, c)
         == Run([["name", "age"], ["John", "30"]], Exported)
  {
    PersonFields("John", 30.0);
    ExportOneObject(Person("John", 30.0), accepts, writeError, c);
  }

  /** The text the "simple export" records make. */
  lemma SimpleExportText()
    ensures Encode([["name", "age"], ["John", "30"]]) == "name,age\nJohn,30\n"
  {
    EncodeTwo("name", "age", "John", "30");
  }

  /** Rows from an array of two objects, the second without headers. */
  lemma ExportTwoObjects(m0: map<string, Raw>, m1: map<string, Raw>, accepts: nat, writeError: Error, c: Codecs)
    requires "name" in m0 && m0["name"].RString? && ("age" in m0 ==> m0["age"].RFloat?)
    requires "name" in m1 && m1["name"].RString? && ("age" in m1 ==> m1["age"].RFloat?)
    requires accepts >= 3
    ensures ExportSpec(NewCsv(NewDynamicValue(RSliceOfMaps([m0, m1])), NameAge), [], accepts, writeError, None, c)
         == Run([["name", "age"],
                 [m0["name"].s, if "age" in m0 then c.formatG(m0["age"].f) else ""],
                 [m1["name"].s, if "age" in m1 then c.formatG(m1["age"].f) else ""]], Exported)
  {
    var maps := [m0, m1];
    var cs := NewCsv(NewDynamicValue(RSliceOfMaps(maps)), NameAge);
    ObjectArrayRootGivesRowPerObject(maps, NameAge);
    var r0 := ApplyCalls(NewRowState(true), NameAge(Source(NewDynamicValue(RMap(m0)), None)));
    var r1 := ApplyCalls(NewRowState(false), NameAge(Source(NewDynamicValue(RMap(m1)), None)));
    NameAgeRow(m0, true);
    NameAgeRow(m1, false);
    NameAgeRecord(m0, true, c);
    NameAgeRecord(m1, false, c);
    assert GenerateRows(cs) == [r0, r1];
    TwoRowRun(cs, r0, r1, [m0["name"].s, if "age" in m0 then c.formatG(m0["age"].f) else ""],
              [m1["name"].s, if "age" in m1 then c.formatG(m1["age"].f) else ""], accepts, writeError, c);
  }

  /** An array of objects: one record per object, headers once (the "multiple rows" example). */
  lemma MultipleRowsExport(accepts: nat, writeError: Error, c: Codecs)
    requires c.formatG(30.0) == "30" && c.formatG(25.0) == "25" && accepts >= 3
    ensures ExportSpec(NewCsv(NewDynamicValue(RSliceOfMaps([Person("John", 30.0), Person("Jane", 25.0)])), NameAge),
                       [], accepts, writeError, None, c)
         == Run([["name", "age"], ["John", "30"], ["Jane", "25"]], Exported)
  {
    PersonFields("John", 30.0);
    PersonFields("Jane", 25.0);
    ExportTwoObjects(Person("John", 30.0), Person("Jane", 25.0), accepts, writeError, c);
  }

  /** A missing column renders as an empty field (the "missing values" example). */
  lemma MissingValueExport(accepts: nat, writeError: Error, c: Codecs)
    requires c.formatG(30.0) == "30" && accepts >= 3
    ensures ExportSpec(NewCsv(NewDynamicValue(RSliceOfMaps([Person("John", 30.0), map["name" := RString("Jane")]])), NameAge),
                       [], accepts, writeError, None, c)
         == Run([["name", "age"], ["John", "30"], ["Jane", ""]], Exported)
  {
    PersonFields("John", 30.0);
    var jane := map["name" := RString("Jane")];
    assert "name" in jane && jane["name"] == RString("Jane") && "age" !in jane;
    ExportTwoObjects(Person("John", 30.0), jane, accepts, writeError, c);
  }

  /** The text the "multiple rows" records make. */
  lemma MultipleRowsText()
    ensures Encode([["name", "age"], ["John", "30"], ["Jane", "25"]]) == "name,age\nJohn,30\nJane,25\n"
  {
    EncodeThree("name", "age", "John", "30", "Jane", "25");
  }

  /** An error CSV writes nothing and fails (the "error CSV" example). */
  lemma ErrorExport(accepts: nat, writeError: Error, c: Codecs)
    ensures ExportSpec(NewErrorCsv(Leaf("test error")), [], accepts, writeError, None, c).records == []
    ensures ExportSpec(NewErrorCsv(Leaf("test error")), [], accepts, writeError, None, c).outcome.ExportFailed?
  {
  }

  /**
   * A stream that fails to decode after one object: that object's rows are handed to the CSV
   * writer, then the export waits forever and the writer is never flushed, so nothing is known
   * to reach the destination.
   */
  lemma StreamDecodeFailureBlocks(accepts: nat, writeError: Error, c: Codecs, e: Error)
    requires c.formatG(30.0) == "30" && accepts >= 2
    ensures ExportSpec(NewCsv(StreamJSONFromReader("*strings.Reader", StreamInput([Person("John", 30.0)], Some(e))), NameAge),
                       [], accepts, writeError, None, c)
         == Run([["name", "age"], ["John", "30"]], Blocked)
  {
    var m := Person("John", 30.0);
    var input := StreamInput([m], Some(e));
    var cs := NewCsv(StreamJSONFromReader("*strings.Reader", input), NameAge);
    StreamRootGivesRowPerObject("*strings.Reader", input, NameAge);
    var r0 := ApplyCalls(NewRowState(true), NameAge(Source(NewDynamicValue(RMap(m)), None)));
    NameAgeRow(m, true);
    NameAgeRecord(m, true, c);
    assert GenerateRows(cs) == [r0];
    assert EmitRow(r0, [], [], accepts, writeError, c) ==
      Step(["name", "age"], Progress([["name", "age"], ["John", "30"]], None));
    assert [r0][1..] == [];
    assert EmitRows([r0], [], [], accepts, writeError, c) == Progress([["name", "age"], ["John", "30"]], None);
  }
}
