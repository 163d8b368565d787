/**
 * Concrete comparisons: small master and monthly tables and what the
 * handler reports for them.
 */
module Scenarios {
  import opened Wrappers
  import opened Tables
  import opened Diff
  import opened Comparison

  function MasterRow(id: string): Row
  {
    [Cell("Property ID", id)]
  }

  function MonthlyRow(id: string): Row
  {
    [Cell("ID", id), Cell("Views", "1")]
  }

  /** Master P1, P2 against monthly P1, P3: only the P3 record is reported. */
  lemma MatchedIdsDropped()
    ensures CompareTables(Table(["Property ID"], [MasterRow("P1"), MasterRow("P2")]),
                          Table(["ID", "Views"], [MonthlyRow("P1"), MonthlyRow("P3")]), false)
            == Found([MonthlyRow("P3")], false)
  {
    var master := Table(["Property ID"], [MasterRow("P1"), MasterRow("P2")]);
    var monthly := Table(["ID", "Views"], [MonthlyRow("P1"), MonthlyRow("P3")]);
    assert MasterCol in master.fields && MonthlyCol in monthly.fields;
    var ids := KeySet(master.rows, MasterCol);
    assert ids == {Some("P1"), Some("P2")} by {
      assert master.rows[1..] == [MasterRow("P2")];
    }
    assert Lookup(MonthlyRow("P1"), MonthlyCol) == Some("P1");
    assert Lookup(MonthlyRow("P3"), MonthlyCol) == Some("P3");
    assert Unmatched(monthly.rows, ids, MonthlyCol) == [MonthlyRow("P3")] by {
      assert monthly.rows[1..] == [MonthlyRow("P3")];
    }
  }

  /** A master header without `Property ID` gives the combined schema error. */
  lemma MasterWithoutKeyColumn()
    ensures CompareTables(Table(["Code"], [[Cell("Code", "P1")]]),
                          Table(["ID"], [[Cell("ID", "P1")]]), false)
            == Failed(SchemaMessage)
  {
    assert "Property ID" !in ["Code"];
  }

  /** A monthly table with a header and no records is reported as having no differences. */
  lemma EmptyMonthly()
    ensures Show(CompareTables(Table(["Property ID"], [MasterRow("P1")]), Table(["ID"], []), false))
            == Screen(Some("No unique property IDs found"), None, None)
  {
    assert MasterCol in ["Property ID"] && MonthlyCol in ["ID"];
  }

  /**
   * No master file: the fetched default (key D1) is used, the D2 record is
   * reported, and the default notice is shown.
   */
  lemma DefaultDatasetUsed()
    ensures var parse := (text: string) =>
              if text == "default" then Table(["Property ID"], [MasterRow("D1")])
              else Table(["ID", "Views"], [MonthlyRow("D1"), MonthlyRow("D2")]);
            var o := OnCompare(Some("monthly"), None, Answered(true, "default"), parse);
            o == Found([MonthlyRow("D2")], true) && Show(o).notice == Some(DefaultNotice)
  {
    var master := Table(["Property ID"], [MasterRow("D1")]);
    var monthly := Table(["ID", "Views"], [MonthlyRow("D1"), MonthlyRow("D2")]);
    assert MasterCol in master.fields && MonthlyCol in monthly.fields;
    var ids := KeySet(master.rows, MasterCol);
    assert ids == {Some("D1")};
    assert Lookup(MonthlyRow("D1"), MonthlyCol) == Some("D1");
    assert Lookup(MonthlyRow("D2"), MonthlyCol) == Some("D2");
    assert Unmatched(monthly.rows, ids, MonthlyCol) == [MonthlyRow("D2")] by {
      assert monthly.rows[1..] == [MonthlyRow("D2")];
    }
  }

  /**
   * A monthly record without an `ID` property is treated as known when some
   * master record lacks `Property ID`: both look up the same missing value.
   */
  lemma MissingKeysMatchEachOther()
    ensures CompareTables(Table(["Property ID"], [MasterRow("P1"), [Cell("Name", "x")]]),
                          Table(["ID"], [[Cell("Views", "3")]]), false)
            == NoDifferences(false)
  {
    var master := Table(["Property ID"], [MasterRow("P1"), [Cell("Name", "x")]]);
    assert MasterCol in master.fields && MonthlyCol in ["ID"];
    assert Lookup([Cell("Views", "3")], MonthlyCol) == None == Lookup(master.rows[1], MasterCol);
  }

  /** 2023 and 2024 are array-index names and ID is not. */
  lemma YearNamesAreIndices()
    ensures IsArrayIndex("2023") && DecimalValue("2023") == 2023
    ensures IsArrayIndex("2024") && DecimalValue("2024") == 2024
    ensures !IsArrayIndex("ID")
  {
    assert DecimalValue("2") == 2 by { assert "2"[..0] == ""; }
    assert DecimalValue("20") == 20 by { assert "20"[..1] == "2"; }
    assert DecimalValue("202") == 202 by { assert "202"[..2] == "20"; }
    assert DecimalValue("2023") == 2023 by { assert "2023"[..3] == "202"; }
    assert DecimalValue("2024") == 2024 by { assert "2024"[..3] == "202"; }
  }

  /** Splitting an other name followed by two array-index names. */
  lemma FilterThree(a: string, b: string, c: string)
    requires IsOtherName(a) && IsArrayIndex(b) && IsArrayIndex(c)
    ensures Filter([a, b, c], IsArrayIndex) == [b, c]
    ensures Filter([a, b, c], IsOtherName) == [a]
  {
    assert [a, b, c][1..] == [b, c] && [b, c][1..] == [c] && [c][1..] == [];
    assert !IsOtherName(b) && !IsOtherName(c) && !IsArrayIndex(a);
    FilterUniform([b, c], IsArrayIndex, true);
    FilterUniform([b, c], IsOtherName, false);
  }

  /** Sorting two names whose numeric values descend swaps them. */
  lemma SortTwo(b: string, c: string)
    requires DecimalValue(c) < DecimalValue(b)
    ensures SortByValue([b, c]) == [c, b]
  {
    assert [b, c][1..] == [c] && [c][1..] == [];
    assert SortByValue([c]) == [c];
    assert Insert(b, [c]) == [c] + Insert(b, []);
  }

  /**
   * A record of three cells, an other name followed by two array-index
   * names in descending order: its keys are the two indices swapped, then
   * the other name.
   */
  lemma KeysOfThree(row: Row)
    requires |row| == 3 && IsOtherName(row[0].name)
    requires IsArrayIndex(row[1].name) && IsArrayIndex(row[2].name)
    requires DecimalValue(row[2].name) < DecimalValue(row[1].name)
    ensures Keys(row) == [row[2].name, row[1].name, row[0].name]
  {
    assert Names(row) == [row[0].name, row[1].name, row[2].name];
    FilterThree(row[0].name, row[1].name, row[2].name);
    SortTwo(row[1].name, row[2].name);
  }

  /** A monthly record whose cells were created in the order ID, 2024, 2023. */
  function YearRow(): Row
  {
    [Cell("ID", "P9"), Cell("2024", "5"), Cell("2023", "7")]
  }

  /**
   * Year-named columns are array-index names: the header row drawn for a
   * record with cells ID, 2024, 2023 (in that order) reads 2023, 2024, ID.
   */
  lemma YearColumnsListedFirst()
    ensures Keys(YearRow()) == ["2023", "2024", "ID"]
  {
    YearNamesAreIndices();
    KeysOfThree(YearRow());
  }
}
