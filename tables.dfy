module Wrappers {

  datatype Option<+T> = None | Some(value: T)
}

/**
 * Parsed CSV tables as the Unique-ID-Checker page's comparison sees them:
 * the output of a header-mode CSV parse, i.e. an ordered field list taken
 * from the header row and one record per data row.
 */
module Tables {
  import opened Wrappers

  /** One property of a parsed record: column name and cell text. */
  datatype Cell = Cell(name: string, value: string)

  /** No column name occurs twice among a record's cells. */
  predicate NamesDistinct(cells: seq<Cell>)
  {
    forall i, j :: 0 <= i < j < |cells| ==> cells[i].name != cells[j].name
  }

  /**
   * A parsed record (a script object keyed by column name).  Its cells are
   * kept in the order the properties were created; an object cannot hold
   * the same key twice.
   */
  type Row = cells: seq<Cell> | NamesDistinct(cells)

  /** A parsed table: the header's field list (duplicates kept as given) and the records. */
  datatype Table = Table(fields: seq<string>, rows: seq<Row>)

  /**
   * `row[name]`: the cell text stored under `name`, or None where the record
   * has no such property (the script's `undefined`).
   */
  function Lookup(cells: seq<Cell>, name: string): (v: Option<string>)
    ensures v.Some? <==> exists i :: 0 <= i < |cells| && cells[i].name == name
    ensures v.Some? ==> exists i :: 0 <= i < |cells| && cells[i] == Cell(name, v.value)
  {
    if cells == [] then None
    else if cells[0].name == name then Some(cells[0].value)
    else Lookup(cells[1..], name)
  }

  /** On a record, each of its column names looks up the text of its own cell. */
  lemma LookupOwnCell(row: Row, i: nat)
    requires i < |row|
    ensures Lookup(row, row[i].name) == Some(row[i].value)
  {
    var k :| 0 <= k < |row| && row[k] == Cell(row[i].name, Lookup(row, row[i].name).value);
    assert k == i;
  }

  /** `a` is `b` with some elements deleted: the rest keep their relative order. */
  ghost predicate IsSubsequence<T>(a: seq<T>, b: seq<T>)
    decreases |b|
  {
    if a == [] then true
    else if b == [] then false
    else (a[0] == b[0] && IsSubsequence(a[1..], b[1..])) || IsSubsequence(a, b[1..])
  }

  /** The column names of the cells, in the order the properties were created. */
  function Names(cells: seq<Cell>): (names: seq<string>)
    ensures |names| == |cells|
    ensures forall i :: 0 <= i < |cells| ==> names[i] == cells[i].name
  {
    seq(|cells|, i requires 0 <= i < |cells| => cells[i].name)
  }

  /** The number a string of decimal digits denotes. */
  function DecimalValue(s: string): int
  {
    if s == [] then 0 else DecimalValue(s[..|s| - 1]) * 10 + (s[|s| - 1] as int - '0' as int)
  }

  /**
   * A property name that is an array index: the canonical decimal form
   * (no leading zero) of an integer from 0 to 2^32 - 2.
   */
  predicate IsArrayIndex(name: string)
  {
    && |name| > 0
    && (forall i :: 0 <= i < |name| ==> '0' <= name[i] <= '9')
    && (name[0] == '0' ==> |name| == 1)
    && DecimalValue(name) < 0xFFFF_FFFF
  }

  /** Any other property name. */
  predicate IsOtherName(name: string)
  {
    !IsArrayIndex(name)
  }

  /** The names that satisfy `keep`, in their order. */
  function Filter(names: seq<string>, keep: string -> bool): seq<string>
  {
    if names == [] then []
    else (if keep(names[0]) then [names[0]] else []) + Filter(names[1..], keep)
  }

  /** A filter keeps each name satisfying `keep` as often as it occurs, and no other name. */
  lemma {:induction false} FilterMultiset(names: seq<string>, keep: string -> bool, k: string)
    ensures multiset(Filter(names, keep))[k] == if keep(k) then multiset(names)[k] else 0
  {
    if names != [] {
      FilterMultiset(names[1..], keep, k);
      assert names == [names[0]] + names[1..];
    }
  }

  /** The array-index names and the other names together are all the names. */
  lemma {:induction false} FilterSplits(names: seq<string>)
    ensures multiset(names) == multiset(Filter(names, IsArrayIndex)) + multiset(Filter(names, IsOtherName))
  {
    if names != [] {
      FilterSplits(names[1..]);
      assert names == [names[0]] + names[1..];
    }
  }

  /** Numeric values never decrease along the sequence. */
  predicate Ascending(s: seq<string>)
  {
    forall i, j :: 0 <= i < j < |s| ==> DecimalValue(s[i]) <= DecimalValue(s[j])
  }

  function Insert(x: string, s: seq<string>): (r: seq<string>)
    ensures multiset(r) == multiset(s) + multiset{x}
  {
    if s == [] then [x]
    else if DecimalValue(x) <= DecimalValue(s[0]) then [x] + s
    else
      assert s == [s[0]] + s[1..];
      [s[0]] + Insert(x, s[1..])
  }

  /** The names sorted by their numeric value. */
  function SortByValue(s: seq<string>): (r: seq<string>)
    ensures multiset(r) == multiset(s)
  {
    if s == [] then []
    else
      assert s == [s[0]] + s[1..];
      Insert(s[0], SortByValue(s[1..]))
  }

  lemma {:induction false} InsertAscending(x: string, s: seq<string>)
    requires Ascending(s)
    ensures Ascending(Insert(x, s))
  {
    if s != [] && DecimalValue(x) > DecimalValue(s[0]) {
      var rest := Insert(x, s[1..]);
      InsertAscending(x, s[1..]);
      forall j | 0 <= j < |rest| ensures DecimalValue(s[0]) <= DecimalValue(rest[j]) {
        assert rest[j] in multiset(rest);
        if rest[j] != x {
          assert rest[j] in s[1..];
        }
      }
    }
  }

  lemma {:induction false} SortByValueAscending(s: seq<string>)
    ensures Ascending(SortByValue(s))
  {
    if s != [] {
      SortByValueAscending(s[1..]);
      InsertAscending(s[0], SortByValue(s[1..]));
    }
  }

  /**
   * `Object.keys(row)`: every column name of the record once.  Names that
   * are array indices come first, in ascending numeric order; the others
   * follow in the order the properties were created.
   */
  function Keys(row: Row): seq<string>
  {
    SortByValue(Filter(Names(row), IsArrayIndex)) + Filter(Names(row), IsOtherName)
  }

  /** `Object.keys(row)` lists every column name of the record exactly once. */
  lemma KeysPermutation(row: Row)
    ensures |Keys(row)| == |row|
    ensures multiset(Keys(row)) == multiset(Names(row))
  {
    FilterSplits(Names(row));
  }

  lemma {:induction false} FilterAppend(a: seq<string>, b: seq<string>, keep: string -> bool)
    ensures Filter(a + b, keep) == Filter(a, keep) + Filter(b, keep)
  {
    if a == [] {
      assert a + b == b;
    } else {
      assert (a + b)[0] == a[0] && (a + b)[1..] == a[1..] + b;
      FilterAppend(a[1..], b, keep);
      var head := if keep(a[0]) then [a[0]] else [];
      assert Filter(a + b, keep) == head + Filter(a[1..] + b, keep);
      assert Filter(a, keep) == head + Filter(a[1..], keep);
      assert head + (Filter(a[1..], keep) + Filter(b, keep)) == (head + Filter(a[1..], keep)) + Filter(b, keep);
    }
  }

  /** A filter keeps every name when all satisfy `keep`, and none when none do. */
  lemma {:induction false} FilterUniform(s: seq<string>, keep: string -> bool, all: bool)
    requires forall i :: 0 <= i < |s| ==> keep(s[i]) == all
    ensures Filter(s, keep) == if all then s else []
  {
    if s != [] {
      FilterUniform(s[1..], keep, all);
      assert s == [s[0]] + s[1..];
    }
  }

  /** The two parts of `Keys`: the array-index names, sorted, then the other names. */
  lemma KeysParts(row: Row)
    ensures var sorted := SortByValue(Filter(Names(row), IsArrayIndex));
            && Keys(row) == sorted + Filter(Names(row), IsOtherName)
            && Ascending(sorted)
            && (forall i :: 0 <= i < |sorted| ==> IsArrayIndex(sorted[i]))
            && (forall i :: 0 <= i < |Filter(Names(row), IsOtherName)| ==>
                  IsOtherName(Filter(Names(row), IsOtherName)[i]))
  {
    var sorted := SortByValue(Filter(Names(row), IsArrayIndex));
    var others := Filter(Names(row), IsOtherName);
    SortByValueAscending(Filter(Names(row), IsArrayIndex));
    forall i | 0 <= i < |sorted| ensures IsArrayIndex(sorted[i]) {
      assert sorted[i] in multiset(sorted);
      FilterMultiset(Names(row), IsArrayIndex, sorted[i]);
    }
    forall i | 0 <= i < |others| ensures IsOtherName(others[i]) {
      assert others[i] in multiset(others);
      FilterMultiset(Names(row), IsOtherName, others[i]);
    }
  }

  /**
   * The order of `Object.keys`, first part: every array-index name precedes
   * every other name, and the array-index names ascend.
   */
  lemma KeysIndexNamesFirst(row: Row)
    ensures forall i, j :: 0 <= i < j < |Keys(row)| && IsArrayIndex(Keys(row)[j]) ==>
              IsArrayIndex(Keys(row)[i]) && DecimalValue(Keys(row)[i]) <= DecimalValue(Keys(row)[j])
  {
    KeysParts(row);
    var sorted := SortByValue(Filter(Names(row), IsArrayIndex));
    var others := Filter(Names(row), IsOtherName);
    var ks := Keys(row);
    forall i, j | 0 <= i < j < |ks| && IsArrayIndex(ks[j])
      ensures IsArrayIndex(ks[i]) && DecimalValue(ks[i]) <= DecimalValue(ks[j])
    {
      assert ks[i] == sorted[i] && ks[j] == sorted[j];
    }
  }

  /**
   * The order of `Object.keys`, second part: the names that are not array
   * indices keep the order of the record's cells.
   */
  lemma KeysOtherNamesInOrder(row: Row)
    ensures Filter(Keys(row), IsOtherName) == Filter(Names(row), IsOtherName)
  {
    KeysParts(row);
    var sorted := SortByValue(Filter(Names(row), IsArrayIndex));
    var others := Filter(Names(row), IsOtherName);
    FilterAppend(sorted, others, IsOtherName);
    FilterUniform(sorted, IsOtherName, false);
    FilterUniform(others, IsOtherName, true);
  }
}
