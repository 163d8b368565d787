/**
 * The identifier diff: the set of master key values and the filter of the
 * monthly records whose key value is not in that set.
 */
module Diff {
  import opened Wrappers
  import opened Tables

  /** The key column the master table must have. */
  const MasterCol: string := "Property ID"

  /** The key column the monthly table must have. */
  const MonthlyCol: string := "ID"

  /**
   * `new Set(rows.map(row => row[col]))`: every record's value under `col`,
   * duplicates collapsed; a record without the column contributes None.
   */
  function KeySet(rows: seq<Row>, col: string): (ids: set<Option<string>>)
    ensures forall i :: 0 <= i < |rows| ==> Lookup(rows[i], col) in ids
    ensures forall k :: k in ids ==> exists i :: 0 <= i < |rows| && Lookup(rows[i], col) == k
  {
    if rows == [] then {}
    else {Lookup(rows[0], col)} + KeySet(rows[1..], col)
  }

  /** `rows.filter(row => !ids.has(row[col]))`. */
  function Unmatched(rows: seq<Row>, ids: set<Option<string>>, col: string): (kept: seq<Row>)
    ensures |kept| <= |rows|
    ensures forall j :: 0 <= j < |kept| ==> Lookup(kept[j], col) !in ids
  {
    if rows == [] then []
    else (if Lookup(rows[0], col) in ids then [] else [rows[0]]) + Unmatched(rows[1..], ids, col)
  }

  /** The filter keeps records in the order the monthly table has them. */
  lemma {:induction false} UnmatchedIsSubsequence(rows: seq<Row>, ids: set<Option<string>>, col: string)
    ensures IsSubsequence(Unmatched(rows, ids, col), rows)
  {
    if rows != [] {
      var rest := Unmatched(rows[1..], ids, col);
      UnmatchedIsSubsequence(rows[1..], ids, col);
      if Lookup(rows[0], col) in ids {
        assert Unmatched(rows, ids, col) == rest;
      } else {
        var kept := Unmatched(rows, ids, col);
        assert kept[0] == rows[0] && kept[1..] == rest;
      }
    }
  }

  /**
   * Exact contents of the filter, with multiplicities: a record whose key is
   * in `ids` is never kept, any other record is kept as often as it occurs.
   */
  lemma {:induction false} UnmatchedMultiset(rows: seq<Row>, ids: set<Option<string>>, col: string, r: Row)
    ensures multiset(Unmatched(rows, ids, col))[r] ==
            if Lookup(r, col) in ids then 0 else multiset(rows)[r]
  {
    if rows != [] {
      UnmatchedMultiset(rows[1..], ids, col, r);
      assert rows == [rows[0]] + rows[1..];
      var rest := Unmatched(rows[1..], ids, col);
      if Lookup(rows[0], col) in ids {
        assert Unmatched(rows, ids, col) == rest;
      } else {
        assert Unmatched(rows, ids, col) == [rows[0]] + rest;
      }
    }
  }

  /** Soundness and completeness together: membership in the result. */
  lemma UnmatchedMembership(rows: seq<Row>, ids: set<Option<string>>, col: string, r: Row)
    ensures r in Unmatched(rows, ids, col) <==> r in rows && Lookup(r, col) !in ids
  {
    UnmatchedMultiset(rows, ids, col, r);
  }

  /** Completeness: every monthly record whose key is not in `ids` is returned. */
  lemma UnmatchedComplete(rows: seq<Row>, ids: set<Option<string>>, col: string)
    ensures forall i :: 0 <= i < |rows| && Lookup(rows[i], col) !in ids ==> rows[i] in Unmatched(rows, ids, col)
  {
    forall i | 0 <= i < |rows| && Lookup(rows[i], col) !in ids
      ensures rows[i] in Unmatched(rows, ids, col)
    {
      UnmatchedMembership(rows, ids, col, rows[i]);
    }
  }

  /** Nothing is returned exactly when every record's key is in `ids`. */
  lemma {:induction false} UnmatchedEmpty(rows: seq<Row>, ids: set<Option<string>>, col: string)
    ensures Unmatched(rows, ids, col) == [] <==> forall i :: 0 <= i < |rows| ==> Lookup(rows[i], col) in ids
  {
    if rows != [] {
      UnmatchedEmpty(rows[1..], ids, col);
      assert forall i :: 1 <= i < |rows| ==> rows[i] == rows[1..][i - 1];
    }
  }

  /**
   * The key set depends only on which records the table holds: reordering
   * the records, or repeating some of them, gives the same set.
   */
  lemma KeySetOfSameRecords(a: seq<Row>, b: seq<Row>, col: string)
    requires forall r :: r in a <==> r in b
    ensures KeySet(a, col) == KeySet(b, col)
  {
    forall k | k in KeySet(a, col) ensures k in KeySet(b, col) {
      var i :| 0 <= i < |a| && Lookup(a[i], col) == k;
      assert a[i] in b;
      var j :| 0 <= j < |b| && b[j] == a[i];
      assert Lookup(b[j], col) in KeySet(b, col);
    }
    forall k | k in KeySet(b, col) ensures k in KeySet(a, col) {
      var j :| 0 <= j < |b| && Lookup(b[j], col) == k;
      assert b[j] in a;
      var i :| 0 <= i < |a| && a[i] == b[j];
      assert Lookup(a[i], col) in KeySet(a, col);
    }
  }
}
