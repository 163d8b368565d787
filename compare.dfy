/**
 * One press of the Compare button: choose the master source, validate the
 * key columns, run the identifier diff and decide what the page shows.
 *
 * Reading files, fetching the bundled dataset and parsing CSV are inputs:
 * a selected file is given as its text, the fetch as the response it got,
 * and the CSV parser as a function from text to a parsed table.
 */
module Comparison {
  import opened Wrappers
  import opened Tables
  import opened Diff
  import opened ResultTable

  const MissingMonthlyMessage: string := "Please upload the monthly analytics."
  const SchemaMessage: string :=
    "The Master CSV must have '" + MasterCol + "', and Monthly CSV must have '" + MonthlyCol + "'"
  const NoUniqueMessage: string := "No unique property IDs found"
  const DefaultNotice: string := "Opted to default Observatory dataset. Data may be outdated."
  const FetchErrorPrefix: string := "Error loading default master CSV: "
  const NotOkReason: string := "Unable to fetch default master CSV"

  /** What the request for the bundled master dataset came back with. */
  datatype Response =
    | Unreachable(reason: string)          // the request or reading its body threw
    | Answered(ok: bool, body: string)     // an HTTP answer; `ok` is its 2xx status flag

  /** What `fetchDefault` gives its caller. */
  datatype FetchOutcome =
    | Loaded(text: string)                 // the body text
    | LoadFailed(message: string)          // null, after this message was shown

  /** What one comparison ends in. */
  datatype Outcome =
    | Failed(message: string)                          // stopped after showing this error
    | Aborted                                          // stopped without showing anything
    | NoDifferences(usingDefault: bool)                // every monthly record matched
    | Found(rows: seq<Row>, usingDefault: bool)        // the unmatched monthly records

  /** The visible state of the page once the comparison is over. */
  datatype Screen = Screen(error: Option<string>, notice: Option<string>, table: Option<seq<seq<string>>>)

  /** `fetchDefault`: the body of a successful answer, or an error message otherwise. */
  function FetchDefault(response: Response): (r: FetchOutcome)
    ensures r.Loaded? <==> response.Answered? && response.ok
    ensures r.Loaded? ==> r.text == response.body
    ensures r.LoadFailed? ==>
              r.message == FetchErrorPrefix + if response.Unreachable? then response.reason else NotOkReason
  {
    match response
    case Unreachable(reason) => LoadFailed(FetchErrorPrefix + reason)
    case Answered(ok, body) =>
      if ok then Loaded(body) else LoadFailed(FetchErrorPrefix + NotOkReason)
  }

  /** `fields.includes(col)` for both required key columns of the parsed headers. */
  function HasKeyColumns(master: Table, monthly: Table): (present: bool)
    ensures present <==> (exists i :: 0 <= i < |master.fields| && master.fields[i] == MasterCol)
                         && (exists j :: 0 <= j < |monthly.fields| && monthly.fields[j] == MonthlyCol)
  {
    MasterCol in master.fields && MonthlyCol in monthly.fields
  }

  /** Some master record's `Property ID` value equals this record's `ID` value. */
  ghost predicate KnownToMaster(master: Table, row: Row)
  {
    exists j :: 0 <= j < |master.rows| && Lookup(master.rows[j], MasterCol) == Lookup(row, MonthlyCol)
  }

  /** The parse-completion callback: validate, diff, and classify the result. */
  function CompareTables(master: Table, monthly: Table, usingDefault: bool): (o: Outcome)
    ensures o == Failed(SchemaMessage) <==> MasterCol !in master.fields || MonthlyCol !in monthly.fields
    ensures o.Failed? || o.NoDifferences? || o.Found?
    ensures o.NoDifferences? || o.Found? ==> o.usingDefault == usingDefault
    ensures o.Found? ==> |o.rows| > 0
  {
    if !HasKeyColumns(master, monthly) then Failed(SchemaMessage)
    else
      var unique := Unmatched(monthly.rows, KeySet(master.rows, MasterCol), MonthlyCol);
      if |unique| > 0 then Found(unique, usingDefault) else NoDifferences(usingDefault)
  }

  /** The click handler, from the monthly file check to the classified result. */
  function OnCompare(monthlyFile: Option<string>, masterFile: Option<string>,
                     response: Response, parse: string -> Table): (o: Outcome)
    ensures monthlyFile.None? ==> o == Failed(MissingMonthlyMessage)
    ensures o.NoDifferences? || o.Found? ==> o.usingDefault == masterFile.None?
    ensures o.Aborted? ==> monthlyFile.Some? && masterFile.None? && response == Answered(true, "")
  {
    if monthlyFile.None? then Failed(MissingMonthlyMessage)
    else if masterFile.Some? then CompareTables(parse(masterFile.value), parse(monthlyFile.value), false)
    else
      match FetchDefault(response)
      case LoadFailed(message) => Failed(message)
      case Loaded(text) =>
        // `if (!masterCsvText) return;` also stops on an empty body, silently.
        if text == "" then Aborted
        else CompareTables(parse(text), parse(monthlyFile.value), true)
  }

  /** The records a finished comparison reports as unmatched (none for the other outcomes). */
  function Reported(o: Outcome): seq<Row>
  {
    if o.Found? then o.rows else []
  }

  /** What the page shows for an outcome; every call starts from a cleared page. */
  function Show(o: Outcome): (screen: Screen)
    ensures screen.error.None? <==> o.Aborted? || o.Found?
    ensures o.Failed? ==> screen.error == Some(o.message)
    ensures o.NoDifferences? ==> screen.error == Some(NoUniqueMessage)
    ensures screen.notice.Some? <==> (o.NoDifferences? || o.Found?) && o.usingDefault
    ensures screen.notice.Some? ==> screen.notice.value == DefaultNotice
    ensures screen.table.Some? <==> o.Found? && |o.rows| > 0
    ensures screen.table.Some? ==> screen.table.value == Projection(o.rows)
  {
    match o
    case Failed(message) => Screen(Some(message), None, None)
    case Aborted => Screen(None, None, None)
    case NoDifferences(usingDefault) =>
      Screen(Some(NoUniqueMessage), if usingDefault then Some(DefaultNotice) else None, None)
    case Found(rows, usingDefault) =>
      Screen(None, if usingDefault then Some(DefaultNotice) else None, if |rows| > 0 then Some(Projection(rows)) else None)
  }

  /** The schema error is one message that names both key columns, whichever is missing. */
  lemma SchemaMessageNamesBoth()
    ensures SchemaMessage[26..26 + |MasterCol|] == MasterCol == "Property ID"
    ensures SchemaMessage[|SchemaMessage| - 1 - |MonthlyCol|..|SchemaMessage| - 1] == MonthlyCol == "ID"
  {
  }

  /**
   * A missing key column in either table shows only the schema error:
   * neither a result nor the default notice.
   */
  lemma SchemaErrorShown(master: Table, monthly: Table, usingDefault: bool)
    ensures !HasKeyColumns(master, monthly) ==>
              Show(CompareTables(master, monthly, usingDefault)) == Screen(Some(SchemaMessage), None, None)
  {
  }

  /**
   * With both key columns present, the reported records are exactly the
   * monthly records whose `ID` value is no master record's `Property ID`
   * value, each as often as it occurs, in monthly order.
   */
  lemma CompareTablesSoundAndComplete(master: Table, monthly: Table, usingDefault: bool)
    requires HasKeyColumns(master, monthly)
    ensures IsSubsequence(Reported(CompareTables(master, monthly, usingDefault)), monthly.rows)
    ensures forall r :: r in Reported(CompareTables(master, monthly, usingDefault))
                        <==> r in monthly.rows && !KnownToMaster(master, r)
    ensures forall r :: multiset(Reported(CompareTables(master, monthly, usingDefault)))[r]
                        == if KnownToMaster(master, r) then 0 else multiset(monthly.rows)[r]
  {
    var ids := KeySet(master.rows, MasterCol);
    var unique := Unmatched(monthly.rows, ids, MonthlyCol);
    assert Reported(CompareTables(master, monthly, usingDefault)) == unique;
    UnmatchedIsSubsequence(monthly.rows, ids, MonthlyCol);
    forall r ensures multiset(unique)[r] == if KnownToMaster(master, r) then 0 else multiset(monthly.rows)[r]
    {
      UnmatchedMultiset(monthly.rows, ids, MonthlyCol, r);
      KnownIffInKeySet(master, r);
    }
    forall r ensures r in unique <==> r in monthly.rows && !KnownToMaster(master, r) {
      UnmatchedMembership(monthly.rows, ids, MonthlyCol, r);
      KnownIffInKeySet(master, r);
    }
  }

  /** Membership in the master key set is the same as being known to the master table. */
  lemma KnownIffInKeySet(master: Table, r: Row)
    ensures Lookup(r, MonthlyCol) in KeySet(master.rows, MasterCol) <==> KnownToMaster(master, r)
  {
    if KnownToMaster(master, r) {
      var j :| 0 <= j < |master.rows| && Lookup(master.rows[j], MasterCol) == Lookup(r, MonthlyCol);
      assert Lookup(master.rows[j], MasterCol) in KeySet(master.rows, MasterCol);
    }
  }

  /**
   * With valid columns, "No unique property IDs found" is reported exactly
   * when every monthly record is known to the master table; in particular
   * for a monthly table without records.  The default notice is shown in
   * both the empty and the non-empty case whenever the default was used.
   */
  lemma NoDifferencesExactly(master: Table, monthly: Table, usingDefault: bool)
    requires HasKeyColumns(master, monthly)
    ensures CompareTables(master, monthly, usingDefault).NoDifferences?
            <==> forall i :: 0 <= i < |monthly.rows| ==> KnownToMaster(master, monthly.rows[i])
    ensures monthly.rows == [] ==> CompareTables(master, monthly, usingDefault) == NoDifferences(usingDefault)
    ensures Show(CompareTables(master, monthly, usingDefault)).error.Some?
            <==> CompareTables(master, monthly, usingDefault).NoDifferences?
    ensures Show(CompareTables(master, monthly, usingDefault)).error.Some? ==>
              Show(CompareTables(master, monthly, usingDefault)).error == Some(NoUniqueMessage)
    ensures Show(CompareTables(master, monthly, usingDefault)).notice
            == if usingDefault then Some(DefaultNotice) else None
  {
    var ids := KeySet(master.rows, MasterCol);
    UnmatchedEmpty(monthly.rows, ids, MonthlyCol);
    forall i | 0 <= i < |monthly.rows| ensures Lookup(monthly.rows[i], MonthlyCol) in ids <==> KnownToMaster(master, monthly.rows[i]) {
      KnownIffInKeySet(master, monthly.rows[i]);
    }
  }

  /**
   * The order of the master records and repeated master records do not
   * matter: tables with the same header and the same records compare alike.
   */
  lemma MasterRecordSetSuffices(m1: Table, m2: Table, monthly: Table, usingDefault: bool)
    requires m1.fields == m2.fields
    requires forall r :: r in m1.rows <==> r in m2.rows
    ensures CompareTables(m1, monthly, usingDefault) == CompareTables(m2, monthly, usingDefault)
  {
    KeySetOfSameRecords(m1.rows, m2.rows, MasterCol);
  }

  /** Without a monthly file only its error is shown, whatever the master sources hold. */
  lemma MissingMonthlyShown(masterFile: Option<string>, response: Response, parse: string -> Table)
    ensures Show(OnCompare(None, masterFile, response, parse)) == Screen(Some(MissingMonthlyMessage), None, None)
  {
  }

  /**
   * Without a master file, a failed fetch stops the comparison after showing
   * the fetch error, and an empty body stops it silently: no result, no notice.
   */
  lemma FailedDefaultStops(monthlyText: string, response: Response, parse: string -> Table)
    requires FetchDefault(response).LoadFailed? || FetchDefault(response) == Loaded("")
    ensures OnCompare(Some(monthlyText), None, response, parse).Failed? ||
            OnCompare(Some(monthlyText), None, response, parse).Aborted?
    ensures OnCompare(Some(monthlyText), None, response, parse).Failed? ==>
              |FetchErrorPrefix| <= |OnCompare(Some(monthlyText), None, response, parse).message| &&
              OnCompare(Some(monthlyText), None, response, parse).message[..|FetchErrorPrefix|] == FetchErrorPrefix
    ensures OnCompare(Some(monthlyText), None, response, parse).Aborted? <==>
              response.Answered? && response.ok && response.body == ""
    ensures Show(OnCompare(Some(monthlyText), None, response, parse)).notice.None? &&
            Show(OnCompare(Some(monthlyText), None, response, parse)).table.None?
    ensures FetchDefault(response).LoadFailed? ==>
              OnCompare(Some(monthlyText), None, response, parse) == Failed(FetchDefault(response).message) &&
              Show(OnCompare(Some(monthlyText), None, response, parse))
              == Screen(Some(FetchDefault(response).message), None, None)
    ensures FetchDefault(response) == Loaded("") ==>
              Show(OnCompare(Some(monthlyText), None, response, parse)) == Screen(None, None, None)
  {
  }

  /**
   * Without a master file, a non-empty body of an ok answer is the master
   * dataset, parsed and compared with the default flag set.
   */
  lemma DefaultMasterUsed(monthlyText: string, body: string, parse: string -> Table)
    requires body != ""
    ensures OnCompare(Some(monthlyText), None, Answered(true, body), parse)
            == CompareTables(parse(body), parse(monthlyText), true)
  {
  }

  /**
   * The default notice appears exactly when the comparison ran on the
   * fetched dataset and got past the column check.
   */
  lemma NoticeExactly(monthlyText: string, masterFile: Option<string>, response: Response, parse: string -> Table)
    ensures Show(OnCompare(Some(monthlyText), masterFile, response, parse)).notice.Some?
            <==> masterFile.None? && response.Answered? && response.ok && response.body != ""
                 && HasKeyColumns(parse(response.body), parse(monthlyText))
  {
  }

  /** The uploaded master file, when there is one, is always the master source. */
  lemma UploadedMasterUsed(monthlyText: string, masterText: string, response: Response, parse: string -> Table)
    ensures OnCompare(Some(monthlyText), Some(masterText), response, parse)
            == CompareTables(parse(masterText), parse(monthlyText), false)
  {
  }
}
