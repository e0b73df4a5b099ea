/** The report of a schema-sync pull request, recomputed against the main branch. */
module CumulativeReports {
  import opened Wrappers
  import opened Ordering
  import opened Sorting
  import opened Models
  import opened SchemaSummary
  import opened SyncReports

  datatype CumulativeError = NoCumulativeChange | CumulativeRejected

  /** The paths with the prefix, in order. */
  function WithPrefix(paths: seq<string>, prefix: string): seq<string> {
    if paths == [] then []
    else WithPrefix(paths[..|paths| - 1], prefix) + if prefix <= paths[|paths| - 1] then [paths[|paths| - 1]] else []
  }

  lemma {:induction false} WithPrefixSorted(paths: seq<string>, prefix: string)
    requires StrictlySorted(paths)
    ensures StrictlySorted(WithPrefix(paths, prefix)) && forall p :: p in WithPrefix(paths, prefix) ==> p in paths
    decreases |paths|
  {
    if paths != [] {
      hide StrLess;
      var init, last := paths[..|paths| - 1], paths[|paths| - 1];
      WithPrefixSorted(init, prefix);
      var r := WithPrefix(init, prefix);
      forall i | 0 <= i < |r| ensures StrLess(r[i], last) {
        assert r[i] in init;
        var k :| 0 <= k < |init| && init[k] == r[i];
        assert paths[k] == r[i];
      }
    }
  }

  function CumulativeDatabase(d: DatabaseReport, baseline: map<string, DatabaseSchema>, current: map<string, DatabaseSchema>,
                              rawPaths: seq<string>, repr: Repr): DatabaseReport
    requires d.key in baseline && d.key in current
  {
    DatabaseReportOf(d.key, d.clickhouseDatabase, SummaryOf(baseline[d.key], current[d.key], Some(d.key), repr),
                     WithPrefix(rawPaths, "catalog/" + d.key + "/generated/raw/"))
  }

  function CumulativeDatabases(latest: seq<DatabaseReport>, baseline: map<string, DatabaseSchema>,
                               current: map<string, DatabaseSchema>, rawPaths: seq<string>, repr: Repr): (reports: seq<DatabaseReport>)
    requires forall d :: d in latest ==> d.key in baseline && d.key in current
    ensures |reports| == |latest|
    ensures forall i :: 0 <= i < |latest| ==>
              latest[i].key in baseline && latest[i].key in current
              && reports[i] == CumulativeDatabase(latest[i], baseline, current, rawPaths, repr)
  {
    seq(|latest|, i requires 0 <= i < |latest| && latest[i].key in baseline && latest[i].key in current =>
          CumulativeDatabase(latest[i], baseline, current, rawPaths, repr))
  }

  predicate AnyReported(databases: seq<DatabaseReport>) {
    exists d :: d in databases && d.HasChanges()
  }

  function Cumulative(latest: Report, baseline: map<string, DatabaseSchema>, current: map<string, DatabaseSchema>,
                      paths: seq<string>, repr: Repr): Report
    requires forall d :: d in latest.databases ==> d.key in baseline && d.key in current
  {
    Report(latest.runId, if latest.manualCleanup != [] then ManualCleanupRequired else Changed,
           CumulativeDatabases(latest.databases, baseline, current, SortedSet(Elements(paths)), repr),
           latest.warnings, latest.manualCleanup)
  }

  method BuildCumulativeReport(latest: Report, baseline: map<string, DatabaseSchema>, current: map<string, DatabaseSchema>,
                               paths: seq<string>, repr: Repr) returns (r: Result<Report, CumulativeError>)
    requires forall d :: d in latest.databases ==> d.key in baseline && d.key in current
    ensures var report := Cumulative(latest, baseline, current, paths, repr);
            r == if !AnyReported(report.databases) then Err(NoCumulativeChange)
                 else if report.Valid() then Ok(report) else Err(CumulativeRejected)
  {
    hide SummaryOf, SortedSet, SortedUnique, WithPrefix;
    var rawPaths := SortedSet(Elements(paths));
    var databases: seq<DatabaseReport> := [];
    for i := 0 to |latest.databases|
      invariant |databases| == i
      invariant forall k :: 0 <= k < i ==>
                  latest.databases[k] in latest.databases
                  && databases[k] == CumulativeDatabase(latest.databases[k], baseline, current, rawPaths, repr)
    {
      var d := latest.databases[i];
      assert d in latest.databases;
      var summary := SummarizeSchemaChange(baseline[d.key], current[d.key], Some(d.key), repr);
      databases := databases + [DatabaseReportOf(d.key, d.clickhouseDatabase, summary,
                                                 WithPrefix(rawPaths, "catalog/" + d.key + "/generated/raw/"))];
    }
    assert databases == CumulativeDatabases(latest.databases, baseline, current, rawPaths, repr);
    if !AnyReported(databases) {
      return Err(NoCumulativeChange);
    }
    var report := Report(latest.runId, if latest.manualCleanup != [] then ManualCleanupRequired else Changed,
                         databases, latest.warnings, latest.manualCleanup);
    return if report.Valid() then Ok(report) else Err(CumulativeRejected);
  }

  /**
   * A cumulative report built from a valid one and not refused for lack of changes is accepted exactly when,
   * in every database, no affected table name overtakes another.
   */
  lemma CumulativeAcceptedExactly(latest: Report, baseline: map<string, DatabaseSchema>, current: map<string, DatabaseSchema>,
                                  paths: seq<string>, repr: Repr)
    requires forall d :: d in latest.databases ==> d.key in baseline && d.key in current
    requires latest.Valid() && AnyReported(Cumulative(latest, baseline, current, paths, repr).databases)
    ensures Cumulative(latest, baseline, current, paths, repr).Valid() <==>
              forall d :: d in latest.databases ==> NamesKeepOrder(SortedSet(Affected(baseline[d.key], current[d.key], repr)))
  {
    hide SummaryOf, SortedSet, SortedUnique, WithPrefix, Affected, NamesKeepOrder;
    var rawPaths := SortedSet(Elements(paths));
    var reports := CumulativeDatabases(latest.databases, baseline, current, rawPaths, repr);
    assert Keys(reports) == Keys(latest.databases);
    forall i | 0 <= i < |reports|
      ensures latest.databases[i] in latest.databases && reports[i] in reports
      ensures reports[i].Valid() <==>
                NamesKeepOrder(SortedSet(Affected(baseline[latest.databases[i].key], current[latest.databases[i].key], repr)))
    {
      var d := latest.databases[i];
      assert d in latest.databases;
      PrefixedSorted(paths, "catalog/" + d.key + "/generated/raw/");
      DatabaseReportExact(d.key, d.clickhouseDatabase, baseline[d.key], current[d.key], repr,
                          WithPrefix(rawPaths, "catalog/" + d.key + "/generated/raw/"));
    }
  }

  lemma PrefixedSorted(paths: seq<string>, prefix: string)
    ensures SortedUnique(WithPrefix(SortedSet(Elements(paths)), prefix))
  {
    hide SortedSet, SortedUnique, WithPrefix;
    SortedSetSorted(Elements(paths));
    WithPrefixSorted(SortedSet(Elements(paths)), prefix);
    SortedUniqueExact(WithPrefix(SortedSet(Elements(paths)), prefix));
  }
}
