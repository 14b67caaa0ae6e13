/**
 * The links a benchmark run prints: one perf-page URL per benchmark name,
 * built from the server's endpoint and the run's report.
 */
module RunUrls {
  import opened Wrappers
  import opened BencherJson
  import ConsolePage

  /** A project's visibility. `Private` exists only in builds with the `plus` feature. */
  datatype Visibility = Public | Private

  /** A parsed URL, by component. */
  datatype Url = Url(scheme: string, host: string, port: Option<nat>, path: string, query: Option<string>, fragment: Option<string>)

  /** The perf page's query: one metric kind and the selected dimensions. */
  datatype JsonPerfQuery = JsonPerfQuery(
    metricKind: Slug,
    branches: seq<Uuid>,
    testbeds: seq<Uuid>,
    benchmarks: seq<Uuid>,
    startTime: Option<int>,
    endTime: Option<int>)

  /** What every URL of one report shares. */
  datatype BenchmarkUrl = BenchmarkUrl(endpoint: Url, projectVisibility: Visibility, projectSlug: Slug, branch: Uuid, testbed: Uuid)

  /** A benchmark's name and uuid within one result. */
  datatype BenchmarkMetric = BenchmarkMetric(name: string, uuid: Uuid)

  /** One metric kind's benchmarks within one iteration. */
  datatype ReportResult = ReportResult(metricKindSlug: Slug, benchmarks: seq<BenchmarkMetric>)

  /** The parts of a report the URLs are built from. `results` holds one list
      of results per iteration. */
  datatype JsonReport = JsonReport(
    projectVisibility: Visibility,
    projectSlug: Slug,
    branchUuid: Uuid,
    testbedUuid: Uuid,
    results: seq<seq<ReportResult>>)

  /** The query serializer; it may fail. */
  type QueryEncoder = JsonPerfQuery -> Option<string>

  /** The perf page of a project: public projects have a public page, private
      ones a page in the console. */
  function PerfPath(visibility: Visibility, slug: Slug): (path: string)
    ensures visibility.Public? ==> path == "/perf/" + slug
    ensures visibility.Private? ==> path == ConsolePage.PROJECTS_PREFIX + slug + "/perf"
  {
    match visibility
    case Public => "/perf/" + slug
    case Private => "/console/projects/" + slug + "/perf"
  }

  /** The query of one benchmark's link: exactly one branch, one testbed and one
      benchmark, and no time range. */
  function PerfQuery(bu: BenchmarkUrl, metricKind: Slug, benchmark: Uuid): (q: JsonPerfQuery)
    ensures q.metricKind == metricKind
    ensures q.branches == [bu.branch] && q.testbeds == [bu.testbed] && q.benchmarks == [benchmark]
    ensures q.startTime.None? && q.endTime.None?
  {
    JsonPerfQuery(metricKind, [bu.branch], [bu.testbed], [benchmark], None, None)
  }

  /** The link to one benchmark's perf page: the endpoint with its path and
      query replaced, and everything else kept. A query that does not
      serialize becomes the empty query. */
  function PerfUrl(bu: BenchmarkUrl, metricKind: Slug, benchmark: Uuid, encode: QueryEncoder): (url: Url)
    ensures url.scheme == bu.endpoint.scheme && url.host == bu.endpoint.host && url.port == bu.endpoint.port
    ensures url.fragment == bu.endpoint.fragment
    ensures url.path == PerfPath(bu.projectVisibility, bu.projectSlug)
    ensures encode(PerfQuery(bu, metricKind, benchmark)).Some? ==> url.query == encode(PerfQuery(bu, metricKind, benchmark))
    ensures encode(PerfQuery(bu, metricKind, benchmark)).None? ==> url.query == Some("")
  {
    var q := encode(PerfQuery(bu, metricKind, benchmark));
    bu.endpoint.(path := PerfPath(bu.projectVisibility, bu.projectSlug),
                 query := Some(if q.Some? then q.value else ""))
  }

  /** `BenchmarkUrl::to_url`: a copy of the endpoint whose path and then query
      are set; the stored endpoint is a value and stays as it was. */
  method ToUrl(bu: BenchmarkUrl, metricKind: Slug, benchmark: Uuid, encode: QueryEncoder) returns (url: Url)
    ensures url == PerfUrl(bu, metricKind, benchmark, encode)
  {
    var query := PerfQuery(bu, metricKind, benchmark);
    url := bu.endpoint;
    var path := PerfPath(bu.projectVisibility, bu.projectSlug);
    url := url.(path := path);
    var encoded := encode(query);
    url := url.(query := Some(if encoded.Some? then encoded.value else ""));
  }

  /** One insertion into the map: a benchmark name, its uuid, and the metric
      kind of the result it belongs to. */
  datatype Entry = Entry(name: string, uuid: Uuid, metricKindSlug: Slug)

  /** The entries of one result, in order. */
  function ResultEntries(r: ReportResult): (es: seq<Entry>)
    ensures |es| == |r.benchmarks|
    ensures forall k :: 0 <= k < |es| ==> es[k] == Entry(r.benchmarks[k].name, r.benchmarks[k].uuid, r.metricKindSlug)
  {
    seq(|r.benchmarks|, k requires 0 <= k < |r.benchmarks| => Entry(r.benchmarks[k].name, r.benchmarks[k].uuid, r.metricKindSlug))
  }

  /** The entries of one iteration, result after result. */
  function IterationEntries(iteration: seq<ReportResult>): seq<Entry>
    decreases |iteration|
  {
    if iteration == [] then []
    else IterationEntries(iteration[..|iteration| - 1]) + ResultEntries(iteration[|iteration| - 1])
  }

  /** The entries of all iterations, in the order the loops visit them. */
  function ReportEntries(results: seq<seq<ReportResult>>): seq<Entry>
    decreases |results|
  {
    if results == [] then []
    else ReportEntries(results[..|results| - 1]) + IterationEntries(results[|results| - 1])
  }

  /** The map after inserting `entries` in order into an empty map. */
  function UrlMap(bu: BenchmarkUrl, entries: seq<Entry>, encode: QueryEncoder): map<string, Url>
    decreases |entries|
  {
    if entries == [] then map[]
    else
      var e := entries[|entries| - 1];
      UrlMap(bu, entries[..|entries| - 1], encode)[e.name := PerfUrl(bu, e.metricKindSlug, e.uuid, encode)]
  }

  /** The shared part of a report's links. */
  function ReportUrl(endpoint: Url, report: JsonReport): (bu: BenchmarkUrl)
    ensures bu.endpoint == endpoint && bu.projectVisibility == report.projectVisibility
    ensures bu.projectSlug == report.projectSlug && bu.branch == report.branchUuid && bu.testbed == report.testbedUuid
  {
    BenchmarkUrl(endpoint, report.projectVisibility, report.projectSlug, report.branchUuid, report.testbedUuid)
  }

  /** Entries of a result prefix grow one benchmark at a time. */
  lemma ResultEntriesPrefix(r: ReportResult, k: nat)
    requires k < |r.benchmarks|
    ensures ResultEntries(r)[..k + 1] == ResultEntries(r)[..k] + [Entry(r.benchmarks[k].name, r.benchmarks[k].uuid, r.metricKindSlug)]
  {
  }

  /** Entries of an iteration prefix grow one result at a time. */
  lemma IterationEntriesPrefix(iteration: seq<ReportResult>, j: nat)
    requires j < |iteration|
    ensures IterationEntries(iteration[..j + 1]) == IterationEntries(iteration[..j]) + ResultEntries(iteration[j])
  {
    assert iteration[..j + 1][..j] == iteration[..j];
  }

  /** Entries of a report prefix grow one iteration at a time. */
  lemma ReportEntriesPrefix(results: seq<seq<ReportResult>>, i: nat)
    requires i < |results|
    ensures ReportEntries(results[..i + 1]) == ReportEntries(results[..i]) + IterationEntries(results[i])
  {
    assert results[..i + 1][..i] == results[..i];
  }

  /** Concatenation regroups. */
  lemma AppendAssoc<T>(a: seq<T>, b: seq<T>, c: seq<T>)
    ensures (a + b) + c == a + (b + c)
  {
  }

  /** Inserting one more entry. */
  lemma UrlMapSnoc(bu: BenchmarkUrl, entries: seq<Entry>, e: Entry, encode: QueryEncoder)
    ensures UrlMap(bu, entries + [e], encode) == UrlMap(bu, entries, encode)[e.name := PerfUrl(bu, e.metricKindSlug, e.uuid, encode)]
  {
    assert (entries + [e])[..|entries|] == entries;
  }

  /** `BenchmarkUrls::new`: the nested loops over iterations, results and
      benchmarks, inserting each benchmark's link under its name. `endpoint`
      is the server's answer for its public endpoint. */
  method NewBenchmarkUrls(endpoint: Result<Url, string>, report: JsonReport, encode: QueryEncoder)
    returns (r: Result<map<string, Url>, string>)
    ensures endpoint.Failure? ==> r == Failure(endpoint.error)
    ensures endpoint.Success? ==> r == Success(UrlMap(ReportUrl(endpoint.value, report), ReportEntries(report.results), encode))
  {
    if endpoint.Failure? {
      return Failure(endpoint.error);
    }
    var bu := ReportUrl(endpoint.value, report);
    var urls: map<string, Url> := map[];
    ghost var done: seq<Entry> := [];
    var i := 0;
    while i < |report.results|
      invariant 0 <= i <= |report.results|
      invariant done == ReportEntries(report.results[..i])
      invariant urls == UrlMap(bu, done, encode)
    {
      var iteration := report.results[i];
      ghost var beforeIteration := done;
      var j := 0;
      while j < |iteration|
        invariant 0 <= j <= |iteration|
        invariant done == beforeIteration + IterationEntries(iteration[..j])
        invariant urls == UrlMap(bu, done, encode)
      {
        var result := iteration[j];
        var metricKind := result.metricKindSlug;
        ghost var beforeResult := done;
        var k := 0;
        while k < |result.benchmarks|
          invariant 0 <= k <= |result.benchmarks|
          invariant done == beforeResult + ResultEntries(result)[..k]
          invariant urls == UrlMap(bu, done, encode)
        {
          var benchmarkMetric := result.benchmarks[k];
          var url := ToUrl(bu, metricKind, benchmarkMetric.uuid, encode);
          ghost var e := Entry(benchmarkMetric.name, benchmarkMetric.uuid, metricKind);
          UrlMapSnoc(bu, done, e, encode);
          ResultEntriesPrefix(result, k);
          AppendAssoc(beforeResult, ResultEntries(result)[..k], [e]);
          urls := urls[benchmarkMetric.name := url];
          done := done + [e];
          k := k + 1;
        }
        assert ResultEntries(result)[..k] == ResultEntries(result);
        IterationEntriesPrefix(iteration, j);
        AppendAssoc(beforeIteration, IterationEntries(iteration[..j]), ResultEntries(result));
        j := j + 1;
      }
      assert iteration[..j] == iteration;
      ReportEntriesPrefix(report.results, i);
      i := i + 1;
    }
    assert report.results[..i] == report.results;
    return Success(urls);
  }

  /** The map's keys are exactly the names of the entries. */
  lemma {:induction false} UrlMapKeys(bu: BenchmarkUrl, entries: seq<Entry>, encode: QueryEncoder)
    ensures UrlMap(bu, entries, encode).Keys == set e | e in entries :: e.name
    decreases |entries|
  {
    if entries != [] {
      var init := entries[..|entries| - 1];
      UrlMapKeys(bu, init, encode);
      assert entries == init + [entries[|entries| - 1]];
    }
  }

  /** For a name that occurs several times, the link of its last occurrence is kept. */
  lemma {:induction false} LastOccurrenceWins(bu: BenchmarkUrl, entries: seq<Entry>, encode: QueryEncoder, i: nat)
    requires i < |entries|
    requires forall j :: i < j < |entries| ==> entries[j].name != entries[i].name
    ensures entries[i].name in UrlMap(bu, entries, encode)
    ensures UrlMap(bu, entries, encode)[entries[i].name] == PerfUrl(bu, entries[i].metricKindSlug, entries[i].uuid, encode)
    decreases |entries|
  {
    if i < |entries| - 1 {
      var init := entries[..|entries| - 1];
      assert init[i] == entries[i];
      forall j | i < j < |init| ensures init[j].name != init[i].name {
        assert init[j] == entries[j];
      }
      LastOccurrenceWins(bu, init, encode, i);
    }
  }

  /** Every entry of a report comes from one benchmark of one result of one
      iteration, and carries that result's metric kind. */
  lemma {:induction false} EntryOrigin(results: seq<seq<ReportResult>>, n: nat)
    requires n < |ReportEntries(results)|
    ensures exists it, res, b ::
      it in results && res in it && b in res.benchmarks && ReportEntries(results)[n] == Entry(b.name, b.uuid, res.metricKindSlug)
    decreases |results|
  {
    var init := results[..|results| - 1];
    var last := results[|results| - 1];
    if n < |ReportEntries(init)| {
      EntryOrigin(init, n);
      var it, res, b :| it in init && res in it && b in res.benchmarks &&
        ReportEntries(init)[n] == Entry(b.name, b.uuid, res.metricKindSlug);
      assert it in results;
    } else {
      IterationEntryOrigin(last, n - |ReportEntries(init)|);
    }
  }

  /** Every entry of an iteration comes from one benchmark of one of its results. */
  lemma {:induction false} IterationEntryOrigin(iteration: seq<ReportResult>, n: nat)
    requires n < |IterationEntries(iteration)|
    ensures exists res, b ::
      res in iteration && b in res.benchmarks && IterationEntries(iteration)[n] == Entry(b.name, b.uuid, res.metricKindSlug)
    decreases |iteration|
  {
    var init := iteration[..|iteration| - 1];
    var last := iteration[|iteration| - 1];
    if n < |IterationEntries(init)| {
      IterationEntryOrigin(init, n);
      var res, b :| res in init && b in res.benchmarks && IterationEntries(init)[n] == Entry(b.name, b.uuid, res.metricKindSlug);
      assert res in iteration;
    } else {
      var k := n - |IterationEntries(init)|;
      assert last.benchmarks[k] in last.benchmarks;
    }
  }

  /** Every link in the map points at the project's perf page, with the report's
      branch and testbed and the metric kind of a result of the report. */
  lemma MapLinksFromReport(endpoint: Url, report: JsonReport, encode: QueryEncoder, name: string)
    requires name in UrlMap(ReportUrl(endpoint, report), ReportEntries(report.results), encode)
    ensures exists it, res, b ::
      it in report.results && res in it && b in res.benchmarks && b.name == name &&
      UrlMap(ReportUrl(endpoint, report), ReportEntries(report.results), encode)[name] ==
        PerfUrl(ReportUrl(endpoint, report), res.metricKindSlug, b.uuid, encode)
  {
    var bu := ReportUrl(endpoint, report);
    var es := ReportEntries(report.results);
    UrlMapKeys(bu, es, encode);
    var n := LastIndexOfName(es, name);
    LastOccurrenceWins(bu, es, encode, n);
    EntryOrigin(report.results, n);
  }

  /** Every benchmark of a result has its entry. */
  lemma ResultHasEntry(r: ReportResult, b: BenchmarkMetric)
    requires b in r.benchmarks
    ensures Entry(b.name, b.uuid, r.metricKindSlug) in ResultEntries(r)
  {
    var k :| 0 <= k < |r.benchmarks| && r.benchmarks[k] == b;
    assert ResultEntries(r)[k] == Entry(b.name, b.uuid, r.metricKindSlug);
  }

  /** Every benchmark of every result of an iteration has its entry. */
  lemma {:induction false} IterationHasEntry(iteration: seq<ReportResult>, res: ReportResult, b: BenchmarkMetric)
    requires res in iteration && b in res.benchmarks
    ensures Entry(b.name, b.uuid, res.metricKindSlug) in IterationEntries(iteration)
    decreases |iteration|
  {
    var init := iteration[..|iteration| - 1];
    var last := iteration[|iteration| - 1];
    if res == last {
      ResultHasEntry(last, b);
    } else {
      assert res in init by {
        var j :| 0 <= j < |iteration| && iteration[j] == res;
        assert init[j] == res;
      }
      IterationHasEntry(init, res, b);
    }
  }

  /** Every benchmark of every result of every iteration has its entry. */
  lemma {:induction false} ReportHasEntry(results: seq<seq<ReportResult>>, it: seq<ReportResult>, res: ReportResult,
                                          b: BenchmarkMetric)
    requires it in results && res in it && b in res.benchmarks
    ensures Entry(b.name, b.uuid, res.metricKindSlug) in ReportEntries(results)
    decreases |results|
  {
    var init := results[..|results| - 1];
    var last := results[|results| - 1];
    if it == last {
      IterationHasEntry(last, res, b);
    } else {
      assert it in init by {
        var j :| 0 <= j < |results| && results[j] == it;
        assert init[j] == it;
      }
      ReportHasEntry(init, it, res, b);
    }
  }

  /** Every benchmark of the report gets a link under its name. */
  lemma EveryBenchmarkHasKey(endpoint: Url, report: JsonReport, encode: QueryEncoder,
                             it: seq<ReportResult>, res: ReportResult, b: BenchmarkMetric)
    requires it in report.results && res in it && b in res.benchmarks
    ensures b.name in UrlMap(ReportUrl(endpoint, report), ReportEntries(report.results), encode)
  {
    var es := ReportEntries(report.results);
    ReportHasEntry(report.results, it, res, b);
    UrlMapKeys(ReportUrl(endpoint, report), es, encode);
    assert Entry(b.name, b.uuid, res.metricKindSlug).name == b.name;
  }

  /** The names of the benchmarks of all results of all iterations. */
  function BenchmarkNames(report: JsonReport): set<string>
  {
    set it, res, b | it in report.results && res in it && b in res.benchmarks :: b.name
  }

  /** The map's keys are exactly the benchmark names of the report. */
  lemma UrlMapKeysAreBenchmarkNames(endpoint: Url, report: JsonReport, encode: QueryEncoder)
    ensures UrlMap(ReportUrl(endpoint, report), ReportEntries(report.results), encode).Keys == BenchmarkNames(report)
  {
    var m := UrlMap(ReportUrl(endpoint, report), ReportEntries(report.results), encode);
    forall name | name in m ensures name in BenchmarkNames(report) {
      MapLinksFromReport(endpoint, report, encode, name);
    }
    forall name | name in BenchmarkNames(report) ensures name in m {
      var it, res, b :| it in report.results && res in it && b in res.benchmarks && b.name == name;
      EveryBenchmarkHasKey(endpoint, report, encode, it, res, b);
    }
  }

  /** The position of the last entry named `name`. */
  function LastIndexOfName(entries: seq<Entry>, name: string): (n: nat)
    requires exists e :: e in entries && e.name == name
    ensures n < |entries| && entries[n].name == name
    ensures forall j :: n < j < |entries| ==> entries[j].name != name
    decreases |entries|
  {
    var last := entries[|entries| - 1];
    if last.name == name then |entries| - 1
    else
      var init := entries[..|entries| - 1];
      assert exists e :: e in init && e.name == name by {
        var e :| e in entries && e.name == name;
        assert e in init;
      }
      LastIndexOfName(init, name)
  }

  /** A private project's link opens the project's console page, which finds
      the project's slug; a public project's link is not a console path. */
  lemma PerfPathInConsole(slug: Slug)
    requires slug != "" && '/' !in slug
    ensures ConsolePage.ProjectSlug(PerfPath(Private, slug)) == Some(slug)
    ensures ConsolePage.ProjectSlug(PerfPath(Public, slug)) == None
  {
    var path := PerfPath(Private, slug);
    assert path == ConsolePage.PROJECTS_PREFIX + slug + "/" + "perf";
    assert ConsolePage.StartsWith(path, ConsolePage.PROJECTS_PREFIX + slug + "/");
    ConsolePage.ShapeYieldsSlug(path, slug);
    ConsolePage.ShortAndForeignPaths(slug);
  }
}
