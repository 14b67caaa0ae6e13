# Bencher: plan levels, console paths, i18n helpers, run branches and links

A Dafny model of six small pieces of the Bencher benchmarking platform. Each one
selects, parses or routes values, and each is proved against what its code promises.

- **Plan levels** (`PlanLevels`): the closed vocabulary of five plan-level
  strings. Two of them are aliases. The parser maps the strings onto the three
  levels `Free`, `Team` and `Enterprise`, and the visitor deserializes through it.
- **Console project slug** (`ConsolePage`): `projectSlug`, which accepts only
  `/console/projects/<slug>/...` pathnames.
- **Console i18n helpers** (`I18n`). These cover:
  - language detection from the first path segment;
  - translation with a fallback to the default language;
  - the language-prefix rule for paths;
  - `getLangCollection`. This step assigns each page's slug in place, groups the
    pages by language in a `reduce`, and sorts each group by `sortOrder` in a loop.
- **Run branch resolution** (`RunBranch`). It covers:
  - the priority rule among an explicit branch, `BENCHER_BRANCH`,
    `--if-branch` and `main`;
  - the `if_branch` search: a lookup, then start points in order, then an
    optional creation;
  - the 0 / 1 / many check on lookup results.
- **Benchmark links** (`RunUrls`). `to_url` picks the perf path by project
  visibility and builds the perf query. `BenchmarkUrls::new` fills a
  name-to-URL map over nested loops, and the last insertion wins.
- **Threshold statistic** (`ThresholdStatistic`): the field-by-field conversion
  from the command-line options to the request body.

`Strings` gives JavaScript's `split`, `join` and `lastIndexOf` on one-character
separators, with their round-trip lemmas. `Wrappers` holds `Option` and
`Result`. `BencherJson` holds the identifier types the modules share.

Foreign calls are parameters:
- the backend is a pair of oracle functions, `lookup` and `create`;
- the value of `BENCHER_BRANCH` is an `Option<string>`;
- the random uuid of a dry run is a parameter;
- the parsers of `ResourceId` and `BranchName` are oracle functions;
- the server's endpoint answer is a `Result<Url, string>`;
- the query serializer is an oracle that may fail;
- the `ui` translation table is a map.

`SearchStartPoints`, `IfBranchSpec`, `IfBranch` and `ResourceIdOf` also return
the log of the requests they sent. That log is what lets the model say that
nothing is created, or that no later start point is looked up.

`getLangFromUrl` is meant to return a language of `ui`: it casts its result
with `lang as keyof typeof ui` (utils.ts:6), and `useTranslations` and
`useTranslatedPath` take a `keyof typeof ui` (utils.ts:10, 16). Its test
`lang in ui` also accepts names inherited from `Object.prototype`, so the code
can return a name that is not a language of `ui`. The model has both versions.
`GetLangFromUrlAsWritten` is the code as written. `GetLangFromUrl` is the
corrected version, and the lemmas about language detection are stated about it.
See "## Findings".

## Model

| member | source | states |
|---|---|---|
| PlanLevels.IsValidPlanLevel | lib/bencher_valid/src/plan_level.rs:92-97 | the `matches!` over the five constants; its partner `ValidExactly` proves it holds exactly on the five-string set |
| PlanLevels.AsRef | lib/bencher_valid/src/plan_level.rs:49-57 | the rendering is always a valid plan level and never an alias; `RoundTrip` proves that parsing it gives the level back |
| PlanLevels.MatchValid | lib/bencher_valid/src/plan_level.rs:36-42 | for every validated string, an arm before the `panic!` applies: the level renders as the input, or the input is one of the two aliases of that level; the panic arm is proved dead |
| PlanLevels.FromStr | lib/bencher_valid/src/plan_level.rs:35-46 | succeeds exactly on the five accepted spellings; a failure carries the input string; a success renders back as the input unless the input is an alias |
| PlanLevels.ToString | lib/bencher_valid/src/plan_level.rs:59-63 | `String::from(p)` equals `as_ref(p)` and is always a valid plan level |
| PlanLevels.VisitStr | lib/bencher_valid/src/plan_level.rs:83-88 | deserializing succeeds exactly when parsing does, with the same level; otherwise the error is the parse error wrapped as a custom error |
| PlanLevels.ValidExactly | lib/bencher_valid/src/plan_level.rs:92-97 | the validity check holds exactly for "free", "team", "Bencher Team", "enterprise" and "Bencher Enterprise" |
| PlanLevels.PaddedRejected | lib/bencher_valid/src/plan_level.rs:112-117 | a string with a leading or trailing space is rejected, and so are "", "one" and "two" |
| PlanLevels.Aliases | lib/bencher_valid/src/plan_level.rs:38-40 | "team" and "Bencher Team" both parse to `Team`; "enterprise" and "Bencher Enterprise" both parse to `Enterprise`; "free" parses to `Free` |
| PlanLevels.RoundTrip | lib/bencher_valid/src/plan_level.rs:35-63 | parsing the rendering of any level gives that level back, through `as_ref` and through `String::from` |
| PlanLevels.DefaultIsFree | lib/bencher_valid/src/plan_level.rs:23-30 | the default level is `Free`, it renders as "free", and it parses back to itself |
| PlanLevels.DeserializeAgrees | lib/bencher_valid/src/plan_level.rs:83-97 | deserialization accepts exactly the valid strings, and gives the level the validated match selects |
| Strings.Split | services/ui/src/components/site/console/ConsolePage.tsx:7 | `split` always yields at least one piece |
| Strings.SplitPieces | services/console/src/i18n/utils.ts:27-29 | the pieces of a split hold no separator, and there is one more piece than there are separators |
| Strings.LastIndexOf | services/console/src/i18n/utils.ts:28 | the result is -1 exactly when the character is absent; otherwise it is an index holding the character, with none after it |
| Strings.Join | services/console/src/i18n/utils.ts:30 | `join` on a one-character separator; `JoinSplit` and `SplitJoin` prove it inverts `Split` |
| Strings.JoinSplit | services/console/src/i18n/utils.ts:27-30 | joining the pieces of a split with the same separator gives back the string |
| Strings.SplitJoin | services/console/src/i18n/utils.ts:27-30 | splitting a join of separator-free pieces gives back the pieces |
| ConsolePage.ProjectSlug | services/ui/src/components/site/console/ConsolePage.tsx:6-18 | a returned slug is non-empty and holds no `/` |
| ConsolePage.FoundSlugShape | services/ui/src/components/site/console/ConsolePage.tsx:8-17 | a returned slug `x` comes from a pathname that opens with `/console/projects/x/` |
| ConsolePage.ShapeYieldsSlug | services/ui/src/components/site/console/ConsolePage.tsx:8-17 | every pathname opening with `/console/projects/x/`, for a non-empty `x` without `/`, yields `x` |
| ConsolePage.ProjectSlugCharacterized | services/ui/src/components/site/console/ConsolePage.tsx:6-18 | the slug is `x` if and only if `x` is non-empty, holds no `/`, and the pathname opens with `/console/projects/x/` |
| ConsolePage.TailIrrelevant | services/ui/src/components/site/console/ConsolePage.tsx:8-17 | what follows `/console/projects/x/` never changes the result |
| ConsolePage.ShortAndForeignPaths | services/ui/src/components/site/console/ConsolePage.tsx:8-15 | `/console/projects/x`, which has too few segments, yields null; so does a path without the leading `/`, and so does a path under `/perf/` |
| I18n.GetLangFromUrlAsWritten | services/console/src/i18n/utils.ts:4-8 | as written: a language returned that is not a key of `ui` is an inherited `Object.prototype` property name |
| I18n.PrototypeNameEscapesUi | services/console/src/i18n/utils.ts:5-6 | the pathname `/<name>`, for an inherited property name missing from `ui`, returns `name`, which is not a language of `ui` |
| I18n.GetLangFromUrl | services/console/src/i18n/utils.ts:4-8 | corrected: the result is always a key of `ui`, and it differs from the default only when it is the second `/`-segment of the pathname |
| I18n.AsWrittenAgreesOffPrototype | services/console/src/i18n/utils.ts:4-8 | when the probed segment is not an inherited property name, the code as written and the corrected version agree |
| I18n.LangFromLeadingSegment | services/console/src/i18n/utils.ts:5-7 | corrected: for `/<lang>` and `/<lang>/<rest>`, the result is `lang` when `ui` has it, and the default otherwise |
| I18n.Translate | services/console/src/i18n/utils.ts:11-13 | `t(key)` is the language's own text when that is non-empty, and the default language's text otherwise |
| I18n.TranslateProperties | services/console/src/i18n/utils.ts:11-13 | for the default language, `t(key)` is just its own text; a translation is empty exactly when both candidates are |
| I18n.TranslatePath | services/console/src/i18n/utils.ts:17-19 | `translatePath` with `l` defaulting to `lang`; `TranslatePathPrefixRule` proves when it prefixes and what it returns |
| I18n.TranslatePathPrefixRule | services/console/src/i18n/utils.ts:17-19 | the path is returned unchanged if and only if the default language is hidden and targeted; otherwise the result is `"/" + l + path` |
| I18n.TranslatedPathRoundTrip | services/console/src/i18n/utils.ts:4-19 | corrected: `getLangFromUrl` reads back the language that `translatePath` prefixed, for languages of `ui` without `/` and paths that are empty or start with `/` |
| I18n.StemOf | services/console/src/i18n/utils.ts:27-28 | with a dot, the stem is what precedes the last dot; without one, `substring(0, -1)` gives the empty string |
| I18n.LangOf | services/console/src/i18n/utils.ts:27-29 | the first `/`-piece of the id's stem; `IdRecomposes` proves it holds no `/` and `ParseBuiltId` proves it is the language an id was built from |
| I18n.SlugOf | services/console/src/i18n/utils.ts:27-30 | the remaining pieces joined, undefined when that is empty; `IdRecomposes` proves language, `/` and slug rebuild the stem |
| I18n.IdRecomposes | services/console/src/i18n/utils.ts:27-30 | the language holds no `/`; the language, a `/` and the slug give back the stem; an absent slug means the stem is the language, or the language and one `/` |
| I18n.ParseBuiltId | services/console/src/i18n/utils.ts:26-31 | the id `lang/slug.ext`, with no `/` in `lang` and a single dot, parses to `lang` and `slug`; an empty slug becomes undefined |
| I18n.Tagged | services/console/src/i18n/utils.ts:25-32 | the `map` step gives one pair per page, in order, pairing each page with the language of its id |
| I18n.TaggedMembers | services/console/src/i18n/utils.ts:25-32 | a pair occurs exactly when its page is one of the pages and its language is that page's |
| I18n.TaggedLangs | services/console/src/i18n/utils.ts:25-40 | the languages of the pairs are exactly the languages of the pages |
| I18n.FilterLang | services/console/src/i18n/utils.ts:33-40 | the pages paired with one language, in order; `FilterLangMembers` proves its members and multiplicities are those of the pairs |
| I18n.Grouped | services/console/src/i18n/utils.ts:33-40 | the `reduce` as a function; `GroupedIsPartition` and `GroupedKeepsCount` prove it is a partition by language that keeps every page |
| I18n.GroupedIsPartition | services/console/src/i18n/utils.ts:33-40 | the `reduce` has one key per language that occurs; each list is non-empty and holds exactly that language's pages, in their original order |
| I18n.FilterLangMembers | services/console/src/i18n/utils.ts:33-40 | a language's list holds a page exactly when the page is paired with that language, and as often |
| I18n.GroupedKeepsCount | services/console/src/i18n/utils.ts:33-40 | the grouped lists together are exactly as long as the page list |
| I18n.InsertByOrder | services/console/src/i18n/utils.ts:43-45 | one insertion step, which adds one element; `InsertByOrderPerm`, `InsertSorted` and `InsertStable` prove it adds exactly that page, keeps sortedness and keeps equal orders in order |
| I18n.SortByOrder | services/console/src/i18n/utils.ts:43-45 | the stable sort by `sortOrder`, which keeps the length; `SortByOrderPerm`, `SortSorted` and `SortStable` prove it is a sorted, stable permutation |
| I18n.InsertByOrderPerm | services/console/src/i18n/utils.ts:43-45 | one insertion step adds exactly the one page |
| I18n.InsertSorted | services/console/src/i18n/utils.ts:43-45 | inserting into a list sorted by `sortOrder` keeps it sorted |
| I18n.SortByOrderPerm | services/console/src/i18n/utils.ts:43-45 | the sort is a permutation of its input |
| I18n.SortSorted | services/console/src/i18n/utils.ts:43-45 | the sort's result is non-decreasing by `sortOrder` |
| I18n.SortStable | services/console/src/i18n/utils.ts:43-45 | the sort is stable: pages of equal `sortOrder` keep their relative order |
| I18n.TagPages | services/console/src/i18n/utils.ts:25-32 | the `map` loop sets every page's slug from its id in place, and returns the pairs of `Tagged` |
| I18n.GroupByLang | services/console/src/i18n/utils.ts:33-40 | the `reduce` loop builds the grouping of `Grouped`: each pair's page is appended to its language's list, or starts that list |
| I18n.SortGroups | services/console/src/i18n/utils.ts:41-46 | the `for` loop keeps the keys, and stores every list sorted by `sortOrder` as a permutation of the original |
| I18n.GetLangCollection | services/console/src/i18n/utils.ts:23-48 | every page's slug is set; the keys are exactly the languages of the pages; each list is the sorted permutation of that language's pages in their original order, and it holds exactly the pages of that language |
| RunBranch.BranchFromCli | services/cli/src/bencher/sub/project/run/branch.rs:23-52 | an explicit branch wins, then the environment value, then `--if-branch`, then `main`; `Some(None)` gives no branch; `Some(Some(name))` gives `Name` with the start points and the create flag; a parse failure carries its input |
| RunBranch.EnvOutranksIfBranch | services/cli/src/bencher/sub/project/run/branch.rs:34-50 | with the environment set and no explicit branch, the `--if-branch` options do not matter; `--endif-branch` never matters |
| RunBranch.CountChecked | services/cli/src/bencher/sub/project/run/branch.rs:159-172 | no branch gives `None`; exactly one gives its uuid; more than one gives an error that carries the project, the name and the count |
| RunBranch.Fetch | services/cli/src/bencher/sub/project/run/branch.rs:140-173 | a failed request becomes a send error; otherwise the count check decides |
| RunBranch.GetBranch | services/cli/src/bencher/sub/project/run/branch.rs:140-173 | the request, then the pop with the length taken before it, computes `Fetch` |
| RunBranch.NewBranchBody | services/cli/src/bencher/sub/project/run/branch.rs:181-191 | the creation body names the branch, has no slug, is soft, and has a start point exactly when one was given, with its thresholds cloned |
| RunBranch.CreateBranch | services/cli/src/bencher/sub/project/run/branch.rs:175-208 | the new branch's uuid when the creation request succeeds, a send error otherwise |
| RunBranch.AsFound | services/cli/src/bencher/sub/project/run/branch.rs:112-120 | a creation's result as `Some(uuid)`, with its error passed on as `?` does; `FirstExistingStartPointWins` and `NoStartPointApplies` state where it is the answer |
| RunBranch.SearchStartPoints | services/cli/src/bencher/sub/project/run/branch.rs:103-126 | the search sends only lookups, except the last request of a settled search |
| RunBranch.IfBranchSpec | services/cli/src/bencher/sub/project/run/branch.rs:87-138 | the first request is always the lookup of the branch itself |
| RunBranch.IfBranch | services/cli/src/bencher/sub/project/run/branch.rs:87-138 | the loop with its `continue` and early returns gives the answer and the requests of `IfBranchSpec` |
| RunBranch.ResourceIdOf | services/cli/src/bencher/sub/project/run/branch.rs:54-85 | a resource id is returned unchanged and no branch gives `None`, both without requests; a name gives `Some` exactly when `if_branch` found or created a branch, with that branch's uuid, and passes its errors on |
| RunBranch.ExistingBranchNotCreated | services/cli/src/bencher/sub/project/run/branch.rs:95-99 | an existing branch is returned after its one lookup, and nothing is created |
| RunBranch.MissingStartPointsSkipped | services/cli/src/bencher/sub/project/run/branch.rs:103-126 | start points that are unparsable or missing only add their lookups; the search goes on with the rest |
| RunBranch.FirstExistingStartPointWins | services/cli/src/bencher/sub/project/run/branch.rs:103-126 | the first start point that exists is the one the branch is created from; no later start point is looked up |
| RunBranch.NoStartPointApplies | services/cli/src/bencher/sub/project/run/branch.rs:128-137 | when no start point applies: `create` false gives `None`; a dry run gives the fresh uuid and sends no creation; otherwise a creation without a start point is sent |
| RunBranch.DryRunStillCreatesFromStartPoint | services/cli/src/bencher/sub/project/run/branch.rs:112-134 | the dry-run flag changes nothing when a start point settles the search, so a creation from a start point still happens on a dry run |
| RunBranch.SearchCreatesWellFormed | services/cli/src/bencher/sub/project/run/branch.rs:181-190 | every creation the search sends is for the branch in the project, soft, without a slug, and clones its start point's thresholds |
| RunBranch.CallsShape | services/cli/src/bencher/sub/project/run/branch.rs:87-138 | every request of `if_branch` except the last is a lookup, and every creation it sends is well-formed |
| RunUrls.PerfPath | services/cli/src/bencher/sub/project/run/urls.rs:77-81 | public projects get `/perf/<slug>`; private projects get `/console/projects/<slug>/perf` |
| RunUrls.PerfQuery | services/cli/src/bencher/sub/project/run/urls.rs:67-74 | the query has the metric kind, exactly one branch, one testbed and one benchmark, and no start or end time |
| RunUrls.PerfUrl | services/cli/src/bencher/sub/project/run/urls.rs:66-92 | the link keeps the endpoint's scheme, host, port and fragment; it has the perf path; its query is the serialized query, or empty when serialization fails |
| RunUrls.ToUrl | services/cli/src/bencher/sub/project/run/urls.rs:76-91 | setting the path and then the query on a copy of the endpoint gives `PerfUrl`; the stored endpoint is a value and is not changed |
| RunUrls.ResultEntries | services/cli/src/bencher/sub/project/run/urls.rs:27-32 | one entry per benchmark of the result, in order, each with the result's metric kind |
| RunUrls.ReportUrl | services/cli/src/bencher/sub/project/run/urls.rs:16-22 | the shared part of the links holds the endpoint, and the report's visibility, slug, branch and testbed |
| RunUrls.NewBenchmarkUrls | services/cli/src/bencher/sub/project/run/urls.rs:12-38 | a failed endpoint answer is passed on; otherwise the nested loops build the map `UrlMap` gives for the report's entries in loop order |
| RunUrls.ReportEntries | services/cli/src/bencher/sub/project/run/urls.rs:25-33 | the insertions in loop order; `EntryOrigin` proves each comes from a benchmark of the report, and `ReportHasEntry` that each benchmark has its entry |
| RunUrls.UrlMap | services/cli/src/bencher/sub/project/run/urls.rs:24-35 | the map after the insertions in order; `UrlMapKeysAreBenchmarkNames` and `LastOccurrenceWins` prove its keys and values |
| RunUrls.ReportHasEntry | services/cli/src/bencher/sub/project/run/urls.rs:25-33 | every benchmark of every result of every iteration has its entry, with its result's metric kind |
| RunUrls.EveryBenchmarkHasKey | services/cli/src/bencher/sub/project/run/urls.rs:24-35 | every benchmark of every result of every iteration gets a key in the map |
| RunUrls.UrlMapKeysAreBenchmarkNames | services/cli/src/bencher/sub/project/run/urls.rs:24-35 | the map's keys are exactly the names of the benchmarks of all results of all iterations |
| RunUrls.UrlMapKeys | services/cli/src/bencher/sub/project/run/urls.rs:24-35 | the map's keys are exactly the benchmark names of the entries |
| RunUrls.LastOccurrenceWins | services/cli/src/bencher/sub/project/run/urls.rs:25-33 | for a name that occurs more than once, the map keeps the link of its last occurrence |
| RunUrls.EntryOrigin | services/cli/src/bencher/sub/project/run/urls.rs:25-33 | every entry comes from one benchmark of one result of one iteration, and carries that result's metric kind |
| RunUrls.IterationEntryOrigin | services/cli/src/bencher/sub/project/run/urls.rs:26-33 | every entry of one iteration comes from one benchmark of one of its results |
| RunUrls.MapLinksFromReport | services/cli/src/bencher/sub/project/run/urls.rs:16-35 | every link in the map is the perf link of a benchmark of that name, built with the metric kind of its enclosing result and the report's branch and testbed |
| RunUrls.PerfPathInConsole | services/cli/src/bencher/sub/project/run/urls.rs:77-81 | the console's `projectSlug` finds the slug in a private project's perf path, and finds nothing in a public one |
| ThresholdStatistic.KindFrom | services/cli/src/bencher/sub/project/threshold/statistic.rs:44-51 | `Z` maps to `Z` and `T` maps to `T` |
| ThresholdStatistic.KindBijective | services/cli/src/bencher/sub/project/threshold/statistic.rs:44-51 | the kind mapping is injective and reaches every request kind |
| ThresholdStatistic.StatisticFrom | services/cli/src/bencher/sub/project/threshold/statistic.rs:20-42 | the conversion never fails; it maps the kind and copies the sample sizes, the window and both boundaries unchanged |
| ThresholdStatistic.ToBoundary | services/cli/src/bencher/sub/project/threshold/statistic.rs:68-69 | a boundary is present exactly when its float was, and wraps that float |
| ThresholdStatistic.ToJson | services/cli/src/bencher/sub/project/threshold/statistic.rs:53-72 | the request keeps the kind, the sample sizes and the window, and each boundary is present exactly when it was present |
| ThresholdStatistic.CliFromJson | services/cli/src/bencher/sub/project/threshold/statistic.rs:23-72 | every request statistic is produced by some command-line options |
| ThresholdStatistic.NoFieldLost | services/cli/src/bencher/sub/project/threshold/statistic.rs:23-72 | the options can be read back from the request: command line to statistic to request loses no field |
| ThresholdStatistic.ToJsonInjective | services/cli/src/bencher/sub/project/threshold/statistic.rs:23-72 | different options give different requests |
| ThresholdStatistic.UncheckedBoundaries | services/cli/src/bencher/sub/project/threshold/statistic.rs:37-39 | boundaries outside (0, 1), here -2.0 and 2.0, are accepted and passed through unchanged |

## Left out

- Console messages (`cli_println!`) and the `count` that only feeds them (branch.rs:101-125): they are output only.
- The `#[cfg(feature = "plus")]` gate on private projects (urls.rs:79): the model always has both visibilities.
- `std::env::var(BENCHER_BRANCH)` is an `Option<string>` parameter. A variable that is set but is not valid Unicode reads as unset in the code, and the model does not tell the two apart.
- `Uuid::new_v4` on a dry run is the parameter `freshUuid`: it is randomness.
- The parsers of `ResourceId` and `BranchName` are oracle parameters, because their validation rules are not part of this model.
- `PerfQuery`: slugs are plain strings, and the query holds the metric kind's slug as it is. The `metric_kind.into()` conversion (urls.rs:68) is not modelled, because the target type is not part of this model.
- The backend requests (`send_with`), with their transport and retries, are the oracle functions `lookup` and `create`. The model assumes each lookup of a name returns the same answer during one resolution.
- `get_quiet` and `serde_json::from_value` for the endpoint are one `Result<Url, string>` parameter (I/O).
- `to_query_string` is an oracle that may fail. The percent-encoding of `set_path` and `set_query`, and URL parsing, are not modelled: a URL is a record of its components.
- `Url::clone`: the URL is a value in the model, so the claim that `to_url` leaves the stored endpoint alone holds by construction, not by proof.
- `BTreeMap`'s key order: the map is a Dafny `map`, so the order of the printed links is not modelled.
- `astro:content`'s `getCollection` is replaced by the page list given to `GetLangCollection`. The `ui`, `defaultLang` and `showDefaultLang` settings are parameters: the `ui` module is not part of this model.
- `ProjectSlug`: the optional chaining on an undefined `pathname` is not modelled; the model always has a pathname string.
- `GetLangCollection`: the accumulator is a map with own keys only. In the code, a page whose language is an `Object.prototype` property name, such as `constructor`, makes the `reduce` call `push` on an inherited function and throw. The model does not capture this crash.
- `SortGroups`: `Array.prototype.sort` sorts each grouped list in place, so the sorted lists are the grouped lists themselves. The model sorts a sequence value and stores the result, so it does not capture this aliasing.
- `SortGroups`: the comparator is modelled on integer `sortOrder` values. Non-numeric orders, `NaN` and floating-point subtraction are left out.
- `SortGroups`: the order in which `Object.entries` visits the keys is not modelled; every order gives the same map.
- `ThresholdStatistic`: `f64` boundaries are opaque bit patterns. The conversion does no arithmetic on them.
- `ValidError`'s message text and `expecting`'s description are not modelled: they are formatting only.

## Findings

| source | as written | input that shows it | evidently intended | confidence | as-written member | corrected member |
|---|---|---|---|---|---|---|
| services/console/src/i18n/utils.ts:6 | `lang in ui` is also true for property names inherited from `Object.prototype`, so the function returns a "language" that `ui` does not have | the pathname `/toString`, with a `ui` that has no `toString` language, returns `toString` | only the table's own languages are accepted, so the result is always a key of `ui` | not executed | I18n.GetLangFromUrlAsWritten (shown by I18n.PrototypeNameEscapesUi) | I18n.GetLangFromUrl |
