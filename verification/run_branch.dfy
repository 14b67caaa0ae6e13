/**
 * Branch resolution for a benchmark run: choosing the branch from the
 * command line or the environment, and the `--if-branch` search that looks
 * the branch up, falls back to start-point branches, and may create it.
 *
 * The backend is a pair of oracle functions. During one resolution the
 * backend's branch list only changes by the creation that ends the
 * resolution, so a fixed lookup function answers every lookup faithfully.
 * Every member that talks to the backend also returns the log of calls it
 * made, so that "nothing is created" and "no later start point is looked up"
 * can be stated.
 */
module RunBranch {
  import opened Wrappers
  import opened BencherJson

  /** The default branch name. */
  const BRANCH_MAIN_STR: string := "main"

  /** The branch options of `bencher run`. `ifBranch` is `Some(None)` for the
      flag without a usable name, as the command-line parser delivers it. */
  datatype CliRunBranch = CliRunBranch(
    branch: Option<ResourceId>,
    ifBranch: Option<Option<BranchName>>,
    elseIfBranch: seq<string>,
    elseBranch: bool,
    endifBranch: bool)

  /** The resolved choice: a known branch, a branch to search for, or no branch. */
  datatype Branch =
    | Resource(id: ResourceId)
    | Named(name: BranchName, startPoints: seq<string>, create: bool)
    | NoBranch

  /** The client's errors that branch resolution can raise. */
  datatype CliError =
    | ParseResourceId(input: string)
    | BranchCount(project: ResourceId, name: BranchName, count: nat)
    | Send(cause: string)

  /** A branch as the backend returns it. */
  datatype JsonBranch = JsonBranch(uuid: Uuid)

  /** The branch a new branch starts from, and whether its thresholds are cloned. */
  datatype JsonStartPoint = JsonStartPoint(branch: ResourceId, thresholds: Option<bool>)

  /** The body of a branch creation request. */
  datatype JsonNewBranch = JsonNewBranch(
    name: BranchName,
    slug: Option<Slug>,
    soft: Option<bool>,
    startPoint: Option<JsonStartPoint>)

  /** One request sent to the backend. */
  datatype Call =
    | Lookup(project: ResourceId, name: BranchName)
    | Create(project: ResourceId, body: JsonNewBranch)

  /** The backend: listing a project's branches by name, and creating a branch.
      A failed request yields its error text. */
  datatype Backend = Backend(
    lookup: (ResourceId, BranchName) -> Result<seq<JsonBranch>, string>,
    create: (ResourceId, JsonNewBranch) -> Result<JsonBranch, string>)

  /** `TryFrom<CliRunBranch> for Branch`. `env` is the value of the
      `BENCHER_BRANCH` variable, when it is set; `parseId` is `ResourceId`'s
      parser. The explicit branch wins, then the environment, then
      `--if-branch`, and last the default `main`. */
  function BranchFromCli(run: CliRunBranch, env: Option<string>, parseId: string -> Option<ResourceId>)
    : (r: Result<Branch, CliError>)
    ensures run.branch.Some? ==> r == Success(Resource(run.branch.value))
    ensures r.Success? && r.value.Named? <==>
      run.branch.None? && env.None? && run.ifBranch.Some? && run.ifBranch.value.Some?
    ensures r.Success? && r.value.Named? ==>
      r.value == Named(run.ifBranch.value.value, run.elseIfBranch, run.elseBranch)
    ensures r.Success? && r.value.NoBranch? <==> run.branch.None? && env.None? && run.ifBranch == Some(None)
    ensures r.Success? && r.value.Resource? && run.branch.None? ==>
      (env.Some? && parseId(env.value) == Some(r.value.id)) ||
      (env.None? && run.ifBranch.None? && parseId(BRANCH_MAIN_STR) == Some(r.value.id))
    ensures r.Failure? ==>
      run.branch.None? &&
      ((env.Some? && parseId(env.value).None? && r.error == ParseResourceId(env.value)) ||
       (env.None? && run.ifBranch.None? && parseId(BRANCH_MAIN_STR).None? && r.error == ParseResourceId(BRANCH_MAIN_STR)))
  {
    if run.branch.Some? then Success(Resource(run.branch.value))
    else if env.Some? then
      match parseId(env.value)
      case Some(id) => Success(Resource(id))
      case None => Failure(ParseResourceId(env.value))
    else if run.ifBranch.Some? then
      match run.ifBranch.value
      case Some(name) => Success(Named(name, run.elseIfBranch, run.elseBranch))
      case None => Success(NoBranch)
    else
      match parseId(BRANCH_MAIN_STR)
      case Some(id) => Success(Resource(id))
      case None => Failure(ParseResourceId(BRANCH_MAIN_STR))
  }

  /** The environment outranks every `--if-branch` option, and `--endif-branch`
      never matters. */
  lemma EnvOutranksIfBranch(run: CliRunBranch, other: CliRunBranch, e: string, parseId: string -> Option<ResourceId>)
    requires run.branch.None? && other.branch.None?
    ensures BranchFromCli(run, Some(e), parseId) == BranchFromCli(other, Some(e), parseId)
    ensures BranchFromCli(run, None, parseId) == BranchFromCli(run.(endifBranch := !run.endifBranch), None, parseId)
  {
  }

  /** The number of branches named `name` decides the lookup: none, exactly the
      popped one, or an error that carries the count. */
  function CountChecked(project: ResourceId, name: BranchName, found: seq<JsonBranch>): (r: Result<Option<Uuid>, CliError>)
    ensures |found| == 0 <==> r == Success(None)
    ensures |found| == 1 <==> r.Success? && r.value.Some?
    ensures |found| == 1 ==> r.value.value == found[0].uuid
    ensures |found| > 1 <==> r.Failure?
    ensures r.Failure? ==> r.error == BranchCount(project, name, |found|)
  {
    if |found| == 0 then Success(None)
    else
      var popped := found[|found| - 1];
      if |found| == 1 then Success(Some(popped.uuid))
      else Failure(BranchCount(project, name, |found|))
  }

  /** `get_branch`: one lookup request, then the count check. */
  function Fetch(project: ResourceId, name: BranchName, backend: Backend): (r: Result<Option<Uuid>, CliError>)
    ensures backend.lookup(project, name).Failure? ==> r == Failure(Send(backend.lookup(project, name).error))
    ensures backend.lookup(project, name).Success? ==> r == CountChecked(project, name, backend.lookup(project, name).value)
  {
    match backend.lookup(project, name)
    case Failure(e) => Failure(Send(e))
    case Success(found) => CountChecked(project, name, found)
  }

  /** `get_branch` step by step: the request, then the last branch popped off
      the list while its length before the pop is the count. */
  method GetBranch(project: ResourceId, name: BranchName, backend: Backend) returns (r: Result<Option<Uuid>, CliError>)
    ensures r == Fetch(project, name, backend)
  {
    var response := backend.lookup(project, name);
    if response.Failure? {
      return Failure(Send(response.error));
    }
    var jsonBranches := response.value;
    var branchCount := |jsonBranches|;
    if jsonBranches != [] {
      var branch := jsonBranches[|jsonBranches| - 1];
      jsonBranches := jsonBranches[..|jsonBranches| - 1];
      if branchCount == 1 {
        r := Success(Some(branch.uuid));
      } else {
        r := Failure(BranchCount(project, name, branchCount));
      }
    } else {
      r := Success(None);
    }
  }

  /** The request body of `create_branch`: always soft, never a slug, and a
      given start point always clones its thresholds. */
  function NewBranchBody(name: BranchName, startPoint: Option<ResourceId>): (b: JsonNewBranch)
    ensures b.name == name && b.slug.None? && b.soft == Some(true)
    ensures b.startPoint.Some? <==> startPoint.Some?
    ensures b.startPoint.Some? ==> b.startPoint.value == JsonStartPoint(startPoint.value, Some(true))
  {
    JsonNewBranch(name, None, Some(true), if startPoint.Some? then Some(JsonStartPoint(startPoint.value, Some(true))) else None)
  }

  /** `create_branch`: the creation request and the new branch's uuid. */
  function CreateBranch(project: ResourceId, name: BranchName, startPoint: Option<ResourceId>, backend: Backend)
    : (r: Result<Uuid, CliError>)
    ensures backend.create(project, NewBranchBody(name, startPoint)).Success? ==>
      r == Success(backend.create(project, NewBranchBody(name, startPoint)).value.uuid)
    ensures backend.create(project, NewBranchBody(name, startPoint)).Failure? ==>
      r == Failure(Send(backend.create(project, NewBranchBody(name, startPoint)).error))
  {
    match backend.create(project, NewBranchBody(name, startPoint))
    case Failure(e) => Failure(Send(e))
    case Success(b) => Success(b.uuid)
  }

  /** A creation's result as the answer of `if_branch`. */
  function AsFound(r: Result<Uuid, CliError>): Result<Option<Uuid>, CliError>
  {
    match r
    case Success(u) => Success(Some(u))
    case Failure(e) => Failure(e)
  }

  /** Where the start-point search stops: with an answer, or having tried them all. */
  datatype Search =
    | Settled(result: Result<Option<Uuid>, CliError>, calls: seq<Call>)
    | Exhausted(calls: seq<Call>)

  /** A search that made `pre` first. */
  function Prepend(pre: seq<Call>, s: Search): (t: Search)
    ensures t.Settled? <==> s.Settled?
    ensures t.calls == pre + s.calls
  {
    match s
    case Settled(r, cs) => Settled(r, pre + cs)
    case Exhausted(cs) => Exhausted(pre + cs)
  }

  /** The loop over the start points, in order: an unparsable one is skipped, a
      failed lookup ends the search with its error, and the first that exists
      ends it with a creation from it. */
  function SearchStartPoints(project: ResourceId, name: BranchName, startPoints: seq<string>,
                             parseName: string -> Option<BranchName>, backend: Backend): (s: Search)
    ensures forall i :: 0 <= i < |s.calls| ==> s.calls[i].Lookup? || (s.Settled? && i == |s.calls| - 1)
    decreases |startPoints|
  {
    if startPoints == [] then Exhausted([])
    else
      match parseName(startPoints[0])
      case None => SearchStartPoints(project, name, startPoints[1..], parseName, backend)
      case Some(sp) =>
        var look := [Lookup(project, sp)];
        match Fetch(project, sp, backend)
        case Failure(e) => Settled(Failure(e), look)
        case Success(found) =>
          if found.Some? then
            var from := Some(ByUuid(found.value));
            Settled(AsFound(CreateBranch(project, name, from, backend)), look + [Create(project, NewBranchBody(name, from))])
          else
            Prepend(look, SearchStartPoints(project, name, startPoints[1..], parseName, backend))
  }

  /** The answer of `if_branch` and the requests it sent. */
  datatype Outcome = Outcome(result: Result<Option<Uuid>, CliError>, calls: seq<Call>)

  /** `if_branch` as a function: the branch itself, then the start points, then
      the `create` and `dryRun` flags; `freshUuid` is the random uuid a dry run
      reports. */
  function IfBranchSpec(project: ResourceId, name: BranchName, startPoints: seq<string>, create: bool, dryRun: bool,
                        freshUuid: Uuid, parseName: string -> Option<BranchName>, backend: Backend): (o: Outcome)
    ensures |o.calls| >= 1 && o.calls[0] == Lookup(project, name)
  {
    var first := [Lookup(project, name)];
    match Fetch(project, name, backend)
    case Failure(e) => Outcome(Failure(e), first)
    case Success(found) =>
      if found.Some? then Outcome(Success(found), first)
      else
        match SearchStartPoints(project, name, startPoints, parseName, backend)
        case Settled(r, cs) => Outcome(r, first + cs)
        case Exhausted(cs) =>
          if !create then Outcome(Success(None), first + cs)
          else if dryRun then Outcome(Success(Some(freshUuid)), first + cs)
          else Outcome(AsFound(CreateBranch(project, name, None, backend)), first + cs + [Create(project, NewBranchBody(name, None))])
  }

  /** One step of the search: the first start point, then the rest. */
  lemma SearchStep(project: ResourceId, name: BranchName, startPoints: seq<string>, i: nat,
                   parseName: string -> Option<BranchName>, backend: Backend)
    requires i < |startPoints|
    ensures parseName(startPoints[i]).None? ==>
      SearchStartPoints(project, name, startPoints[i..], parseName, backend) ==
      SearchStartPoints(project, name, startPoints[i + 1..], parseName, backend)
    ensures parseName(startPoints[i]).Some? && Fetch(project, parseName(startPoints[i]).value, backend) == Success(None) ==>
      SearchStartPoints(project, name, startPoints[i..], parseName, backend) ==
      Prepend([Lookup(project, parseName(startPoints[i]).value)],
              SearchStartPoints(project, name, startPoints[i + 1..], parseName, backend))
    ensures parseName(startPoints[i]).Some? && Fetch(project, parseName(startPoints[i]).value, backend).Failure? ==>
      SearchStartPoints(project, name, startPoints[i..], parseName, backend) ==
      Settled(Failure(Fetch(project, parseName(startPoints[i]).value, backend).error),
              [Lookup(project, parseName(startPoints[i]).value)])
    ensures parseName(startPoints[i]).Some? && Fetch(project, parseName(startPoints[i]).value, backend).Success? &&
            Fetch(project, parseName(startPoints[i]).value, backend).value.Some? ==>
      var from := Some(ByUuid(Fetch(project, parseName(startPoints[i]).value, backend).value.value));
      SearchStartPoints(project, name, startPoints[i..], parseName, backend) ==
      Settled(AsFound(CreateBranch(project, name, from, backend)),
              [Lookup(project, parseName(startPoints[i]).value), Create(project, NewBranchBody(name, from))])
  {
    assert startPoints[i..][0] == startPoints[i];
    assert startPoints[i..][1..] == startPoints[i + 1..];
  }

  /** When the search settles after the requests `tried`, `if_branch` answers
      with the search's answer, after the first lookup and those requests. */
  lemma SettledReturn(project: ResourceId, name: BranchName, startPoints: seq<string>, create: bool, dryRun: bool,
                      freshUuid: Uuid, parseName: string -> Option<BranchName>, backend: Backend,
                      tried: seq<Call>, r: Result<Option<Uuid>, CliError>, cs: seq<Call>)
    requires Fetch(project, name, backend) == Success(None)
    requires SearchStartPoints(project, name, startPoints, parseName, backend) == Prepend(tried, Settled(r, cs))
    ensures IfBranchSpec(project, name, startPoints, create, dryRun, freshUuid, parseName, backend) ==
      Outcome(r, [Lookup(project, name)] + tried + cs)
  {
    assert [Lookup(project, name)] + (tried + cs) == [Lookup(project, name)] + tried + cs;
  }

  /** Prepending twice is prepending the concatenation. */
  lemma PrependTwice(a: seq<Call>, b: seq<Call>, s: Search)
    ensures Prepend(a, Prepend(b, s)) == Prepend(a + b, s)
  {
    assert a + (b + s.calls) == (a + b) + s.calls;
  }

  /** `if_branch`, step by step: the early returns and the `continue` of the
      start-point loop. */
  method IfBranch(project: ResourceId, name: BranchName, startPoints: seq<string>, create: bool, dryRun: bool,
                  freshUuid: Uuid, parseName: string -> Option<BranchName>, backend: Backend)
    returns (r: Result<Option<Uuid>, CliError>, calls: seq<Call>)
    ensures Outcome(r, calls) == IfBranchSpec(project, name, startPoints, create, dryRun, freshUuid, parseName, backend)
  {
    var first := [Lookup(project, name)];
    var branch := GetBranch(project, name, backend);
    if branch.Failure? {
      return Failure(branch.error), first;
    }
    if branch.value.Some? {
      return branch, first;
    }
    var tried: seq<Call> := [];
    var i := 0;
    while i < |startPoints|
      invariant 0 <= i <= |startPoints|
      invariant SearchStartPoints(project, name, startPoints, parseName, backend) ==
        Prepend(tried, SearchStartPoints(project, name, startPoints[i..], parseName, backend))
    {
      SearchStep(project, name, startPoints, i, parseName, backend);
      var parsed := parseName(startPoints[i]);
      if parsed.None? {
        i := i + 1;
        continue;
      }
      var sp := parsed.value;
      var found := GetBranch(project, sp, backend);
      if found.Failure? {
        SettledReturn(project, name, startPoints, create, dryRun, freshUuid, parseName, backend,
                      tried, Failure(found.error), [Lookup(project, sp)]);
        return Failure(found.error), first + tried + [Lookup(project, sp)];
      }
      if found.value.Some? {
        var from := Some(ByUuid(found.value.value));
        var created := CreateBranch(project, name, from, backend);
        var newBranch := AsFound(created);
        SettledReturn(project, name, startPoints, create, dryRun, freshUuid, parseName, backend,
                      tried, newBranch, [Lookup(project, sp), Create(project, NewBranchBody(name, from))]);
        return newBranch, first + tried + [Lookup(project, sp), Create(project, NewBranchBody(name, from))];
      }
      PrependTwice(tried, [Lookup(project, sp)], SearchStartPoints(project, name, startPoints[i + 1..], parseName, backend));
      tried := tried + [Lookup(project, sp)];
      i := i + 1;
    }
    calls := first + tried;
    if create {
      if dryRun {
        r := Success(Some(freshUuid));
      } else {
        var created := CreateBranch(project, name, None, backend);
        r := AsFound(created);
        calls := calls + [Create(project, NewBranchBody(name, None))];
      }
    } else {
      r := Success(None);
    }
  }

  /** `Branch::resource_id`: a known branch as it is, no branch as none, and a
      named branch as the uuid the search found or created. */
  method ResourceIdOf(branch: Branch, project: ResourceId, dryRun: bool, freshUuid: Uuid,
                      parseName: string -> Option<BranchName>, backend: Backend)
    returns (r: Result<Option<ResourceId>, CliError>, calls: seq<Call>)
    ensures branch.Resource? ==> r == Success(Some(branch.id)) && calls == []
    ensures branch.NoBranch? ==> r == Success(None) && calls == []
    ensures branch.Named? ==>
      var o := IfBranchSpec(project, branch.name, branch.startPoints, branch.create, dryRun, freshUuid, parseName, backend);
      calls == o.calls &&
      (r.Failure? <==> o.result.Failure?) &&
      (r.Failure? ==> r.error == o.result.error) &&
      (r.Success? && r.value.Some? <==> o.result.Success? && o.result.value.Some?) &&
      (r.Success? && r.value.Some? ==> r.value.value == ByUuid(o.result.value.value))
  {
    match branch
    case Resource(id) =>
      r, calls := Success(Some(id)), [];
    case Named(name, startPoints, create) =>
      var found;
      found, calls := IfBranch(project, name, startPoints, create, dryRun, freshUuid, parseName, backend);
      match found {
        case Failure(e) =>
          r := Failure(e);
        case Success(u) =>
          r := if u.Some? then Success(Some(ByUuid(u.value))) else Success(None);
      }
    case NoBranch =>
      r, calls := Success(None), [];
  }

  /** A branch that already exists is returned after its one lookup; nothing is created. */
  lemma ExistingBranchNotCreated(project: ResourceId, name: BranchName, startPoints: seq<string>, create: bool, dryRun: bool,
                                 freshUuid: Uuid, parseName: string -> Option<BranchName>, backend: Backend, u: Uuid)
    requires backend.lookup(project, name) == Success([JsonBranch(u)])
    ensures IfBranchSpec(project, name, startPoints, create, dryRun, freshUuid, parseName, backend) ==
      Outcome(Success(Some(u)), [Lookup(project, name)])
  {
  }

  /** The requests of start points that are looked up and not found. */
  function LookupsOf(project: ResourceId, startPoints: seq<string>, parseName: string -> Option<BranchName>): (calls: seq<Call>)
    ensures |calls| <= |startPoints|
    decreases |startPoints|
  {
    if startPoints == [] then []
    else
      var rest := LookupsOf(project, startPoints[1..], parseName);
      match parseName(startPoints[0])
      case None => rest
      case Some(sp) => [Lookup(project, sp)] + rest
  }

  /** No start point in `pre` is of use: each is unparsable or names no branch. */
  predicate AllMissing(project: ResourceId, pre: seq<string>, parseName: string -> Option<BranchName>, backend: Backend)
  {
    forall i :: 0 <= i < |pre| ==> parseName(pre[i]).None? || Fetch(project, parseName(pre[i]).value, backend) == Success(None)
  }

  /** Start points that are unparsable or missing only add their lookups. */
  lemma {:induction false} MissingStartPointsSkipped(project: ResourceId, name: BranchName, pre: seq<string>, post: seq<string>,
                                                    parseName: string -> Option<BranchName>, backend: Backend)
    requires AllMissing(project, pre, parseName, backend)
    ensures SearchStartPoints(project, name, pre + post, parseName, backend) ==
      Prepend(LookupsOf(project, pre, parseName), SearchStartPoints(project, name, post, parseName, backend))
    decreases |pre|
  {
    var tail := SearchStartPoints(project, name, post, parseName, backend);
    if pre == [] {
      assert pre + post == post;
      assert Prepend([], tail) == tail;
    } else {
      assert (pre + post)[0] == pre[0];
      assert (pre + post)[1..] == pre[1..] + post;
      assert AllMissing(project, pre[1..], parseName, backend) by {
        forall i | 0 <= i < |pre[1..]|
          ensures parseName(pre[1..][i]).None? || Fetch(project, parseName(pre[1..][i]).value, backend) == Success(None)
        {
          assert pre[1..][i] == pre[i + 1];
        }
      }
      MissingStartPointsSkipped(project, name, pre[1..], post, parseName, backend);
      var rest := LookupsOf(project, pre[1..], parseName);
      match parseName(pre[0])
      case None =>
      case Some(sp) =>
        assert Fetch(project, sp, backend) == Success(None);
        PrependTwice([Lookup(project, sp)], rest, tail);
    }
  }

  /** The first start point that exists is the one the branch is created from,
      and no start point after it is looked up. */
  lemma FirstExistingStartPointWins(project: ResourceId, name: BranchName, pre: seq<string>, s: string, post: seq<string>,
                                    parseName: string -> Option<BranchName>, backend: Backend, sp: BranchName, u: Uuid)
    requires AllMissing(project, pre, parseName, backend)
    requires parseName(s) == Some(sp) && Fetch(project, sp, backend) == Success(Some(u))
    ensures SearchStartPoints(project, name, pre + [s] + post, parseName, backend) ==
      Settled(AsFound(CreateBranch(project, name, Some(ByUuid(u)), backend)),
              LookupsOf(project, pre, parseName) + [Lookup(project, sp), Create(project, NewBranchBody(name, Some(ByUuid(u))))])
  {
    assert pre + [s] + post == pre + ([s] + post);
    MissingStartPointsSkipped(project, name, pre, [s] + post, parseName, backend);
    assert ([s] + post)[0] == s;
    assert [Lookup(project, sp)] + [Create(project, NewBranchBody(name, Some(ByUuid(u))))] ==
      [Lookup(project, sp), Create(project, NewBranchBody(name, Some(ByUuid(u))))];
  }

  /** With every start point of no use, the flags decide: no creation without
      `create`, a fresh uuid and no creation on a dry run, and otherwise a
      creation without a start point. */
  lemma NoStartPointApplies(project: ResourceId, name: BranchName, startPoints: seq<string>, create: bool, dryRun: bool,
                            freshUuid: Uuid, parseName: string -> Option<BranchName>, backend: Backend)
    requires Fetch(project, name, backend) == Success(None)
    requires AllMissing(project, startPoints, parseName, backend)
    ensures var o := IfBranchSpec(project, name, startPoints, create, dryRun, freshUuid, parseName, backend);
      var looked := [Lookup(project, name)] + LookupsOf(project, startPoints, parseName);
      (!create ==> o == Outcome(Success(None), looked)) &&
      (create && dryRun ==> o == Outcome(Success(Some(freshUuid)), looked)) &&
      (create && !dryRun ==> o == Outcome(AsFound(CreateBranch(project, name, None, backend)),
                                          looked + [Create(project, NewBranchBody(name, None))]))
  {
    MissingStartPointsSkipped(project, name, startPoints, [], parseName, backend);
    assert startPoints + [] == startPoints;
  }

  /** A dry run only skips the last creation: when a start point settles the
      search, the answer and the requests are those of a real run. */
  lemma DryRunStillCreatesFromStartPoint(project: ResourceId, name: BranchName, startPoints: seq<string>, create: bool,
                                         freshUuid: Uuid, parseName: string -> Option<BranchName>, backend: Backend)
    requires SearchStartPoints(project, name, startPoints, parseName, backend).Settled?
    ensures IfBranchSpec(project, name, startPoints, create, true, freshUuid, parseName, backend) ==
      IfBranchSpec(project, name, startPoints, create, false, freshUuid, parseName, backend)
  {
  }

  /** Every creation request of the search is for `name` in `project`, soft,
      without a slug, and clones its start point's thresholds. */
  predicate WellFormedCreates(project: ResourceId, name: BranchName, calls: seq<Call>)
  {
    forall i :: 0 <= i < |calls| && calls[i].Create? ==>
      calls[i].project == project && calls[i].body.name == name && calls[i].body.slug.None? &&
      calls[i].body.soft == Some(true) &&
      (calls[i].body.startPoint.Some? ==> calls[i].body.startPoint.value.thresholds == Some(true))
  }

  /** The search only creates well-formed branches. */
  lemma {:induction false} SearchCreatesWellFormed(project: ResourceId, name: BranchName, startPoints: seq<string>,
                                                  parseName: string -> Option<BranchName>, backend: Backend)
    ensures WellFormedCreates(project, name, SearchStartPoints(project, name, startPoints, parseName, backend).calls)
    decreases |startPoints|
  {
    if startPoints != [] {
      SearchCreatesWellFormed(project, name, startPoints[1..], parseName, backend);
      var rest := SearchStartPoints(project, name, startPoints[1..], parseName, backend).calls;
      match parseName(startPoints[0])
      case None =>
      case Some(sp) =>
        var s := SearchStartPoints(project, name, startPoints, parseName, backend);
        forall i | 0 <= i < |s.calls| && s.calls[i].Create?
          ensures s.calls[i].project == project && s.calls[i].body.name == name && s.calls[i].body.slug.None? &&
            s.calls[i].body.soft == Some(true) &&
            (s.calls[i].body.startPoint.Some? ==> s.calls[i].body.startPoint.value.thresholds == Some(true))
        {
          if i > 0 && Fetch(project, sp, backend) == Success(None) {
            assert s.calls[i] == rest[i - 1];
          }
        }
    }
  }

  /** `if_branch` sends at most one creation request, as its last request, and
      that request is well-formed. */
  lemma CallsShape(project: ResourceId, name: BranchName, startPoints: seq<string>, create: bool, dryRun: bool,
                   freshUuid: Uuid, parseName: string -> Option<BranchName>, backend: Backend)
    ensures var o := IfBranchSpec(project, name, startPoints, create, dryRun, freshUuid, parseName, backend);
      WellFormedCreates(project, name, o.calls) &&
      forall i :: 0 <= i < |o.calls| - 1 ==> o.calls[i].Lookup?
  {
    SearchCreatesWellFormed(project, name, startPoints, parseName, backend);
    var o := IfBranchSpec(project, name, startPoints, create, dryRun, freshUuid, parseName, backend);
    var s := SearchStartPoints(project, name, startPoints, parseName, backend);
    if Fetch(project, name, backend) == Success(None) {
      forall i | 1 <= i < |o.calls| && i - 1 < |s.calls|
        ensures o.calls[i] == s.calls[i - 1]
      {
      }
    }
  }
}
