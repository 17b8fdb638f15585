/**
 base/path_service.cc: what the answers of the path service mean, told from the requests made
 so far: which overrides are in force, which providers are asked and in which order, and what
 is made of the path the first of them gives.
 */
module PathMeaning {
  import opened Wrappers
  import opened PathService

  /** The service's surroundings, its built-in providers, and the requests made so far. */
  datatype World = World(files: Files, builtin: seq<Provider>, requests: seq<Request>)

  // ----- overrides -----

  /** The request overrides the key with the path: made absolute unless it is, and created first if that was asked for. */
  predicate Overrides(files: Files, r: Request, key: int, path: FilePath) {
    && r.SetOverride? && r.key == key
    && (r.create ==> r.created)
    && (r.isAbsolute ==> path == r.path)
    && (!r.isAbsolute ==> path == files.makeAbsolute(r.path) && path != "")
  }

  ghost predicate OverridesSome(files: Files, r: Request, key: int) {
    exists path :: Overrides(files, r, key, path)
  }

  /** The request neither removes nor replaces the key's override. */
  ghost predicate Keeps(files: Files, r: Request, key: int) {
    r != DropOverride(key) && !OverridesSome(files, r, key)
  }

  /** The last successful override of the key, which nobody has removed since. */
  ghost predicate InForce(w: World, key: int, path: FilePath) {
    exists i :: 0 <= i < |w.requests| && Overrides(w.files, w.requests[i], key, path)
      && forall j :: i < j < |w.requests| ==> Keeps(w.files, w.requests[j], key)
  }

  ghost predicate Overridden(w: World, key: int) {
    exists path :: InForce(w, key, path)
  }

  /** The providers in the order they are asked: the last registered first, the built-in ones after all of them. */
  function ProvidersIn(builtin: seq<Provider>, requests: seq<Request>): seq<Provider> {
    if requests == [] then builtin
    else
      var last, front := requests[|requests| - 1], requests[..|requests| - 1];
      (if last.Register? then [last.provider] else []) + ProvidersIn(builtin, front)
  }

  // ----- answers -----

  /** An empty path is no path, and one that goes through ".." is made absolute. */
  predicate Finished(files: Files, given: FilePath, path: Option<FilePath>) {
    if given == "" then path.None?
    else if !files.referencesParent(given) then path == Some(given)
    else if files.makeAbsolute(given) == "" then path.None?
    else path == Some(files.makeAbsolute(given))
  }

  predicate FinishedIf(files: Files, given: Option<FilePath>, path: Option<FilePath>) {
    if given.None? then path.None? else Finished(files, given.value, path)
  }

  /** A provider's function comes to this reply, the service answering what it asks for. */
  ghost predicate Replies(w: World, program: Program, reply: Reply, depth: nat)
    decreases depth, 0
  {
    match program
    case Return(r) => reply == r
    case Ask(key, resume) =>
      depth > 0 && exists path :: Answers(w, key, path, depth - 1) && Replies(w, resume(path), reply, depth - 1)
  }

  /** How asking the providers went: this many declined, and the next gave a path, or there was none. */
  datatype Scan = Scan(declined: nat, given: Option<FilePath>)

  ghost predicate Scans(w: World, providers: seq<Provider>, key: int, scan: Scan, depth: nat)
    decreases depth, 1
  {
    var n := scan.declined;
    && n <= |providers|
    && (forall i :: 0 <= i < n ==> Replies(w, providers[i].func(key), Declined, depth))
    && (n == |providers| ==> scan.given.None?)
    && (n < |providers| ==> scan.given.Some? && Replies(w, providers[n].func(key), Provided(scan.given.value), depth))
  }

  /** This is the path that the first provider not to decline leads to. */
  ghost predicate Gives(w: World, providers: seq<Provider>, key: int, path: Option<FilePath>, depth: nat)
    decreases depth, 2
  {
    exists scan :: Scans(w, providers, key, scan, depth) && FinishedIf(w.files, scan.given, path)
  }

  /** What Get answers for the key, in at most this depth of asking. */
  ghost predicate Answers(w: World, key: int, path: Option<FilePath>, depth: nat)
    decreases depth, 3
  {
    depth > 0 &&
    if key == DIR_CURRENT then path == w.files.currentDirectory
    else if Overridden(w, key) then path.Some? && InForce(w, key, path.value)
    else
      Gives(w, ProvidersIn(w.builtin, w.requests), key, path, depth - 1)
  }

  // ----- the requests tell the state of the service -----

  lemma InForceStep(w: World, r: Request, key: int, path: FilePath)
    ensures InForce(w.(requests := w.requests + [r]), key, path) <==>
      Overrides(w.files, r, key, path) || (InForce(w, key, path) && Keeps(w.files, r, key))
  {
    var after := w.(requests := w.requests + [r]);
    var n, all := |w.requests|, after.requests;
    assert all[n] == r && forall k :: 0 <= k < n ==> all[k] == w.requests[k];
    hide Overrides, Keeps;
    if Overrides(w.files, r, key, path) {
      assert Overrides(w.files, all[n], key, path);
    } else if InForce(w, key, path) && Keeps(w.files, r, key) {
      var i :| 0 <= i < n && Overrides(w.files, w.requests[i], key, path)
        && forall j :: i < j < n ==> Keeps(w.files, w.requests[j], key);
      assert Overrides(w.files, all[i], key, path);
    }
    if InForce(after, key, path) && !Overrides(w.files, r, key, path) {
      var i :| 0 <= i < |all| && Overrides(w.files, all[i], key, path)
        && forall j :: i < j < |all| ==> Keeps(w.files, all[j], key);
      assert i < n && Overrides(w.files, w.requests[i], key, path);
      assert Keeps(w.files, all[n], key);
    }
  }

  /** Resolving is what the request says. */
  lemma ResolveIs(files: Files, r: Request, key: int, path: FilePath)
    requires r.SetOverride?
    ensures Overrides(files, r, key, path) <==>
      r.key == key && Resolve(files, r.path, r.isAbsolute, r.create, r.created) == Some(path)
  {
  }

  ghost predicate Tells(w: World, s: Service) {
    && s.files == w.files && s.providers == ProvidersIn(w.builtin, w.requests)
    && (forall key, path :: key in s.overrides && s.overrides[key] == path <==> InForce(w, key, path))
    && (s.cacheDisabled <==> StopCaching in w.requests)
  }

  lemma OverridesStep(s: Service, w: World, r: Request, key: int, path: FilePath)
    requires Tells(w, s)
    ensures var s' := FreeStep(s, r);
      (key in s'.overrides && s'.overrides[key] == path) <==> InForce(w.(requests := w.requests + [r]), key, path)
  {
    InForceStep(w, r, key, path);
    if r.SetOverride? {
      ResolveIs(w.files, r, key, path);
      forall p ensures Overrides(w.files, r, key, p) <==> r.key == key && Resolve(w.files, r.path, r.isAbsolute, r.create, r.created) == Some(p) {
        ResolveIs(w.files, r, key, p);
      }
      hide Overrides, Resolve, InForce;
    } else {
      hide InForce;
    }
  }

  lemma TellsStep(s: Service, w: World, r: Request)
    requires Tells(w, s)
    ensures Tells(w.(requests := w.requests + [r]), FreeStep(s, r))
  {
    var after := w.(requests := w.requests + [r]);
    assert after.requests[..|w.requests|] == w.requests;
    forall key, path
      ensures (key in FreeStep(s, r).overrides && FreeStep(s, r).overrides[key] == path) <==> InForce(after, key, path)
    {
      OverridesStep(s, w, r, key, path);
    }
    assert [] + ProvidersIn(w.builtin, w.requests) == ProvidersIn(w.builtin, w.requests);
    hide InForce, Resolve;
  }

  lemma StartTells(files: Files, builtin: seq<Provider>)
    ensures Tells(World(files, builtin, []), Service(files, map[], builtin, false))
  {
  }

  // ----- the answers of the service -----

  lemma FinishIs(files: Files, given: FilePath, path: Option<FilePath>)
    ensures Finished(files, given, path) <==> path == Finish(files, given)
  {
  }

  /** The first to give a path is the first of the list, or the first of the others when that one declines. */
  lemma ScansStep(w: World, providers: seq<Provider>, key: int, scan: Scan, depth: nat)
    requires providers != []
    ensures Scans(w, providers, key, scan, depth) <==>
      if scan.declined == 0 then scan.given.Some? && Replies(w, providers[0].func(key), Provided(scan.given.value), depth)
      else Replies(w, providers[0].func(key), Declined, depth) && Scans(w, providers[1..], key, Scan(scan.declined - 1, scan.given), depth)
  {
    var rest := providers[1..];
    assert forall i :: 0 < i < |providers| ==> providers[i] == rest[i - 1];
    assert forall i :: 0 <= i < |rest| ==> rest[i] == providers[i + 1];
    hide Replies;
  }

  lemma GivesStep(w: World, providers: seq<Provider>, key: int, path: Option<FilePath>, depth: nat)
    requires providers != []
    ensures Gives(w, providers, key, path, depth) <==>
      || (exists given :: Replies(w, providers[0].func(key), Provided(given), depth) && Finished(w.files, given, path))
      || (Replies(w, providers[0].func(key), Declined, depth) && Gives(w, providers[1..], key, path, depth))
  {
    var rest, func := providers[1..], providers[0].func(key);
    hide Finished;
    if Gives(w, providers, key, path, depth) {
      var scan :| Scans(w, providers, key, scan, depth) && FinishedIf(w.files, scan.given, path);
      ScansStep(w, providers, key, scan, depth);
      if scan.declined > 0 {
        assert Scans(w, rest, key, Scan(scan.declined - 1, scan.given), depth);
      } else {
        assert Replies(w, func, Provided(scan.given.value), depth) && Finished(w.files, scan.given.value, path);
      }
    }
    if given :| Replies(w, func, Provided(given), depth) && Finished(w.files, given, path) {
      ScansStep(w, providers, key, Scan(0, Some(given)), depth);
      assert FinishedIf(w.files, Scan(0, Some(given)).given, path);
    }
    if Replies(w, func, Declined, depth) && Gives(w, rest, key, path, depth) {
      var scan :| Scans(w, rest, key, scan, depth) && FinishedIf(w.files, scan.given, path);
      var later := Scan(scan.declined + 1, scan.given);
      ScansStep(w, providers, key, later, depth);
      assert Scan(later.declined - 1, later.given) == scan;
      assert Scans(w, providers, key, later, depth);
    }
  }

  lemma GivesNothing(w: World, key: int, path: Option<FilePath>, depth: nat)
    ensures Gives(w, [], key, path, depth) <==> path.None?
  {
    assert Scans(w, [], key, Scan(0, None), depth);
  }

  predicate Returns(answer: Answer, path: Option<FilePath>) {
    answer.Answered? && answer.path == path
  }

  predicate Yields(outcome: Outcome, reply: Reply) {
    outcome.Replied? && outcome.reply == reply
  }

  lemma {:induction false} RepliesIs(w: World, s: Service, program: Program, reply: Reply, depth: nat)
    requires Tells(w, s)
    ensures Replies(w, program, reply, depth) <==> Yields(FreeProgram(s, program, depth), reply)
    decreases depth, 0
  {
    hide Tells, Answers, FreeGet;
    if program.Ask? && depth > 0 {
      var key, resume := program.key, program.resume;
      forall path {:trigger Answers(w, key, path, depth - 1)} | true
        ensures Answers(w, key, path, depth - 1) <==> Returns(FreeGet(s, key, depth - 1), path)
        ensures Replies(w, resume(path), reply, depth - 1) <==> Yields(FreeProgram(s, resume(path), depth - 1), reply)
      {
        AnswersIs(w, s, key, path, depth - 1);
        RepliesIs(w, s, resume(path), reply, depth - 1);
      }
      var answer := FreeGet(s, key, depth - 1);
      assert answer.Answered? ==> Answers(w, key, answer.path, depth - 1);
    }
  }

  /** The scan over the providers finds the first that gives a path. */
  lemma {:induction false} ScanIs(w: World, s: Service, providers: seq<Provider>, key: int, path: Option<FilePath>, depth: nat)
    requires Tells(w, s)
    ensures Gives(w, providers, key, path, depth) <==> Returns(FreeScan(s, providers, key, depth), path)
    decreases depth, 1, |providers|
  {
    hide FreeProgram, Replies, Gives, Scans;
    if providers == [] {
      GivesNothing(w, key, path, depth);
    } else {
      GivesStep(w, providers, key, path, depth);
      ScanIs(w, s, providers[1..], key, path, depth);
      var func := providers[0].func(key);
      forall reply ensures Replies(w, func, reply, depth) <==> Yields(FreeProgram(s, func, depth), reply) {
        RepliesIs(w, s, func, reply, depth);
      }
      var outcome := FreeProgram(s, func, depth);
      if outcome.Replied? && outcome.reply.Provided? {
        FinishIs(s.files, outcome.reply.path, path);
        assert Replies(w, func, Provided(outcome.reply.path), depth);
      }
    }
  }

  lemma {:induction false} AnswersIs(w: World, s: Service, key: int, path: Option<FilePath>, depth: nat)
    requires Tells(w, s)
    ensures Answers(w, key, path, depth) <==> Returns(FreeGet(s, key, depth), path)
    decreases depth, 2
  {
    hide FreeScan, Gives, InForce;
    if depth > 0 && key != DIR_CURRENT {
      assert key in s.overrides ==> InForce(w, key, s.overrides[key]);
      assert Overridden(w, key) <==> key in s.overrides;
      if key !in s.overrides {
        ScanIs(w, s, s.providers, key, path, depth - 1);
      }
    }
  }

  /** What Get answers does not depend on how deep it may ask. */
  lemma OneAnswer(w: World, s: Service, key: int, path: Option<FilePath>, other: Option<FilePath>, depth: nat, deeper: nat)
    requires Tells(w, s) && Answers(w, key, path, depth) && Answers(w, key, other, deeper)
    ensures path == other
  {
    AnswersIs(w, s, key, path, depth);
    AnswersIs(w, s, key, other, deeper);
    SameAnswer(s, key, depth, deeper);
  }

  /** The response to r, after the requests of w. */
  ghost predicate Means(w: World, r: Request, response: Response, depth: nat) {
    match r
    case Lookup(key) =>
      if response.Path? then Answers(w, key, response.path, depth)
      else response.NoReturn? && forall path :: !Answers(w, key, path, depth)
    case SetOverride(key, _, _, _, _) => response == Success(OverridesSome(w.files, r, key))
    case DropOverride(key) => response == Success(Overridden(w, key))
    case _ => response.Void?
  }

  lemma ResponseMeans(w: World, s: Service, r: Request, depth: nat)
    requires Tells(w, s)
    ensures Means(w, r, FreeResponse(s, r, depth), depth)
  {
    match r
    case Lookup(key) =>
      hide Tells, Answers, FreeGet;
      forall path ensures Answers(w, key, path, depth) <==> Returns(FreeGet(s, key, depth), path) {
        AnswersIs(w, s, key, path, depth);
      }
    case SetOverride(key, path, isAbsolute, create, created) =>
      forall p ensures Overrides(w.files, r, key, p) <==> Resolve(w.files, path, isAbsolute, create, created) == Some(p) {
        ResolveIs(w.files, r, key, p);
      }
    case DropOverride(key) =>
      hide InForce;
      assert key in s.overrides ==> InForce(w, key, s.overrides[key]);
    case _ =>
  }

  /** Each response means what the requests before it say it means. */
  ghost predicate AllMean(w: World, requests: seq<Request>, responses: seq<Response>, depth: nat) {
    && |responses| == |requests|
    && forall i :: 0 <= i < |requests| ==> Means(w.(requests := w.requests + requests[..i]), requests[i], responses[i], depth)
  }

  lemma {:induction false} RunMeans(w: World, s: Service, requests: seq<Request>, depth: nat)
    requires Tells(w, s)
    ensures AllMean(w, requests, FreeRun(s, requests, depth), depth)
    decreases |requests|
  {
    hide Tells, FreeStep, FreeResponse, Means;
    if requests != [] {
      var r, rest := requests[0], requests[1..];
      var after, responses := w.(requests := w.requests + [r]), FreeRun(s, requests, depth);
      TellsStep(s, w, r);
      RunMeans(after, FreeStep(s, r), rest, depth);
      ResponseMeans(w, s, r, depth);
      forall i | 0 <= i < |requests| ensures Means(w.(requests := w.requests + requests[..i]), requests[i], responses[i], depth) {
        if i == 0 {
          assert w.requests + requests[..0] == w.requests;
        } else {
          assert w.requests + requests[..i] == after.requests + rest[..i - 1];
          assert Means(after.(requests := after.requests + rest[..i - 1]), rest[i - 1], responses[i], depth);
        }
      }
    }
  }

  /** Each response of the service in place means what the requests before it say it means. */
  method ServeMeaningfully(files: Files, builtin: seq<Provider>, requests: seq<Request>, depth: nat) returns (responses: seq<Response>)
    requires WellRanged(builtin)
    requires Orderly(Service(files, map[], builtin, false), {}, requests, depth)
    ensures AllMean(World(files, builtin, []), requests, responses, depth)
  {
    StartTells(files, builtin);
    RunMeans(World(files, builtin, []), Service(files, map[], builtin, false), requests, depth);
    responses := Serve(files, builtin, requests, depth);
  }

  // ----- what the cache is for -----

  /** The entries of one cache are in the other. */
  predicate Within(cache: Cache, after: Cache) {
    forall key :: key in cache ==> key in after && after[key] == cache[key]
  }

  lemma {:induction false} GetKeeps(s: Service, cache: Cache, key: int, depth: nat)
    ensures CachedGet(s, cache, key, depth).Found? ==> Within(cache, CachedGet(s, cache, key, depth).cache)
    decreases depth, 2, 0
  {
    if depth > 0 {
      ScanKeeps(s, cache, s.providers, key, depth - 1);
    }
  }

  lemma {:induction false} ScanKeeps(s: Service, cache: Cache, rest: seq<Provider>, key: int, depth: nat)
    ensures CachedScan(s, cache, rest, key, depth).Found? ==> Within(cache, CachedScan(s, cache, rest, key, depth).cache)
    decreases depth, 3, |rest|
  {
    if rest != [] {
      var program := rest[0].func(key);
      ProgramKeeps(s, cache, program, depth);
      if CachedProgram(s, cache, program, depth).Ran? {
        ScanKeeps(s, CachedProgram(s, cache, program, depth).cache, rest[1..], key, depth);
      }
    }
  }

  lemma {:induction false} ProgramKeeps(s: Service, cache: Cache, program: Program, depth: nat)
    ensures CachedProgram(s, cache, program, depth).Ran? ==> Within(cache, CachedProgram(s, cache, program, depth).cache)
    decreases depth, 1, 0
  {
    if program.Ask? && depth > 0 {
      GetKeeps(s, cache, program.key, depth - 1);
      var got := CachedGet(s, cache, program.key, depth - 1);
      if got.Found? {
        ProgramKeeps(s, got.cache, program.resume(got.path), depth - 1);
      }
    }
  }

  /** The state and the cache after a run. */
  function AfterRun(s: Service, cache: Cache, requests: seq<Request>, depth: nat): (Service, Cache)
    decreases |requests|
  {
    if requests == [] then (s, cache)
    else AfterRun(FreeStep(s, requests[0]), CachedStep(s, cache, requests[0], depth).1, requests[1..], depth)
  }

  /** No override is made or removed, and the cache stays on. */
  predicate LeavesCache(s: Service, r: Request) {
    match r
    case SetOverride(_, path, isAbsolute, create, created) => Resolve(s.files, path, isAbsolute, create, created).None?
    case DropOverride(key) => key !in s.overrides
    case StopCaching => false
    case _ => true
  }

  ghost predicate AllLeaveCache(s: Service, requests: seq<Request>)
    decreases |requests|
  {
    requests == [] || (LeavesCache(s, requests[0]) && AllLeaveCache(FreeStep(s, requests[0]), requests[1..]))
  }

  lemma {:induction false} RunKeeps(s: Service, cache: Cache, requests: seq<Request>, depth: nat)
    requires !s.cacheDisabled && AllLeaveCache(s, requests)
    ensures var (after, kept) := AfterRun(s, cache, requests, depth); Within(cache, kept) && !after.cacheDisabled
    decreases |requests|
  {
    if requests != [] {
      if requests[0].Lookup? {
        GetKeeps(s, cache, requests[0].key, depth);
      }
      hide CachedGet, Resolve;
      RunKeeps(FreeStep(s, requests[0]), CachedStep(s, cache, requests[0], depth).1, requests[1..], depth);
    }
  }

  /**
   Once a path was found for a key it is answered from the cache, with no provider asked,
   until an override is made or removed or the cache is disabled.
   */
  lemma FoundOnce(s: Service, cache: Cache, key: int, path: FilePath, requests: seq<Request>, depth: nat)
    requires !s.cacheDisabled && key != DIR_CURRENT
    requires var got := CachedGet(s, cache, key, depth); got.Found? && got.path == Some(path)
    requires AllLeaveCache(s, requests)
    ensures var (after, kept) := AfterRun(s, CachedGet(s, cache, key, depth).cache, requests, depth);
      CachedGet(after, kept, key, 1) == Found(Some(path), kept)
  {
    RunKeeps(s, CachedGet(s, cache, key, depth).cache, requests, depth);
    hide CachedScan, FreeStep;
  }
}
