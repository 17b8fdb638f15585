/**
 base/path_service.cc: the path service, its cache, and the service without a cache.

 A provider is a program that may ask the service for other keys before it replies.  Nothing
 stops providers from asking for each other's keys for ever, so evaluation takes a depth:
 every statement is about the calls that return, at whatever depth they do.
 */
module PathService {
  import opened Wrappers

  /** base::DIR_CURRENT, the one key that is neither cached nor overridden. */
  const DIR_CURRENT: int := 1

  type FilePath = string

  /** What ProviderFunc returns: false, or true with a path (which may be empty). */
  datatype Reply = Declined | Provided(path: FilePath)

  datatype Program =
    | Return(reply: Reply)
    | Ask(key: int, resume: Option<FilePath> -> Program)

  datatype Provider = Provider(func: int -> Program, keyStart: int, keyEnd: int)

  /** The file system, as far as the service looks at it. */
  datatype Files = Files(currentDirectory: Option<FilePath>, referencesParent: FilePath -> bool, makeAbsolute: FilePath -> FilePath)

  datatype Service = Service(files: Files, overrides: map<int, FilePath>, providers: seq<Provider>, cacheDisabled: bool)

  type Cache = map<int, FilePath>

  predicate Covers(p: Provider, key: int) {
    p.keyStart <= key < p.keyEnd
  }

  /** The provider's function returns false for the key, asking nothing. */
  ghost predicate Declines(p: Provider, key: int) {
    p.func(key) == Return(Declined)
  }

  /** It keeps to its own keys, as whoever registers a provider promises. */
  ghost predicate KeepsToRange(p: Provider) {
    forall key :: !Covers(p, key) ==> Declines(p, key)
  }

  predicate Apart(p: Provider, q: Provider) {
    p.keyStart >= q.keyEnd || p.keyEnd <= q.keyStart
  }

  predicate CoveredBy(providers: seq<Provider>, key: int) {
    exists i :: 0 <= i < |providers| && Covers(providers[i], key)
  }

  /** Every provider declines, asking nothing, the keys of no range; the built-in ones may answer each other's. */
  ghost predicate WellRanged(providers: seq<Provider>) {
    forall i, key :: 0 <= i < |providers| && !CoveredBy(providers, key) ==> Declines(providers[i], key)
  }

  /** What Get makes of the path that the providers left. */
  function Finish(files: Files, path: FilePath): Option<FilePath> {
    if path == "" then None
    else if files.referencesParent(path) then
      var absolute := files.makeAbsolute(path);
      if absolute == "" then None else Some(absolute)
    else Some(path)
  }

  // ----- the service without a cache -----

  /**
   asked: the keys that providers asked for on the way; kept: those of them asked on behalf of
   a lookup, this one or one within it, that found a path, which is then cached.
   */
  datatype Answer = Unbounded | Answered(path: Option<FilePath>, asked: set<int>, kept: set<int>)

  datatype Outcome = Running | Replied(reply: Reply, asked: set<int>, kept: set<int>)

  function FreeGet(s: Service, key: int, depth: nat): Answer
    decreases depth, 2, 0
  {
    if depth == 0 then Unbounded
    else if key == DIR_CURRENT then Answered(s.files.currentDirectory, {}, {})
    else if key in s.overrides then Answered(Some(s.overrides[key]), {}, {})
    else
      match FreeScan(s, s.providers, key, depth - 1)
      case Unbounded => Unbounded
      case Answered(path, asked, kept) => Answered(path, asked, if path.Some? then kept + asked else kept)
  }

  function FreeScan(s: Service, rest: seq<Provider>, key: int, depth: nat): Answer
    decreases depth, 3, |rest|
  {
    if rest == [] then Answered(None, {}, {})
    else
      match FreeProgram(s, rest[0].func(key), depth)
      case Running => Unbounded
      case Replied(Provided(path), asked, kept) => Answered(Finish(s.files, path), asked, kept)
      case Replied(Declined, asked, kept) =>
        match FreeScan(s, rest[1..], key, depth)
        case Unbounded => Unbounded
        case Answered(path, more, keptToo) => Answered(path, asked + more, kept + keptToo)
  }

  function FreeProgram(s: Service, program: Program, depth: nat): Outcome
    decreases depth, 1, 0
  {
    match program
    case Return(reply) => Replied(reply, {}, {})
    case Ask(key, resume) =>
      if depth == 0 then Running
      else
        match FreeGet(s, key, depth - 1)
        case Unbounded => Running
        case Answered(path, asked, kept) =>
          match FreeProgram(s, resume(path), depth - 1)
          case Running => Running
          case Replied(reply, more, keptToo) => Replied(reply, {key} + asked + more, kept + keptToo)
  }

  // ----- the service as it is -----

  datatype CachedAnswer = Stuck | Found(path: Option<FilePath>, cache: Cache)

  datatype CachedOutcome = Halfway | Ran(reply: Reply, cache: Cache)

  function Store(s: Service, cache: Cache, key: int, path: FilePath): Cache {
    if s.cacheDisabled then cache else cache[key := path]
  }

  function CachedGet(s: Service, cache: Cache, key: int, depth: nat): CachedAnswer
    decreases depth, 2, 0
  {
    if depth == 0 then Stuck
    else if key == DIR_CURRENT then Found(s.files.currentDirectory, cache)
    else if !s.cacheDisabled && key in cache then Found(Some(cache[key]), cache)
    else if key in s.overrides then Found(Some(s.overrides[key]), Store(s, cache, key, s.overrides[key]))
    else
      match CachedScan(s, cache, s.providers, key, depth - 1)
      case Stuck => Stuck
      case Found(path, after) => Found(path, if path.Some? then Store(s, after, key, path.value) else after)
  }

  function CachedScan(s: Service, cache: Cache, rest: seq<Provider>, key: int, depth: nat): CachedAnswer
    decreases depth, 3, |rest|
  {
    if rest == [] then Found(None, cache)
    else
      match CachedProgram(s, cache, rest[0].func(key), depth)
      case Halfway => Stuck
      case Ran(Declined, after) => CachedScan(s, after, rest[1..], key, depth)
      case Ran(Provided(path), after) => Found(Finish(s.files, path), after)
  }

  function CachedProgram(s: Service, cache: Cache, program: Program, depth: nat): CachedOutcome
    decreases depth, 1, 0
  {
    match program
    case Return(reply) => Ran(reply, cache)
    case Ask(key, resume) =>
      if depth == 0 then Halfway
      else
        match CachedGet(s, cache, key, depth - 1)
        case Stuck => Halfway
        case Found(path, after) => CachedProgram(s, after, resume(path), depth - 1)
  }

  // ----- depth only decides whether there is an answer -----

  lemma {:induction false} DeeperGet(s: Service, key: int, depth: nat, deeper: nat)
    requires depth <= deeper && FreeGet(s, key, depth).Answered?
    ensures FreeGet(s, key, deeper) == FreeGet(s, key, depth)
    decreases depth, 2, 0
  {
    if key != DIR_CURRENT && key !in s.overrides {
      DeeperScan(s, s.providers, key, depth - 1, deeper - 1);
    }
  }

  lemma {:induction false} DeeperScan(s: Service, rest: seq<Provider>, key: int, depth: nat, deeper: nat)
    requires depth <= deeper && FreeScan(s, rest, key, depth).Answered?
    ensures FreeScan(s, rest, key, deeper) == FreeScan(s, rest, key, depth)
    decreases depth, 3, |rest|
  {
    if rest != [] {
      var program := rest[0].func(key);
      DeeperProgram(s, program, depth, deeper);
      if FreeProgram(s, program, depth).reply.Declined? {
        DeeperScan(s, rest[1..], key, depth, deeper);
      }
    }
  }

  lemma {:induction false} DeeperProgram(s: Service, program: Program, depth: nat, deeper: nat)
    requires depth <= deeper && FreeProgram(s, program, depth).Replied?
    ensures FreeProgram(s, program, deeper) == FreeProgram(s, program, depth)
    decreases depth, 1, 0
  {
    if program.Ask? {
      DeeperGet(s, program.key, depth - 1, deeper - 1);
      DeeperProgram(s, program.resume(FreeGet(s, program.key, depth - 1).path), depth - 1, deeper - 1);
    }
  }

  // ----- the cache is transparent -----

  /** At this depth the cache-free service answers path, its providers asking only for keys in asked. */
  ghost predicate Settles(s: Service, key: int, path: Option<FilePath>, asked: set<int>, depth: nat) {
    var answer := FreeGet(s, key, depth);
    answer.Answered? && answer.path == path && answer.asked <= asked
  }

  ghost predicate Backed(s: Service, key: int, path: FilePath, asked: set<int>) {
    exists depth: nat :: Settles(s, key, Some(path), asked, depth)
  }

  /** Every cached path is what the cache-free service answers. */
  ghost predicate Coherent(s: Service, cache: Cache, asked: set<int>) {
    && (s.cacheDisabled ==> cache == map[])
    && forall key | key in cache :: Backed(s, key, cache[key], asked)
  }

  lemma CoherentMore(s: Service, cache: Cache, asked: set<int>, more: set<int>)
    requires Coherent(s, cache, asked) && asked <= more
    ensures Coherent(s, cache, more)
  {
    hide FreeGet;
    forall key | key in cache ensures Backed(s, key, cache[key], more) {
      var depth: nat :| Settles(s, key, Some(cache[key]), asked, depth);
      assert Settles(s, key, Some(cache[key]), more, depth);
    }
  }

  lemma CoherentStore(s: Service, cache: Cache, asked: set<int>, key: int, path: FilePath, depth: nat)
    requires Coherent(s, cache, asked) && Settles(s, key, Some(path), asked, depth)
    ensures Coherent(s, Store(s, cache, key, path), asked)
  {
    hide Settles;
    assert Backed(s, key, path, asked);
  }

  /**
   The cached service returns whenever the cache-free one does, and whatever it returns is
   what the cache-free one answers, at some depth; the cache stays coherent.
   */
  lemma {:induction false} GetAgrees(s: Service, cache: Cache, asked: set<int>, key: int, depth: nat) returns (at: nat)
    requires Coherent(s, cache, asked)
    ensures FreeGet(s, key, depth).Answered? ==> CachedGet(s, cache, key, depth).Found?
    ensures CachedGet(s, cache, key, depth).Found? ==>
      var free, got := FreeGet(s, key, at), CachedGet(s, cache, key, depth);
      free.Answered? && free.path == got.path && Coherent(s, got.cache, asked + free.kept)
    decreases depth, 2, 0
  {
    at := 1;
    if depth == 0 {
    } else if key == DIR_CURRENT {
      CoherentMore(s, cache, asked, asked + {});
    } else if !s.cacheDisabled && key in cache {
      at :| Settles(s, key, Some(cache[key]), asked, at);
      CoherentMore(s, cache, asked, asked + FreeGet(s, key, at).kept);
    } else if key in s.overrides {
      assert asked + {} == asked;
      assert Settles(s, key, Some(s.overrides[key]), asked, 1);
      CoherentStore(s, cache, asked, key, s.overrides[key], 1);
    } else {
      var scanned := ScanAgrees(s, cache, asked, s.providers, key, depth - 1);
      at := scanned + 1;
      var got := CachedScan(s, cache, s.providers, key, depth - 1);
      if got.Found? && got.path.Some? {
        var free := FreeScan(s, s.providers, key, scanned);
        var log := asked + (free.kept + free.asked);
        CoherentMore(s, got.cache, asked + free.kept, log);
        assert Settles(s, key, got.path, log, at);
        CoherentStore(s, got.cache, log, key, got.path.value, at);
      }
    }
  }

  lemma {:induction false} ScanAgrees(s: Service, cache: Cache, asked: set<int>, rest: seq<Provider>, key: int, depth: nat)
    returns (at: nat)
    requires Coherent(s, cache, asked)
    ensures FreeScan(s, rest, key, depth).Answered? ==> CachedScan(s, cache, rest, key, depth).Found?
    ensures CachedScan(s, cache, rest, key, depth).Found? ==>
      var free, got := FreeScan(s, rest, key, at), CachedScan(s, cache, rest, key, depth);
      free.Answered? && free.path == got.path && Coherent(s, got.cache, asked + free.kept)
    decreases depth, 3, |rest|
  {
    at := 0;
    if rest == [] {
      assert asked + {} == asked;
    } else {
      var program := rest[0].func(key);
      var ran := ProgramAgrees(s, cache, asked, program, depth);
      at := ran;
      var got := CachedProgram(s, cache, program, depth);
      if got.Ran? {
        var free := FreeProgram(s, program, ran);
        if FreeProgram(s, program, depth).Replied? {
          SameReply(s, program, depth, ran);
        }
        if got.reply.Declined? {
          var scanned := ScanAgrees(s, got.cache, asked + free.kept, rest[1..], key, depth);
          if CachedScan(s, got.cache, rest[1..], key, depth).Found? {
            at := if ran > scanned then ran else scanned;
            DeeperProgram(s, program, ran, at);
            DeeperScan(s, rest[1..], key, scanned, at);
            UnionAssociates(asked, free.kept, FreeScan(s, rest[1..], key, at).kept);
          }
        }
      }
    }
  }

  lemma {:induction false} ProgramAgrees(s: Service, cache: Cache, asked: set<int>, program: Program, depth: nat)
    returns (at: nat)
    requires Coherent(s, cache, asked)
    ensures FreeProgram(s, program, depth).Replied? ==> CachedProgram(s, cache, program, depth).Ran?
    ensures CachedProgram(s, cache, program, depth).Ran? ==>
      var free, got := FreeProgram(s, program, at), CachedProgram(s, cache, program, depth);
      free.Replied? && free.reply == got.reply && Coherent(s, got.cache, asked + free.kept)
    decreases depth, 1, 0
  {
    at := 0;
    if program.Return? {
      assert asked + {} == asked;
    } else if depth > 0 {
      var key, resume := program.key, program.resume;
      var asking := GetAgrees(s, cache, asked, key, depth - 1);
      var got := CachedGet(s, cache, key, depth - 1);
      if got.Found? {
        var free := FreeGet(s, key, asking);
        if FreeGet(s, key, depth - 1).Answered? {
          SameAnswer(s, key, depth - 1, asking);
        }
        var resumed := ProgramAgrees(s, got.cache, asked + free.kept, resume(got.path), depth - 1);
        var end := CachedProgram(s, got.cache, resume(got.path), depth - 1);
        if end.Ran? {
          at := 1 + if asking > resumed then asking else resumed;
          DeeperGet(s, key, asking, at - 1);
          DeeperProgram(s, resume(got.path), resumed, at - 1);
          UnionAssociates(asked, free.kept, FreeProgram(s, resume(got.path), resumed).kept);
        }
      }
    }
  }

  lemma UnionAssociates(a: set<int>, b: set<int>, c: set<int>)
    ensures a + (b + c) == a + b + c
  {
  }

  lemma SameAnswer(s: Service, key: int, one: nat, other: nat)
    requires FreeGet(s, key, one).Answered? && FreeGet(s, key, other).Answered?
    ensures FreeGet(s, key, one) == FreeGet(s, key, other)
  {
    DeeperGet(s, key, if one < other then one else other, if one < other then other else one);
  }

  lemma SameReply(s: Service, program: Program, one: nat, other: nat)
    requires FreeProgram(s, program, one).Replied? && FreeProgram(s, program, other).Replied?
    ensures FreeProgram(s, program, one) == FreeProgram(s, program, other)
  {
    DeeperProgram(s, program, if one < other then one else other, if one < other then other else one);
  }

  // ----- registering a provider, which leaves the cache alone -----

  function Registered(s: Service, p: Provider): Service {
    s.(providers := [p] + s.providers)
  }

  /** A key whose answer cannot change when p is registered in front. */
  predicate Unaffected(s: Service, p: Provider, key: int) {
    !Covers(p, key) || key in s.overrides || key == DIR_CURRENT
  }

  predicate AllUnaffected(s: Service, p: Provider, asked: set<int>) {
    forall key <- asked :: Unaffected(s, p, key)
  }

  lemma {:induction false} SameGet(s: Service, p: Provider, key: int, depth: nat)
    requires KeepsToRange(p) && FreeGet(s, key, depth).Answered?
    requires Unaffected(s, p, key) && AllUnaffected(s, p, FreeGet(s, key, depth).asked)
    ensures FreeGet(Registered(s, p), key, depth) == FreeGet(s, key, depth)
    decreases depth, 2, 0
  {
    if key != DIR_CURRENT && key !in s.overrides {
      SameScan(s, p, s.providers, key, depth - 1);
      var after, providers := Registered(s, p), [p] + s.providers;
      assert providers[1..] == s.providers;
      assert Declines(p, key);
      assert FreeProgram(after, providers[0].func(key), depth - 1) == Replied(Declined, {}, {});
      var answer := FreeScan(after, s.providers, key, depth - 1);
      assert {} + answer.asked == answer.asked && {} + answer.kept == answer.kept;
    }
  }

  lemma {:induction false} SameScan(s: Service, p: Provider, rest: seq<Provider>, key: int, depth: nat)
    requires KeepsToRange(p) && FreeScan(s, rest, key, depth).Answered?
    requires AllUnaffected(s, p, FreeScan(s, rest, key, depth).asked)
    ensures FreeScan(Registered(s, p), rest, key, depth) == FreeScan(s, rest, key, depth)
    decreases depth, 3, |rest|
  {
    if rest != [] {
      var program := rest[0].func(key);
      SameProgram(s, p, program, depth);
      if FreeProgram(s, program, depth).reply.Declined? {
        SameScan(s, p, rest[1..], key, depth);
      }
    }
  }

  lemma {:induction false} SameProgram(s: Service, p: Provider, program: Program, depth: nat)
    requires KeepsToRange(p) && FreeProgram(s, program, depth).Replied?
    requires AllUnaffected(s, p, FreeProgram(s, program, depth).asked)
    ensures FreeProgram(Registered(s, p), program, depth) == FreeProgram(s, program, depth)
    decreases depth, 1, 0
  {
    if program.Ask? {
      assert program.key in FreeProgram(s, program, depth).asked;
      SameGet(s, p, program.key, depth - 1);
      SameProgram(s, p, program.resume(FreeGet(s, program.key, depth - 1).path), depth - 1);
    }
  }

  /** A key that every provider declines has no path. */
  lemma {:induction false} NoneAnswers(s: Service, rest: seq<Provider>, key: int, depth: nat)
    requires forall i :: 0 <= i < |rest| ==> Declines(rest[i], key)
    ensures FreeScan(s, rest, key, depth).Answered? && FreeScan(s, rest, key, depth).path.None?
    decreases |rest|
  {
    if rest != [] {
      assert Declines(rest[0], key);
      NoneAnswers(s, rest[1..], key, depth);
    }
  }

  lemma RegisteredWellRanged(providers: seq<Provider>, p: Provider)
    requires WellRanged(providers) && KeepsToRange(p)
    ensures WellRanged([p] + providers)
  {
    var all := [p] + providers;
    forall i, key | 0 <= i < |all| && !CoveredBy(all, key) ensures Declines(all[i], key) {
      assert !Covers(all[0], key);
      assert forall j :: 0 <= j < |providers| ==> providers[j] == all[j + 1];
      assert !CoveredBy(providers, key);
      assert i > 0 ==> Declines(providers[i - 1], key);
    }
  }

  /**
   Registering keeps the cache right when no cached answer was computed by asking for a key
   of the new range that nothing overrides.
   */
  lemma RegisterKeepsCoherence(s: Service, cache: Cache, asked: set<int>, p: Provider)
    requires Coherent(s, cache, asked) && WellRanged(s.providers)
    requires KeepsToRange(p) && forall q <- s.providers :: Apart(p, q)
    requires AllUnaffected(s, p, asked)
    ensures Coherent(Registered(s, p), cache, asked)
  {
    forall key | key in cache ensures Backed(Registered(s, p), key, cache[key], asked) {
      var depth: nat :| Settles(s, key, Some(cache[key]), asked, depth);
      if !Unaffected(s, p, key) {
        forall i | 0 <= i < |s.providers| ensures !Covers(s.providers[i], key) {
          assert s.providers[i] in s.providers;
        }
        assert !CoveredBy(s.providers, key);
        NoneAnswers(s, s.providers, key, depth - 1);
        assert false;
      }
      SameGet(s, p, key, depth);
      assert Settles(Registered(s, p), key, Some(cache[key]), asked, depth);
    }
  }

  // ----- whole runs of calls -----

  datatype Request =
    | Lookup(key: int)
    | SetOverride(key: int, path: FilePath, isAbsolute: bool, create: bool, created: bool)
    | DropOverride(key: int)
    | Register(provider: Provider)
    | StopCaching

  datatype Response = Path(path: Option<FilePath>) | Success(ok: bool) | Void | NoReturn

  /** The path OverrideAndCreateIfNeeded stores; created: whether the directory exists once it has tried. */
  function Resolve(files: Files, path: FilePath, isAbsolute: bool, create: bool, created: bool): Option<FilePath> {
    if create && !created then None
    else if isAbsolute then Some(path)
    else
      var absolute := files.makeAbsolute(path);
      if absolute == "" then None else Some(absolute)
  }

  function FreeStep(s: Service, r: Request): Service {
    match r
    case Lookup(_) => s
    case SetOverride(key, path, isAbsolute, create, created) =>
      var resolved := Resolve(s.files, path, isAbsolute, create, created);
      if resolved.None? then s else s.(overrides := s.overrides[key := resolved.value])
    case DropOverride(key) => s.(overrides := s.overrides - {key})
    case Register(p) => Registered(s, p)
    case StopCaching => s.(cacheDisabled := true)
  }

  function FreeResponse(s: Service, r: Request, depth: nat): Response {
    match r
    case Lookup(key) =>
      var answer := FreeGet(s, key, depth);
      if answer.Unbounded? then NoReturn else Path(answer.path)
    case SetOverride(_, path, isAbsolute, create, created) =>
      Success(Resolve(s.files, path, isAbsolute, create, created).Some?)
    case DropOverride(key) => Success(key in s.overrides)
    case _ => Void
  }

  /** The requests that empty the cache. */
  predicate Clears(s: Service, r: Request) {
    match r
    case SetOverride(_, path, isAbsolute, create, created) => Resolve(s.files, path, isAbsolute, create, created).Some?
    case DropOverride(key) => key in s.overrides
    case StopCaching => true
    case _ => false
  }

  function FreeRun(s: Service, requests: seq<Request>, depth: nat): (responses: seq<Response>)
    ensures |responses| == |requests|
    decreases |requests|
  {
    if requests == [] then []
    else [FreeResponse(s, requests[0], depth)] + FreeRun(FreeStep(s, requests[0]), requests[1..], depth)
  }

  function CachedStep(s: Service, cache: Cache, r: Request, depth: nat): (Response, Cache) {
    if Clears(s, r) then (FreeResponse(s, r, depth), map[])
    else if r.Lookup? then
      match CachedGet(s, cache, r.key, depth)
      case Stuck => (NoReturn, cache)
      case Found(path, after) => (Path(path), after)
    else (FreeResponse(s, r, depth), cache)
  }

  function CachedRun(s: Service, cache: Cache, requests: seq<Request>, depth: nat): (responses: seq<Response>)
    ensures |responses| == |requests|
    decreases |requests|
  {
    if requests == [] then []
    else
      var (response, after) := CachedStep(s, cache, requests[0], depth);
      [response] + CachedRun(FreeStep(s, requests[0]), after, requests[1..], depth)
  }

  /** The keys providers have asked for, since the cache was last empty, on behalf of lookups that found a path. */
  function NextAsked(s: Service, asked: set<int>, r: Request, depth: nat): set<int> {
    if Clears(s, r) then {}
    else if r.Lookup? && FreeGet(s, r.key, depth).Answered? then asked + FreeGet(s, r.key, depth).kept
    else asked
  }

  /** What the service demands of its callers. */
  ghost predicate Allowed(s: Service, r: Request) {
    && (r.SetOverride? ==> r.key > DIR_CURRENT)
    && (r.Register? ==> r.provider.keyEnd > r.provider.keyStart && forall q <- s.providers :: Apart(r.provider, q))
  }

  /** Lookups return; a provider has a range of its own, for which no provider asked in vain before. */
  ghost predicate Orderly(s: Service, asked: set<int>, requests: seq<Request>, depth: nat)
    decreases |requests|
  {
    requests == [] ||
    var r := requests[0];
    && Allowed(s, r)
    && (r.Lookup? ==> FreeGet(s, r.key, depth).Answered?)
    && (r.Register? ==> KeepsToRange(r.provider) && AllUnaffected(s, r.provider, asked))
    && Orderly(FreeStep(s, r), NextAsked(s, asked, r, depth), requests[1..], depth)
  }

  /** With and without the cache, every call of a run gets the same response. */
  lemma {:induction false} RunIsTransparent(s: Service, cache: Cache, asked: set<int>, requests: seq<Request>, depth: nat)
    requires Coherent(s, cache, asked) && WellRanged(s.providers) && Orderly(s, asked, requests, depth)
    ensures CachedRun(s, cache, requests, depth) == FreeRun(s, requests, depth)
    decreases |requests|
  {
    if requests != [] {
      var r := requests[0];
      StepIsTransparent(s, cache, asked, r, depth);
      var after := CachedStep(s, cache, r, depth).1;
      RunIsTransparent(FreeStep(s, r), after, NextAsked(s, asked, r, depth), requests[1..], depth);
    }
  }

  lemma StepIsTransparent(s: Service, cache: Cache, asked: set<int>, r: Request, depth: nat)
    requires Coherent(s, cache, asked) && WellRanged(s.providers) && Orderly(s, asked, [r], depth)
    ensures CachedStep(s, cache, r, depth).0 == FreeResponse(s, r, depth)
    ensures Coherent(FreeStep(s, r), CachedStep(s, cache, r, depth).1, NextAsked(s, asked, r, depth))
    ensures WellRanged(FreeStep(s, r).providers)
  {
    match r
    case Lookup(key) =>
      var at := GetAgrees(s, cache, asked, key, depth);
      SameAnswer(s, key, depth, at);
    case Register(p) =>
      RegisterKeepsCoherence(s, cache, asked, p);
      RegisteredWellRanged(s.providers, p);
    case DropOverride(key) =>
      if key !in s.overrides {
        assert s.overrides - {key} == s.overrides;
      }
    case _ =>
  }

  /** A provider that answers one key according to whether another has a path. */
  function Dependent(key: int, other: int): Provider {
    Provider(k => if k == key then Ask(other, (path: Option<FilePath>) => Return(Provided(if path.None? then "a" else "b"))) else Return(Declined),
             key, key + 1)
  }

  lemma DependentAlone(s: Service, key: int, other: int, depth: nat)
    requires key != other && key != DIR_CURRENT && other != DIR_CURRENT && depth >= 5
    requires s.providers == [Dependent(key, other)] && s.overrides == map[] && !s.cacheDisabled && !s.files.referencesParent("a")
    ensures FreeGet(s, key, depth) == Answered(Some("a"), {other}, {other})
    ensures CachedGet(s, map[], key, depth) == Found(Some("a"), map[key := "a"])
  {
    assert FreeScan(s, s.providers[1..], other, depth - 3) == Answered(None, {}, {});
    assert FreeScan(s, s.providers, other, depth - 3) == Answered(None, {}, {});
    assert FreeGet(s, other, depth - 2) == Answered(None, {}, {});
    assert FreeProgram(s, s.providers[0].func(key), depth - 1) == Replied(Provided("a"), {other}, {});
    assert CachedScan(s, map[], s.providers[1..], other, depth - 3) == Found(None, map[]);
    assert CachedScan(s, map[], s.providers, other, depth - 3) == Found(None, map[]);
    assert CachedGet(s, map[], other, depth - 2) == Found(None, map[]);
    assert CachedProgram(s, map[], s.providers[0].func(key), depth - 1) == Ran(Provided("a"), map[]);
  }

  lemma DependentAfter(s: Service, p: Provider, key: int, other: int, depth: nat)
    requires key != DIR_CURRENT && depth >= 5 && s.overrides == map[] && !s.files.referencesParent("b")
    requires s.providers == [p, Dependent(key, other)] && KeepsToRange(p) && !Covers(p, key)
    requires FreeGet(s, other, depth - 2).Answered? && FreeGet(s, other, depth - 2).path.Some?
    ensures FreeGet(s, key, depth).Answered? && FreeGet(s, key, depth).path == Some("b")
  {
    var answer := FreeGet(s, other, depth - 2);
    assert FreeProgram(s, Dependent(key, other).func(key), depth - 1) == Replied(Provided("b"), {other} + answer.asked + {}, answer.kept + {});
    assert Declines(s.providers[0], key);
    assert FreeProgram(s, s.providers[0].func(key), depth - 1) == Replied(Declined, {}, {});
    assert s.providers[1..][0] == Dependent(key, other);
    var scanned := FreeScan(s, s.providers[1..], key, depth - 1);
    assert scanned.Answered? && scanned.path == Some("b");
  }

  /**
   The condition is needed: for any two keys, and any provider whose range has the second
   and not the first and that answers the second, registering it after the first was looked
   up leaves the cached answer as it was, while the cache-free service answers differently.
   */
  lemma StaleAfterRegister(s: Service, key: int, other: int, p: Provider, depth: nat)
    requires key != other && key != DIR_CURRENT && other != DIR_CURRENT
    requires s.providers == [Dependent(key, other)] && s.overrides == map[] && !s.cacheDisabled
    requires forall path :: !s.files.referencesParent(path)
    requires KeepsToRange(p) && Covers(p, other) && !Covers(p, key)
    requires FreeGet(Registered(s, p), other, depth).Answered? && FreeGet(Registered(s, p), other, depth).path.Some?
    ensures var requests := [Lookup(key), Register(p), Lookup(key)];
      && CachedRun(s, map[], requests, depth + 5) == [Path(Some("a")), Void, Path(Some("a"))]
      && FreeRun(s, requests, depth + 5) == [Path(Some("a")), Void, Path(Some("b"))]
  {
    var requests, after, d := [Lookup(key), Register(p), Lookup(key)], Registered(s, p), depth + 5;
    DependentAlone(s, key, other, d);
    DeeperGet(after, other, depth, d - 2);
    assert after.providers == [p, Dependent(key, other)];
    DependentAfter(after, p, key, other, d);
    assert CachedGet(after, map[key := "a"], key, d) == Found(Some("a"), map[key := "a"]);
    hide FreeGet, CachedGet, Dependent;
    var second, third, cache := requests[1..], requests[1..][1..], map[key := "a"];
    assert third[1..] == [] && third[0] == Lookup(key) && second[0] == Register(p);
    assert FreeRun(after, third, d) == [Path(Some("b"))];
    assert FreeRun(s, second, d) == [Void] + [Path(Some("b"))];
    assert CachedRun(after, cache, third, d) == [Path(Some("a"))];
    assert CachedRun(s, cache, second, d) == [Void] + [Path(Some("a"))];
  }

  // ----- the service in place -----

  class PathData {
    const files: Files
    var cache: Cache
    var overrides: map<int, FilePath>
    var providers: seq<Provider>
    var cacheDisabled: bool

    function State(): Service
      reads this
    {
      Service(files, overrides, providers, cacheDisabled)
    }

    constructor (files: Files, providers: seq<Provider>)
      ensures State() == Service(files, map[], providers, false) && cache == map[]
    {
      this.files := files;
      this.providers := providers;
      cache, overrides, cacheDisabled := map[], map[], false;
    }

    /** Locked only around the lookups and the final store; no other call comes in between. */
    method Get(key: int, depth: nat) returns (returned: bool, path: Option<FilePath>)
      modifies this`cache
      ensures returned == CachedGet(State(), old(cache), key, depth).Found?
      ensures returned ==> Found(path, cache) == CachedGet(State(), old(cache), key, depth)
      decreases depth, 1
    {
      returned, path := true, None;
      if depth == 0 {
        returned := false;
        return;
      }
      if key == DIR_CURRENT {
        path := files.currentDirectory;
        return;
      }
      if !cacheDisabled && key in cache {
        path := Some(cache[key]);
        return;
      }
      if key in overrides {
        if !cacheDisabled {
          cache := cache[key := overrides[key]];
        }
        path := Some(overrides[key]);
        return;
      }
      var found: FilePath := "";
      var i, answered := 0, false;
      while i < |providers| && !answered
        invariant i <= |providers| && State() == old(State())
        invariant !answered ==>
          CachedScan(State(), old(cache), providers, key, depth - 1) == CachedScan(State(), cache, providers[i..], key, depth - 1)
        invariant !answered ==> found == ""
        invariant answered ==>
          CachedScan(State(), old(cache), providers, key, depth - 1) == Found(Finish(files, found), cache)
        decreases |providers| - i, !answered
      {
        var reply;
        assert providers[i..][0] == providers[i] && providers[i..][1..] == providers[i + 1..];
        returned, reply := RunProgram(providers[i].func(key), depth - 1);
        if !returned {
          return;
        }
        if reply.Provided? {
          answered, found := true, reply.path;
        } else {
          i := i + 1;
        }
      }
      if found == "" {
        return;
      }
      if files.referencesParent(found) {
        found := files.makeAbsolute(found);
        if found == "" {
          return;
        }
      }
      path := Some(found);
      if !cacheDisabled {
        cache := cache[key := found];
      }
    }

    /** A provider at work: each key it asks for is a call of Get. */
    method RunProgram(program: Program, depth: nat) returns (returned: bool, reply: Reply)
      modifies this`cache
      ensures returned == CachedProgram(State(), old(cache), program, depth).Ran?
      ensures returned ==> Ran(reply, cache) == CachedProgram(State(), old(cache), program, depth)
      decreases depth, 0
    {
      if program.Return? {
        return true, program.reply;
      }
      if depth == 0 {
        return false, Declined;
      }
      var path;
      returned, path := Get(program.key, depth - 1);
      if !returned {
        return false, Declined;
      }
      returned, reply := RunProgram(program.resume(path), depth - 1);
    }

    method OverrideAndCreateIfNeeded(key: int, path: FilePath, isAbsolute: bool, create: bool, created: bool) returns (ok: bool)
      requires key > DIR_CURRENT
      modifies this
      ensures var r := SetOverride(key, path, isAbsolute, create, created);
        && Success(ok) == FreeResponse(old(State()), r, 0) && State() == FreeStep(old(State()), r)
        && cache == if Clears(old(State()), r) then map[] else old(cache)
      ensures ok == ((create ==> created) && (!isAbsolute ==> files.makeAbsolute(path) != ""))
      ensures overrides == if ok then old(overrides)[key := if isAbsolute then path else files.makeAbsolute(path)] else old(overrides)
    {
      var filePath := path;
      if create && !created {
        return false;
      }
      if !isAbsolute {
        filePath := files.makeAbsolute(filePath);
        if filePath == "" {
          return false;
        }
      }
      cache := map[];
      overrides := overrides[key := filePath];
      return true;
    }

    method RemoveOverride(key: int) returns (ok: bool)
      modifies this
      ensures Success(ok) == FreeResponse(old(State()), DropOverride(key), 0)
      ensures State() == FreeStep(old(State()), DropOverride(key))
      ensures cache == if Clears(old(State()), DropOverride(key)) then map[] else old(cache)
      ensures ok == (key in old(overrides)) && overrides == old(overrides) - {key}
    {
      if key !in overrides {
        assert overrides - {key} == overrides;
        return false;
      }
      cache := map[];
      overrides := overrides - {key};
      return true;
    }

    method RegisterProvider(p: Provider)
      requires p.keyEnd > p.keyStart && forall q <- providers :: Apart(p, q)
      modifies this`providers
      ensures State() == FreeStep(old(State()), Register(p))
    {
      providers := [p] + providers;
    }

    method DisableCache()
      modifies this
      ensures State() == FreeStep(old(State()), StopCaching) && cache == map[]
    {
      cache := map[];
      cacheDisabled := true;
    }
  }

  /** One call on the service in place. */
  method Perform(data: PathData, r: Request, depth: nat) returns (response: Response)
    requires Allowed(data.State(), r)
    modifies data
    ensures data.State() == FreeStep(old(data.State()), r)
    ensures response == CachedStep(old(data.State()), old(data.cache), r, depth).0
    ensures response != NoReturn ==> data.cache == CachedStep(old(data.State()), old(data.cache), r, depth).1
  {
    hide CachedGet, FreeGet;
    match r {
      case Lookup(key) =>
        var returned, path := data.Get(key, depth);
        return if returned then Path(path) else NoReturn;
      case SetOverride(key, path, isAbsolute, create, created) =>
        var ok := data.OverrideAndCreateIfNeeded(key, path, isAbsolute, create, created);
        return Success(ok);
      case DropOverride(key) =>
        var ok := data.RemoveOverride(key);
        return Success(ok);
      case Register(p) =>
        data.RegisterProvider(p);
      case StopCaching =>
        data.DisableCache();
    }
    response := Void;
  }

  /** A whole run of the service in place answers as the service without a cache. */
  method Serve(files: Files, providers: seq<Provider>, requests: seq<Request>, depth: nat) returns (responses: seq<Response>)
    requires WellRanged(providers)
    requires Orderly(Service(files, map[], providers, false), {}, requests, depth)
    ensures responses == FreeRun(Service(files, map[], providers, false), requests, depth)
  {
    var data := new PathData(files, providers);
    ghost var start, asked := data.State(), {};
    responses := [];
    var i := 0;
    assert requests[0..] == requests;
    while i < |requests|
      invariant i <= |requests| && |responses| == i && fresh(data)
      invariant WellRanged(data.providers) && Coherent(data.State(), data.cache, asked)
      invariant Orderly(data.State(), asked, requests[i..], depth)
      invariant FreeRun(start, requests, depth) == responses + FreeRun(data.State(), requests[i..], depth)
    {
      ghost var s := data.State();
      var r := requests[i];
      assert requests[i..][0] == r && requests[i..][1..] == requests[i + 1..];
      StepIsTransparent(s, data.cache, asked, r, depth);
      assert FreeResponse(s, r, depth) != NoReturn;
      hide CachedStep, FreeStep, FreeResponse, NextAsked, Coherent, WellRanged;
      var response := Perform(data, r, depth);
      responses := responses + [response];
      asked := NextAsked(s, asked, r, depth);
      i := i + 1;
    }
  }
}
