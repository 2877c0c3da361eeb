/** The flow-definition cache of src/lib/flowDefinitions.ts. The cache lookup
    and the fetch call each other: a miss fetches, and a fetch that fails or
    returns an invalid body goes back to the cache lookup, which fetches again.
    The answers the server gives are a finite list `fetches`, one per request;
    running out of answers (`Exhausted`) stands for the retrying that, with a
    server that keeps failing, never ends. */
module FlowDefinitions {
  import opened Wrappers
  import opened Json
  import opened Validation
  import opened Model
  import opened SettingsStore

  /** One answer to `requestUrl` for the definition's url: a JSON body, or an exception. */
  datatype FetchOutcome = Fetched(body: Json) | FetchFailed

  /** A definition was obtained, or the answers ran out. */
  datatype Lookup = Found(definition: FlowDefinition) | Exhausted

  /** A lookup's result with the store state it leaves. */
  datatype Outcome = Outcome(result: Lookup, state: StoreState)

  /** The first definition whose url is `url`. */
  function FindByUrl(definitions: seq<FlowDefinition>, url: string): (r: Option<nat>)
    ensures r.Some? ==> r.value < |definitions| && definitions[r.value].url == url
    ensures r.Some? ==> forall j :: 0 <= j < r.value ==> definitions[j].url != url
    ensures r.None? <==> forall j :: 0 <= j < |definitions| ==> definitions[j].url != url
    decreases |definitions|
  {
    if definitions == [] then None
    else if definitions[0].url == url then Some(0)
    else match FindByUrl(definitions[1..], url)
      case None => None
      case Some(k) => Some(k + 1)
  }

  /** `getCachedFlowDefinitionByURL` as written: on a miss it fetches and, when a
      definition comes back, reloads the settings, appends it and saves. */
  function CachedByUrl(st: StoreState, version: string, url: string, fetches: seq<FetchOutcome>): Outcome
    decreases |fetches|, 1
  {
    var loaded := Load(st, version);
    var definitions := loaded.settings.flowDefinitions;
    match FindByUrl(definitions, url)
    case Some(i) => Outcome(Found(definitions[i]), loaded.state)
    case None =>
      var fetched := FetchByUrl(loaded.state, version, url, fetches);
      if fetched.result.Found? then
        var again := Load(fetched.state, version);
        Outcome(fetched.result, Save(again.state, again.settings.(flowDefinitions := again.settings.flowDefinitions + [fetched.result.definition])))
      else fetched
  }

  /** `getFlowDefinitionByURL`: a body that validates is the result; an invalid
      body or a failed request goes back to the cache lookup. */
  function FetchByUrl(st: StoreState, version: string, url: string, fetches: seq<FetchOutcome>): Outcome
    decreases |fetches|, 0
  {
    if fetches == [] then Outcome(Exhausted, st)
    else match fetches[0]
      case Fetched(body) =>
        if IsFlowDefinition(body) then Outcome(Found(DecodeFlowDefinition(body).value), st)
        else CachedByUrl(st, version, url, fetches[1..])
      case FetchFailed => CachedByUrl(st, version, url, fetches[1..])
  }

  /** `getCachedFlowDefinitions`: the stored definitions. */
  method GetCachedFlowDefinitions(store: Store) returns (definitions: seq<FlowDefinition>)
    modifies store
    ensures var loaded := Load(old(store.State()), store.version);
      definitions == loaded.settings.flowDefinitions && store.State() == loaded.state
  {
    var settings := store.GetSettings();
    definitions := settings.flowDefinitions;
  }

  method GetCachedFlowDefinitionByURL(store: Store, url: string, fetches: seq<FetchOutcome>) returns (r: Lookup)
    modifies store
    ensures Outcome(r, store.State()) == CachedByUrl(old(store.State()), store.version, url, fetches)
    decreases |fetches|, 1
  {
    var definitions := GetCachedFlowDefinitions(store);
    var matching := FindByUrl(definitions, url);
    if matching.Some? {
      return Found(definitions[matching.value]);
    }
    r := GetFlowDefinitionByURL(store, url, fetches);
    if r.Found? {
      var settings := store.GetSettings();
      settings := settings.(flowDefinitions := settings.flowDefinitions + [r.definition]);
      store.SaveSettings(settings);
    }
  }

  method GetFlowDefinitionByURL(store: Store, url: string, fetches: seq<FetchOutcome>) returns (r: Lookup)
    modifies store
    ensures Outcome(r, store.State()) == FetchByUrl(old(store.State()), store.version, url, fetches)
    decreases |fetches|, 0
  {
    if fetches == [] {
      return Exhausted;
    }
    match fetches[0]
    case Fetched(body) =>
      if IsFlowDefinition(body) {
        r := Found(DecodeFlowDefinition(body).value);
      } else {
        r := GetCachedFlowDefinitionByURL(store, url, fetches[1..]);
      }
    case FetchFailed =>
      r := GetCachedFlowDefinitionByURL(store, url, fetches[1..]);
  }

  // ---------------------------------------------------------------- properties

  /** Loading twice gives what loading once gave. */
  lemma LoadIdempotent(st: StoreState, version: string)
    ensures Load(Load(st, version).state, version) == Load(st, version)
  {
  }

  /** On a hit the first matching cached definition is returned, nothing is
      fetched, and the settings are not written. */
  lemma CacheHit(st: StoreState, version: string, url: string, fetches: seq<FetchOutcome>)
    requires FindByUrl(Load(st, version).settings.flowDefinitions, url).Some?
    ensures var definitions := Load(st, version).settings.flowDefinitions;
      var i := FindByUrl(definitions, url).value;
      && CachedByUrl(st, version, url, fetches) == Outcome(Found(definitions[i]), Load(st, version).state)
      && CachedByUrl(st, version, url, fetches) == CachedByUrl(st, version, url, [])
  {
  }

  /** When the answers run out nothing is appended: the store is left as the
      first load left it. */
  lemma {:induction false} ExhaustedLeavesSettings(st: StoreState, version: string, url: string, fetches: seq<FetchOutcome>)
    ensures CachedByUrl(st, version, url, fetches).result.Exhausted? ==>
      CachedByUrl(st, version, url, fetches).state == Load(st, version).state
    decreases |fetches|
  {
    var loaded := Load(st, version);
    if FindByUrl(loaded.settings.flowDefinitions, url).None? && fetches != [] {
      ExhaustedLeavesSettings(loaded.state, version, url, fetches[1..]);
      LoadIdempotent(st, version);
    }
  }

  /** An answer whose body validates as a flow definition. */
  predicate ValidAnswer(f: FetchOutcome) {
    f.Fetched? && IsFlowDefinition(f.body)
  }

  /** The index of the first answer whose body validates. */
  function FirstValidIndex(fetches: seq<FetchOutcome>): (r: Option<nat>)
    ensures r.Some? ==> r.value < |fetches| && ValidAnswer(fetches[r.value])
    ensures r.Some? ==> forall j :: 0 <= j < r.value ==> !ValidAnswer(fetches[j])
    ensures r.None? <==> forall j :: 0 <= j < |fetches| ==> !ValidAnswer(fetches[j])
    decreases |fetches|
  {
    if fetches == [] then None
    else if ValidAnswer(fetches[0]) then Some(0)
    else match FirstValidIndex(fetches[1..])
      case None => None
      case Some(k) => Some(k + 1)
  }

  /** The first answer whose body validates, read as a definition. */
  function FirstValid(fetches: seq<FetchOutcome>): (r: Lookup)
    ensures r.Found? ==>
      exists i :: 0 <= i < |fetches| && ValidAnswer(fetches[i]) &&
        DecodeFlowDefinition(fetches[i].body) == Some(r.definition) &&
        (forall j :: 0 <= j < i ==> !ValidAnswer(fetches[j]))
    ensures r.Exhausted? <==> forall i :: 0 <= i < |fetches| ==> !ValidAnswer(fetches[i])
  {
    match FirstValidIndex(fetches)
    case None => Exhausted
    case Some(i) => Found(DecodeFlowDefinition(fetches[i].body).value)
  }

  /** Skipping an answer that does not validate leaves the first valid one. */
  lemma FirstValidSkip(fetches: seq<FetchOutcome>)
    requires fetches != [] && !ValidAnswer(fetches[0])
    ensures FirstValid(fetches) == FirstValid(fetches[1..])
  {
  }

  /** On a miss, an answer that does not validate hands the lookup over to a
      cache lookup on the remaining answers, whose result is returned. */
  lemma MissSkip(st: StoreState, version: string, url: string, fetches: seq<FetchOutcome>)
    requires FindByUrl(Load(st, version).settings.flowDefinitions, url).None?
    requires fetches != [] && !ValidAnswer(fetches[0])
    ensures CachedByUrl(st, version, url, fetches).result ==
      CachedByUrl(Load(st, version).state, version, url, fetches[1..]).result
  {
  }

  /** On a miss, the definition the as-written lookup returns is the first
      answer that validates: the repeated cache checks in between never hit. */
  lemma {:induction false} MissReturnsFirstValid(st: StoreState, version: string, url: string, fetches: seq<FetchOutcome>)
    requires FindByUrl(Load(st, version).settings.flowDefinitions, url).None?
    ensures CachedByUrl(st, version, url, fetches).result == FirstValid(fetches)
    decreases |fetches|
  {
    if fetches != [] && !ValidAnswer(fetches[0]) {
      var loaded := Load(st, version);
      LoadIdempotent(st, version);
      MissReturnsFirstValid(loaded.state, version, url, fetches[1..]);
      MissSkip(st, version, url, fetches);
      FirstValidSkip(fetches);
    }
  }

  /** `k` copies of `d`. */
  function Copies(d: FlowDefinition, k: nat): (ds: seq<FlowDefinition>)
    ensures |ds| == k && forall i :: 0 <= i < k ==> ds[i] == d
  {
    if k == 0 then [] else Copies(d, k - 1) + [d]
  }

  /** `k` failed requests. */
  function Failures(k: nat): (fs: seq<FetchOutcome>)
    ensures |fs| == k && forall i :: 0 <= i < k ==> fs[i] == FetchFailed
  {
    seq(k, i => FetchFailed)
  }

  /** As written, a miss followed by `k` failed requests and then a valid one
      appends the definition `k + 1` times: every nested cache lookup that
      missed appends it once more on the way back. */
  lemma {:induction false} MissAppendsOncePerAttempt(s: Settings, data: Json, version: string, url: string, d: FlowDefinition, k: nat)
    requires FindByUrl(s.flowDefinitions, url).None?
    ensures var after := s.(flowDefinitions := s.flowDefinitions + Copies(d, k + 1));
      CachedByUrl(StoreState(Some(s), data), version, url, Failures(k) + [Fetched(EncodeFlowDefinition(d))])
        == Outcome(Found(d), StoreState(Some(after), EncodeSettings(after)))
    decreases k
  {
    var fetches := Failures(k) + [Fetched(EncodeFlowDefinition(d))];
    if k > 0 {
      MissAppendsOncePerAttempt(s, data, version, url, d, k - 1);
      assert fetches[1..] == Failures(k - 1) + [Fetched(EncodeFlowDefinition(d))];
      assert s.flowDefinitions + Copies(d, k) + [d] == s.flowDefinitions + Copies(d, k + 1);
    } else {
      FlowDefinitionRoundTrip(d);
      assert fetches == [Fetched(EncodeFlowDefinition(d))];
      assert Copies(d, 1) == [d];
    }
  }

  /** One failed request before the valid answer already gives two copies. */
  lemma OneFailureTwoCopies(s: Settings, data: Json, version: string, url: string, d: FlowDefinition)
    requires FindByUrl(s.flowDefinitions, url).None?
    ensures var out := CachedByUrl(StoreState(Some(s), data), version, url, [FetchFailed, Fetched(EncodeFlowDefinition(d))]);
      out.state.cached.Some? && out.state.cached.value.flowDefinitions == s.flowDefinitions + [d, d]
  {
    MissAppendsOncePerAttempt(s, data, version, url, d, 1);
    assert Failures(1) + [Fetched(EncodeFlowDefinition(d))] == [FetchFailed, Fetched(EncodeFlowDefinition(d))];
    assert Copies(d, 2) == [d, d];
  }

  /** The cache lookup as intended: on a miss, retry the request until a body
      validates and append that definition once. */
  function CachedByUrlOnce(st: StoreState, version: string, url: string, fetches: seq<FetchOutcome>): (out: Outcome)
    ensures var loaded := Load(st, version);
      var definitions := loaded.settings.flowDefinitions;
      && (FindByUrl(definitions, url).Some? ==> out == Outcome(Found(definitions[FindByUrl(definitions, url).value]), loaded.state))
      && (FindByUrl(definitions, url).None? && out.result.Found? ==>
            Load(out.state, version).settings == loaded.settings.(flowDefinitions := definitions + [out.result.definition]))
      && (out.result.Exhausted? ==> out.state == loaded.state)
  {
    var loaded := Load(st, version);
    var definitions := loaded.settings.flowDefinitions;
    match FindByUrl(definitions, url)
    case Some(i) => Outcome(Found(definitions[i]), loaded.state)
    case None =>
      match FirstValid(fetches)
      case Exhausted => Outcome(Exhausted, loaded.state)
      case Found(d) => Outcome(Found(d), Save(loaded.state, loaded.settings.(flowDefinitions := definitions + [d])))
  }

  /** The intended lookup returns what the as-written one returns; only the
      number of appended copies differs. */
  lemma SameResultAsWritten(st: StoreState, version: string, url: string, fetches: seq<FetchOutcome>)
    ensures CachedByUrlOnce(st, version, url, fetches).result == CachedByUrl(st, version, url, fetches).result
  {
    if FindByUrl(Load(st, version).settings.flowDefinitions, url).None? {
      MissReturnsFirstValid(st, version, url, fetches);
    }
  }
}
