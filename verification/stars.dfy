/**
  The star lookup of mod.ts: `fetch_info` picks a token and reads
  `stargazers_count` from the GitHub API response; the main loop extends
  every manifest record with its star count, one lookup at a time with a
  300 ms wait after each, and writes the result only when every lookup
  succeeded.
 */
module Stars {
  import opened Wrappers
  import opened Js
  import opened Manifest

  const StarsKey := "stars"
  const StargazersKey := "stargazers_count"

  /** The pause after each lookup, in milliseconds. */
  const DelayMs: nat := 300

  /** A manifest record extended with its star count. */
  datatype CompleteRepo = CompleteRepo(
    repo: string,
    description: string,
    sourceUrl: Option<string>,
    image: Option<string>,
    gif: Option<string>,
    stars: int)

  /** `{...repo, stars}`. */
  function WithStars(r: Repo, stars: int): CompleteRepo
  {
    CompleteRepo(r.repo, r.description, r.sourceUrl, r.image, r.gif, stars)
  }

  /** The schema fields of an enriched record, without `stars`. */
  function Partial(c: CompleteRepo): Repo
  {
    Repo(c.repo, c.description, c.sourceUrl, c.image, c.gif)
  }

  /** The JSON object an enriched record is written as. */
  function ToCompleteValue(c: CompleteRepo): Value
  {
    var required := map[RepoKey := Str(c.repo), DescriptionKey := Str(c.description), StarsKey := Num(c.stars)];
    Obj(WithOptional(WithOptional(WithOptional(required, SourceUrlKey, c.sourceUrl), ImageKey, c.image), GifKey, c.gif))
  }

  /**
    An enriched record is its input record with exactly one field added:
    `stars` was not a field of the record, and every other field is kept.
   */
  lemma AddsOnlyStars(r: Repo, stars: int)
    ensures Partial(WithStars(r, stars)) == r
    ensures StarsKey !in ToValue(r).fields
    ensures ToCompleteValue(WithStars(r, stars)).fields == ToValue(r).fields[StarsKey := Num(stars)]
  {
  }

  /** Why a lookup throws. */
  datatype InfoError =
    | MissingToken      // neither an explicit nor an environment token
    | RequestFailed     // the fetch or the JSON decoding rejected
    | NullResponse      // the body was `null`, so reading a property throws
    | StarsNotNumber    // `stargazers_count` is not a number

  /**
    `options.token ?? env`: an explicit token wins whenever it is given,
    even the empty string, which then fails the truthiness check instead of
    falling back to the environment.
   */
  function ResolveToken(explicit: Option<string>, env: Option<string>): (r: Result<string, InfoError>)
    ensures r.Ok? ==> r.value != ""
    ensures r.Err? ==> r.error == MissingToken
    ensures explicit.Some? ==> (r.Ok? <==> explicit.value != "") && (r.Ok? ==> r.value == explicit.value)
    ensures explicit.None? ==> (r.Ok? <==> env.Some? && env.value != "") && (r.Ok? ==> r.value == env.value)
  {
    var token := match explicit case Some(t) => Some(t) case None => env;
    match token
    case Some(t) => if t == "" then Err(MissingToken) else Ok(t)
    case None => Err(MissingToken)
  }

  /**
    The GitHub API: the decoded JSON body for a repository name and a
    token, `None` when the request or the decoding rejects.
   */
  type GitHub = (string, string) -> Option<Value>

  /** `z.number().parse(json.stargazers_count)`. */
  function StarsOf(json: Value): (r: Result<int, InfoError>)
    ensures r.Ok? <==> json.Obj? && Field(json.fields, StargazersKey).Num?
    ensures r.Ok? ==> r.value == Field(json.fields, StargazersKey).n
    ensures json == Null ==> r == Err(NullResponse)
    ensures r.Err? && json != Null && json != Undefined ==> r.error == StarsNotNumber
  {
    match json
    case Undefined => Err(NullResponse)
    case Null => Err(NullResponse)
    case Obj(fields) =>
      (match Field(fields, StargazersKey)
       case Num(n) => Ok(n)
       case _ => Err(StarsNotNumber))
    case _ => Err(StarsNotNumber)
  }

  /** `fetch_info(repo, {token: explicit})` with the environment token `env`. */
  function FetchInfo(repo: string, explicit: Option<string>, env: Option<string>, api: GitHub): (r: Result<int, InfoError>)
    ensures ResolveToken(explicit, env).Err? ==> r == Err(MissingToken)
    ensures r.Ok? <==>
      && ResolveToken(explicit, env).Ok?
      && api(repo, ResolveToken(explicit, env).value).Some?
      && StarsOf(api(repo, ResolveToken(explicit, env).value).value).Ok?
    ensures r.Ok? ==> r == StarsOf(api(repo, ResolveToken(explicit, env).value).value)
    ensures ResolveToken(explicit, env).Ok? ==>
      && (api(repo, ResolveToken(explicit, env).value).None? ==> r == Err(RequestFailed))
      && (api(repo, ResolveToken(explicit, env).value).Some? ==>
            r == StarsOf(api(repo, ResolveToken(explicit, env).value).value))
  {
    match ResolveToken(explicit, env)
    case Err(e) => Err(e)
    case Ok(token) =>
      match api(repo, token)
      case None => Err(RequestFailed)
      case Some(json) => StarsOf(json)
  }

  /** What the loop does, in order: a request to the API, or a pause. */
  datatype Event = Lookup(repo: string, token: string) | Wait(ms: nat)

  /** The request `fetch_info` sends for `repo`: none when no token resolves. */
  function Sent(repo: string, env: Option<string>): seq<Event>
  {
    match ResolveToken(None, env)
    case Ok(token) => [Lookup(repo, token)]
    case Err(_) => []
  }

  /** The loop's trace and its result: the enriched records, or the error that ended it. */
  datatype EnrichRun = EnrichRun(events: seq<Event>, result: Result<seq<CompleteRepo>, InfoError>)

  /** The enrichment loop of the main block, over already parsed records. */
  function Enrich(repos: seq<Repo>, env: Option<string>, api: GitHub): (run: EnrichRun)
    ensures run.result.Ok? ==> |run.result.value| == |repos|
    ensures repos == [] ==> run.events == [] && run.result == Ok([])
    decreases |repos|
  {
    if repos == [] then EnrichRun([], Ok([]))
    else
      var head := repos[0];
      match FetchInfo(head.repo, None, env, api)
      case Err(e) => EnrichRun(Sent(head.repo, env), Err(e))
      case Ok(stars) =>
        var rest := Enrich(repos[1..], env, api);
        var events := Sent(head.repo, env) + [Wait(DelayMs)] + rest.events;
        match rest.result
        case Ok(tail) => EnrichRun(events, Ok([WithStars(head, stars)] + tail))
        case Err(e) => EnrichRun(events, Err(e))
  }

  /** The loop succeeds exactly when every lookup does. */
  lemma {:induction false} EnrichSucceedsIff(repos: seq<Repo>, env: Option<string>, api: GitHub)
    ensures Enrich(repos, env, api).result.Ok? <==>
      forall i :: 0 <= i < |repos| ==> FetchInfo(repos[i].repo, None, env, api).Ok?
    decreases |repos|
  {
    if repos != [] {
      EnrichSucceedsIff(repos[1..], env, api);
      assert forall i :: 1 <= i < |repos| ==> repos[i] == repos[1..][i - 1];
    }
  }

  /**
    Order and contents are kept: output record i is input record i with
    the star count its own lookup returned, and nothing else changed.
   */
  lemma {:induction false} EnrichExtendsEachRecord(repos: seq<Repo>, env: Option<string>, api: GitHub)
    ensures var run := Enrich(repos, env, api);
      run.result.Ok? ==>
        forall i :: 0 <= i < |repos| ==>
          && Partial(run.result.value[i]) == repos[i]
          && FetchInfo(repos[i].repo, None, env, api) == Ok(run.result.value[i].stars)
    decreases |repos|
  {
    if repos != [] {
      EnrichExtendsEachRecord(repos[1..], env, api);
      var run := Enrich(repos, env, api);
      if run.result.Ok? {
        var stars := FetchInfo(repos[0].repo, None, env, api).value;
        var tail := Enrich(repos[1..], env, api).result.value;
        assert run.result.value == [WithStars(repos[0], stars)] + tail;
        forall i | 0 <= i < |repos|
          ensures Partial(run.result.value[i]) == repos[i]
          ensures FetchInfo(repos[i].repo, None, env, api) == Ok(run.result.value[i].stars)
        {
          if i > 0 {
            assert run.result.value[i] == tail[i - 1];
            assert repos[i] == repos[1..][i - 1];
          }
        }
      }
    }
  }

  /** One lookup with `token` per record, in order, each followed by the wait. */
  function LookupsAndWaits(repos: seq<Repo>, token: string): seq<Event>
  {
    if repos == [] then []
    else [Lookup(repos[0].repo, token), Wait(DelayMs)] + LookupsAndWaits(repos[1..], token)
  }

  /** Position by position: event 2i looks up record i, event 2i + 1 is a wait. */
  lemma {:induction false} LookupsAndWaitsAt(repos: seq<Repo>, token: string)
    ensures |LookupsAndWaits(repos, token)| == 2 * |repos|
    ensures forall i :: 0 <= i < |repos| ==>
      && LookupsAndWaits(repos, token)[2 * i] == Lookup(repos[i].repo, token)
      && LookupsAndWaits(repos, token)[2 * i + 1] == Wait(DelayMs)
    decreases |repos|
  {
    if repos != [] {
      LookupsAndWaitsAt(repos[1..], token);
      var events := LookupsAndWaits(repos, token);
      var rest := LookupsAndWaits(repos[1..], token);
      forall i | 1 <= i < |repos|
        ensures events[2 * i] == Lookup(repos[i].repo, token)
        ensures events[2 * i + 1] == Wait(DelayMs)
      {
        assert events[2 * i] == rest[2 * (i - 1)];
        assert events[2 * i + 1] == rest[2 * (i - 1) + 1];
        assert repos[i] == repos[1..][i - 1];
      }
    }
  }

  /** Unfolding the expected trace of a non-empty prefix by one record. */
  lemma LookupsAndWaitsPrefix(repos: seq<Repo>, k: nat, token: string)
    requires 0 < k <= |repos|
    ensures LookupsAndWaits(repos[..k], token)
      == [Lookup(repos[0].repo, token), Wait(DelayMs)] + LookupsAndWaits(repos[1..][..k - 1], token)
  {
    assert repos[..k][1..] == repos[1..][..k - 1];
  }

  /** A successful loop's trace is exactly one lookup and one wait per record. */
  lemma {:induction false} EnrichTraceOnSuccess(repos: seq<Repo>, env: Option<string>, api: GitHub)
    requires Enrich(repos, env, api).result.Ok?
    requires repos != []
    ensures ResolveToken(None, env).Ok?
    ensures Enrich(repos, env, api).events == LookupsAndWaits(repos, ResolveToken(None, env).value)
    decreases |repos|
  {
    assert FetchInfo(repos[0].repo, None, env, api).Ok?;
    if |repos| > 1 {
      EnrichTraceOnSuccess(repos[1..], env, api);
    }
  }

  /**
    On success the trace is one lookup per record, in manifest order, each
    followed by the 300 ms wait.
   */
  lemma EnrichTrace(repos: seq<Repo>, env: Option<string>, api: GitHub)
    requires Enrich(repos, env, api).result.Ok?
    requires repos != []
    ensures ResolveToken(None, env).Ok?
    ensures var run := Enrich(repos, env, api);
      var token := ResolveToken(None, env).value;
      && |run.events| == 2 * |repos|
      && forall i :: 0 <= i < |repos| ==>
           run.events[2 * i] == Lookup(repos[i].repo, token) && run.events[2 * i + 1] == Wait(DelayMs)
  {
    EnrichTraceOnSuccess(repos, env, api);
    LookupsAndWaitsAt(repos, ResolveToken(None, env).value);
  }

  /**
    The loop stops at the first failing lookup: its error is the run's,
    every earlier record was looked up and waited for, and no later record
    is looked up.
   */
  lemma {:induction false} EnrichStopsAtFirstFailure(repos: seq<Repo>, env: Option<string>, api: GitHub, k: nat)
    requires k < |repos|
    requires FetchInfo(repos[k].repo, None, env, api).Err?
    requires forall i :: 0 <= i < k ==> FetchInfo(repos[i].repo, None, env, api).Ok?
    ensures var run := Enrich(repos, env, api);
      && run.result == Err(FetchInfo(repos[k].repo, None, env, api).error)
      && |run.events| == 2 * k + |Sent(repos[k].repo, env)|
      && run.events[2 * k..] == Sent(repos[k].repo, env)
      && (k > 0 ==>
            && ResolveToken(None, env).Ok?
            && run.events[..2 * k] == LookupsAndWaits(repos[..k], ResolveToken(None, env).value))
    decreases k
  {
    if k > 0 {
      assert forall i :: 0 <= i < k - 1 ==> repos[1..][i] == repos[i + 1];
      EnrichStopsAtFirstFailure(repos[1..], env, api, k - 1);
      var run := Enrich(repos, env, api);
      var rest := Enrich(repos[1..], env, api);
      assert FetchInfo(repos[0].repo, None, env, api).Ok?;
      var token := ResolveToken(None, env).value;
      assert Sent(repos[0].repo, env) == [Lookup(repos[0].repo, token)];
      assert run.events == [Lookup(repos[0].repo, token), Wait(DelayMs)] + rest.events;
      assert run.events[2 * k..] == rest.events[2 * (k - 1)..];
      LookupsAndWaitsPrefix(repos, k, token);
      if k == 1 {
        assert run.events[..2] == [Lookup(repos[0].repo, token), Wait(DelayMs)];
      } else {
        assert run.events[..2 * k] == [Lookup(repos[0].repo, token), Wait(DelayMs)] + rest.events[..2 * (k - 1)];
      }
    }
  }

  /** Without a token, a non-empty manifest fails before any request is sent. */
  lemma EnrichWithoutToken(repos: seq<Repo>, env: Option<string>, api: GitHub)
    requires ResolveToken(None, env).Err?
    requires repos != []
    ensures Enrich(repos, env, api) == EnrichRun([], Err(MissingToken))
  {
  }

  /** What the main block ends with: its trace and the document it writes, if any. */
  datatype ScriptRun = ScriptRun(events: seq<Event>, written: Option<Value>)

  /** The enriched records as the array `JSON.stringify` writes. */
  function ToDocument(complete: seq<CompleteRepo>): Value
  {
    Arr(seq(|complete|, i requires 0 <= i < |complete| => ToCompleteValue(complete[i])))
  }

  /**
    The main block: parse the manifest (a failure throws before any
    request), enrich it, and write the result only when every lookup
    succeeded.
   */
  function EnrichManifest(manifest: Value, env: Option<string>, api: GitHub, isUrl: string -> bool): (run: ScriptRun)
    ensures ParseManifest(manifest, isUrl).None? ==> run == ScriptRun([], None)
    ensures ParseManifest(manifest, isUrl).Some? ==>
      && run.events == Enrich(ParseManifest(manifest, isUrl).value, env, api).events
      && (run.written.Some? <==> Enrich(ParseManifest(manifest, isUrl).value, env, api).result.Ok?)
    ensures run.written.Some? ==>
      && ParseManifest(manifest, isUrl).Some?
      && Enrich(ParseManifest(manifest, isUrl).value, env, api).result.Ok?
  {
    match ParseManifest(manifest, isUrl)
    case None => ScriptRun([], None)
    case Some(repos) =>
      var enriched := Enrich(repos, env, api);
      match enriched.result
      case Ok(complete) => ScriptRun(enriched.events, Some(ToDocument(complete)))
      case Err(_) => ScriptRun(enriched.events, None)
  }

  /**
    `written` is what the script writes for manifest item `item`: the item
    passed the schema, its lookup succeeded, and the object is the parsed
    record's JSON with `stars` set to the looked-up count.
   */
  predicate WrittenFor(item: Value, written: Value, env: Option<string>, api: GitHub, isUrl: string -> bool)
  {
    && ParseRepo(item, isUrl).Some?
    && FetchInfo(ParseRepo(item, isUrl).value.repo, None, env, api).Ok?
    && written == Obj(ToValue(ParseRepo(item, isUrl).value).fields[
         StarsKey := Num(FetchInfo(ParseRepo(item, isUrl).value.repo, None, env, api).value)])
  }

  /**
    The written document has one object per manifest item, in order, each
    the parsed item's JSON form with only `stars` added.
   */
  lemma EnrichManifestWritesStars(manifest: Value, env: Option<string>, api: GitHub, isUrl: string -> bool, doc: Value)
    requires EnrichManifest(manifest, env, api, isUrl).written == Some(doc)
    ensures manifest.Arr? && doc.Arr? && |doc.items| == |manifest.items|
    ensures forall i :: 0 <= i < |manifest.items| ==> WrittenFor(manifest.items[i], doc.items[i], env, api, isUrl)
  {
    var repos := ParseManifest(manifest, isUrl).value;
    var complete := Enrich(repos, env, api).result.value;
    EnrichExtendsEachRecord(repos, env, api);
    assert doc == ToDocument(complete);
    forall i | 0 <= i < |manifest.items|
      ensures WrittenFor(manifest.items[i], doc.items[i], env, api, isUrl)
    {
      AddsOnlyStars(repos[i], complete[i].stars);
      assert complete[i] == WithStars(repos[i], complete[i].stars);
    }
  }
}
