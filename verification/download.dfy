/**
  download.ts: for every manifest entry that has a `sourceUrl`, fetch the
  entry's `imageUrl` and parse the response into an asset, logging each one.
  A rejected fetch or a failed parse throws and ends the script.
 */
module Download {
  import opened Wrappers
  import opened Js
  import opened MimeTypes
  import opened Fetch

  /** A parsed asset: the repository name, the body bytes and the normalised type. */
  datatype Asset = Asset(repo: string, bytes: Bytes, mimeType: Mime)

  /** Why the script stops. */
  datatype DownloadError = FetchRejected | InvalidAsset

  /** One run of the script: the URLs handed to fetch, the assets logged, and how it ended. */
  datatype DownloadRun = DownloadRun(requests: seq<Value>, logged: seq<Asset>, failure: Option<DownloadError>)

  /** The skip rule: an entry whose `sourceUrl` is falsy is passed over. */
  predicate HasSource(entry: Record)
  {
    Truthy(Field(entry, SourceUrlKey))
  }

  /**
    The schema parse of `{...entry, mimeType, bytes}`: the spread's own
    `mimeType` and `bytes` are overwritten, so only `entry.repo` is read
    from the entry; unknown keys are dropped.
   */
  function ParseAsset(entry: Record, response: Response): (r: Result<Asset, DownloadError>)
    ensures r.Ok? <==> Field(entry, RepoKey).Str? && Normalise(response.contentType).Some?
    ensures r.Ok? ==> r.value.repo == Field(entry, RepoKey).s
    ensures r.Ok? ==> r.value.bytes == response.body
    ensures r.Ok? ==> Some(r.value.mimeType) == Normalise(response.contentType)
    ensures r.Err? ==> r.error == InvalidAsset
  {
    match (Field(entry, RepoKey), Normalise(response.contentType))
    case (Str(repo), Some(mime)) => Ok(Asset(repo, response.body, mime))
    case _ => Err(InvalidAsset)
  }

  /** The entries the loop does not skip, in manifest order. */
  function Sourced(entries: seq<Record>): (r: seq<Record>)
    ensures |r| <= |entries|
    ensures forall e :: e in r ==> HasSource(e)
  {
    if entries == [] then []
    else if HasSource(entries[0]) then [entries[0]] + Sourced(entries[1..])
    else Sourced(entries[1..])
  }

  /**
    The loop. Note that the guard tests `sourceUrl` while the fetch is given
    `imageUrl`, which is kept here as the script has it.
   */
  function DownloadAll(entries: seq<Record>, fetch: Fetcher): (run: DownloadRun)
    ensures run.failure.None? ==> |run.logged| == |run.requests| == |Sourced(entries)|
    ensures run.failure.Some? ==> |run.logged| + 1 == |run.requests| <= |Sourced(entries)|
  {
    if entries == [] then DownloadRun([], [], None)
    else if !HasSource(entries[0]) then DownloadAll(entries[1..], fetch)
    else
      var url := Field(entries[0], ImageUrlKey);
      match fetch(url)
      case None => DownloadRun([url], [], Some(FetchRejected))
      case Some(response) =>
        match ParseAsset(entries[0], response)
        case Err(e) => DownloadRun([url], [], Some(e))
        case Ok(asset) =>
          var rest := DownloadAll(entries[1..], fetch);
          DownloadRun([url] + rest.requests, [asset] + rest.logged, rest.failure)
  }

  /** The k-th non-skipped entry was fetched at its `imageUrl` and parsed into `asset`. */
  predicate ParsedFrom(entry: Record, fetch: Fetcher, url: Value, asset: Asset)
  {
    && url == Field(entry, ImageUrlKey)
    && fetch(url).Some?
    && ParseAsset(entry, fetch(url).value) == Ok(asset)
  }

  /** Every request goes, in manifest order, to the `imageUrl` of a non-skipped entry. */
  lemma {:induction false} DownloadRequestsImageUrls(entries: seq<Record>, fetch: Fetcher)
    ensures var run := DownloadAll(entries, fetch);
      forall k :: 0 <= k < |run.requests| ==> run.requests[k] == Field(Sourced(entries)[k], ImageUrlKey)
    decreases |entries|
  {
    if entries == [] {
    } else if !HasSource(entries[0]) {
      DownloadRequestsImageUrls(entries[1..], fetch);
    } else {
      var url := Field(entries[0], ImageUrlKey);
      var src := Sourced(entries);
      assert src == [entries[0]] + Sourced(entries[1..]);
      if fetch(url).Some? && ParseAsset(entries[0], fetch(url).value).Ok? {
        DownloadRequestsImageUrls(entries[1..], fetch);
        var rest := DownloadAll(entries[1..], fetch);
        assert DownloadAll(entries, fetch).requests == [url] + rest.requests;
      }
    }
  }

  /** Every logged asset is the parse of the response to the matching request. */
  lemma {:induction false} DownloadLogsParsedResponses(entries: seq<Record>, fetch: Fetcher)
    ensures var run := DownloadAll(entries, fetch);
      forall k :: 0 <= k < |run.logged| ==>
        k < |run.requests| && ParsedFrom(Sourced(entries)[k], fetch, run.requests[k], run.logged[k])
    decreases |entries|
  {
    if entries == [] {
    } else if !HasSource(entries[0]) {
      DownloadLogsParsedResponses(entries[1..], fetch);
    } else {
      var url := Field(entries[0], ImageUrlKey);
      var src := Sourced(entries);
      assert src == [entries[0]] + Sourced(entries[1..]);
      if fetch(url).Some? && ParseAsset(entries[0], fetch(url).value).Ok? {
        DownloadLogsParsedResponses(entries[1..], fetch);
        var run := DownloadAll(entries, fetch);
        var rest := DownloadAll(entries[1..], fetch);
        assert run.requests == [url] + rest.requests;
        assert run.logged == [ParseAsset(entries[0], fetch(url).value).value] + rest.logged;
        forall k | 0 <= k < |run.logged|
          ensures k < |run.requests| && ParsedFrom(src[k], fetch, run.requests[k], run.logged[k])
        {
          if k == 0 {
            assert ParsedFrom(entries[0], fetch, url, run.logged[0]);
          } else {
            assert src[k] == Sourced(entries[1..])[k - 1];
            assert run.requests[k] == rest.requests[k - 1];
            assert run.logged[k] == rest.logged[k - 1];
          }
        }
      }
    }
  }

  /** Handling `entry` ends the run with `error`: its fetch rejected, or its response failed the schema. */
  predicate FailsWith(entry: Record, fetch: Fetcher, error: DownloadError)
  {
    match fetch(Field(entry, ImageUrlKey))
    case None => error == FetchRejected
    case Some(response) => ParseAsset(entry, response) == Err(error)
  }

  /**
    A failed run stops at the first non-skipped entry that was not logged,
    and that entry's fetch or parse is what failed.
   */
  lemma {:induction false} DownloadStopsAtFailure(entries: seq<Record>, fetch: Fetcher)
    ensures var run := DownloadAll(entries, fetch);
      run.failure.Some? ==>
        |run.logged| < |Sourced(entries)| && FailsWith(Sourced(entries)[|run.logged|], fetch, run.failure.value)
    decreases |entries|
  {
    if entries == [] {
    } else if !HasSource(entries[0]) {
      DownloadStopsAtFailure(entries[1..], fetch);
    } else {
      var url := Field(entries[0], ImageUrlKey);
      var src := Sourced(entries);
      assert src == [entries[0]] + Sourced(entries[1..]);
      if fetch(url).Some? && ParseAsset(entries[0], fetch(url).value).Ok? {
        DownloadStopsAtFailure(entries[1..], fetch);
        var rest := DownloadAll(entries[1..], fetch);
        assert DownloadAll(entries, fetch).failure == rest.failure;
        assert |DownloadAll(entries, fetch).logged| == 1 + |rest.logged|;
      }
    }
  }

  /** A manifest in which no entry has a `sourceUrl` triggers no fetch and logs nothing. */
  lemma {:induction false} DownloadSkipsUnsourced(entries: seq<Record>, fetch: Fetcher)
    requires forall i :: 0 <= i < |entries| ==> !HasSource(entries[i])
    ensures DownloadAll(entries, fetch) == DownloadRun([], [], None)
    decreases |entries|
  {
    if entries != [] {
      DownloadSkipsUnsourced(entries[1..], fetch);
    }
  }

  /** Skipped entries do not change the run: prepending one leaves it as it was. */
  lemma DownloadIgnoresSkipped(entry: Record, entries: seq<Record>, fetch: Fetcher)
    requires !HasSource(entry)
    ensures DownloadAll([entry] + entries, fetch) == DownloadAll(entries, fetch)
  {
  }

  /**
    The guard and the fetch read different fields. An entry with a
    `sourceUrl` but no `imageUrl` is fetched at `undefined`, whatever follows
    it; an entry with an `imageUrl` but no `sourceUrl` is never fetched and
    leaves the run as if it were absent.
   */
  lemma DownloadFetchesImageUrlNotSourceUrl(entry: Record, rest: seq<Record>, fetch: Fetcher)
    ensures HasSource(entry) && ImageUrlKey !in entry ==>
      var run := DownloadAll([entry] + rest, fetch);
      |run.requests| > 0 && run.requests[0] == Undefined
    ensures SourceUrlKey !in entry ==> DownloadAll([entry] + rest, fetch) == DownloadAll(rest, fetch)
  {
  }
}
