/**
  convert.ts: find the first manifest entry whose `imageUrl` serves a GIF,
  then ask the image decoder for its page count and extract the single
  middle page as a still image.
 */
module Convert {
  import opened Wrappers
  import opened Js
  import opened MimeTypes
  import opened Fetch

  /** The search fetches an entry only when its `imageUrl` is truthy. */
  predicate HasImage(entry: Record)
  {
    Truthy(Field(entry, ImageUrlKey))
  }

  /**
    The search's test is strict equality with `image/gif`: a missing header
    or the generic binary type does not match.
   */
  predicate IsGifResponse(response: Response)
  {
    response.contentType == Some(GifType)
  }

  /** An entry the search moved past: skipped, or fetched and not a GIF. */
  predicate PassedOver(entry: Record, fetch: Fetcher)
  {
    HasImage(entry) ==>
      var response := fetch(Field(entry, ImageUrlKey));
      response.Some? && !IsGifResponse(response.value)
  }

  /** The search stops at this entry: its `imageUrl` answered with exactly `image/gif` and `buffer`. */
  predicate GifAt(entry: Record, fetch: Fetcher, buffer: Bytes)
  {
    HasImage(entry) && fetch(Field(entry, ImageUrlKey)) == Some(Response(Some(GifType), buffer))
  }

  /** The fetch of this entry's `imageUrl` rejected, which ends the script. */
  predicate RejectedAt(entry: Record, fetch: Fetcher)
  {
    HasImage(entry) && fetch(Field(entry, ImageUrlKey)).None?
  }

  /** The URLs the search fetches when it visits all of `entries`, in order. */
  function ImageUrls(entries: seq<Record>): (r: seq<Value>)
    ensures |r| <= |entries|
  {
    if entries == [] then []
    else
      var last := entries[|entries| - 1];
      ImageUrls(entries[..|entries| - 1]) + (if HasImage(last) then [Field(last, ImageUrlKey)] else [])
  }

  /**
    Where the search stopped: at the GIF found at `index` (with its body),
    after every entry with nothing found, or at the fetch that rejected.
   */
  datatype Search = Found(index: nat, buffer: Bytes) | NotFound | Rejected(index: nat)

  /** How many entries the search visited. */
  function Visited(outcome: Search, total: nat): nat
  {
    if outcome.NotFound? then total else outcome.index + 1
  }

  /** The loop with its `break`: the first GIF, and nothing after it is fetched. */
  method FindFirstGif(entries: seq<Record>, fetch: Fetcher) returns (requests: seq<Value>, outcome: Search)
    ensures outcome.Found? ==> outcome.index < |entries| && GifAt(entries[outcome.index], fetch, outcome.buffer)
    ensures outcome.Rejected? ==> outcome.index < |entries| && RejectedAt(entries[outcome.index], fetch)
    ensures forall i :: 0 <= i < |entries| && (outcome.NotFound? || i < outcome.index) ==> PassedOver(entries[i], fetch)
    ensures Visited(outcome, |entries|) <= |entries|
    ensures requests == ImageUrls(entries[..Visited(outcome, |entries|)])
  {
    requests := [];
    var i := 0;
    while i < |entries|
      invariant 0 <= i <= |entries|
      invariant requests == ImageUrls(entries[..i])
      invariant forall j :: 0 <= j < i ==> PassedOver(entries[j], fetch)
    {
      var entry := entries[i];
      assert entries[..i + 1][..i] == entries[..i];
      if HasImage(entry) {
        var url := Field(entry, ImageUrlKey);
        requests := requests + [url];
        match fetch(url)
        case None =>
          outcome := Rejected(i);
          return;
        case Some(response) =>
          if IsGifResponse(response) {
            outcome := Found(i, response.body);
            return;
          }
      }
      i := i + 1;
    }
    assert entries[..i] == entries;
    outcome := NotFound;
  }

  /** What the decoder reports about an image: its page count, when it knows one. */
  datatype Metadata = Metadata(pages: Option<nat>)

  /** The image decoder's metadata call, `None` when it rejects the bytes. */
  type Decoder = Bytes -> Option<Metadata>

  /** The decoder input and options `{pages, page}` of the extraction. */
  datatype Extraction = Extraction(input: Bytes, pages: nat, page: nat)

  /** Exactly one page is extracted. */
  const ExtractedPages: nat := 1

  /** Why convert.ts stops without an image. */
  datatype ConvertError = FetchFailed | NoGif | DecodeFailed

  /** `meta.pages ?? 0`: an unknown page count counts as zero. */
  function PageCount(meta: Metadata): nat
  {
    match meta.pages
    case None => 0
    case Some(n) => n
  }

  /** `Math.floor(pages / 2)`: the middle page, always a valid index when there is a page. */
  function RepresentativePage(pages: nat): (page: nat)
    ensures 2 * page <= pages < 2 * page + 2
    ensures pages >= 1 ==> page < pages
    ensures pages <= 1 ==> page == 0
  {
    pages / 2
  }

  /**
    The frame step. When no GIF was found, reading `.buffer` of the
    undefined `gif` throws; otherwise the middle page of the decoder's count is
    extracted from the GIF's own bytes.
   */
  function ExtractFrame(gif: Option<Bytes>, decode: Decoder): (r: Result<Extraction, ConvertError>)
    ensures gif.None? ==> r == Err(NoGif)
    ensures gif.Some? && decode(gif.value).None? ==> r == Err(DecodeFailed)
    ensures r.Ok? <==> gif.Some? && decode(gif.value).Some?
    ensures r.Ok? ==> r.value.input == gif.value && r.value.pages == 1
    ensures r.Ok? ==>
      var count := PageCount(decode(gif.value).value);
      2 * r.value.page <= count < 2 * r.value.page + 2
    ensures r.Ok? && decode(gif.value).value.pages.None? ==> r.value.page == 0
  {
    match gif
    case None => Err(NoGif)
    case Some(bytes) =>
      match decode(bytes)
      case None => Err(DecodeFailed)
      case Some(meta) => Ok(Extraction(bytes, ExtractedPages, RepresentativePage(PageCount(meta))))
  }

  /** The whole script: search, then extract a frame of what was found. */
  method ConvertFirstGif(entries: seq<Record>, fetch: Fetcher, decode: Decoder)
    returns (requests: seq<Value>, search: Search, r: Result<Extraction, ConvertError>)
    ensures search.Rejected? ==> r == Err(FetchFailed)
    ensures search.NotFound? ==> r == Err(NoGif)
    ensures search.Found? ==> search.index < |entries| && GifAt(entries[search.index], fetch, search.buffer)
    ensures search.Rejected? ==> search.index < |entries| && RejectedAt(entries[search.index], fetch)
    ensures forall i :: 0 <= i < |entries| && (search.NotFound? || i < search.index) ==> PassedOver(entries[i], fetch)
    ensures search.Found? ==> r == ExtractFrame(Some(search.buffer), decode)
    ensures r.Ok? ==> search.Found? && r.value.input == search.buffer && r.value.pages == 1
    ensures Visited(search, |entries|) <= |entries|
    ensures requests == ImageUrls(entries[..Visited(search, |entries|)])
  {
    requests, search := FindFirstGif(entries, fetch);
    match search
    case Rejected(_) =>
      r := Err(FetchFailed);
    case NotFound =>
      r := ExtractFrame(None, decode);
    case Found(_, buffer) =>
      r := ExtractFrame(Some(buffer), decode);
  }
}
