# built-with-anywidget asset scripts, modelled in Dafny

This project models the decision logic of three small Deno scripts. Together they keep the
catalogue of projects built with anywidget:

- **download.ts** walks the manifest. For every entry that has a `sourceUrl`, it fetches the entry's
  `imageUrl` and parses the response into an asset `{repo, bytes, mimeType}`. The content type must
  be one of five literals, and `application/octet-stream` is rewritten to `image/gif`.
- **convert.ts** looks for the first entry whose `imageUrl` answers with exactly `image/gif`. It asks
  the image decoder for the page count (0 when the decoder reports none) and extracts one page, the
  middle one, `floor(pages / 2)`.
- **mod.ts** validates the manifest against its record schema. It then looks up each repository's
  GitHub star count, one request at a time with a 300 ms pause after each, and writes the manifest
  extended with `stars`.

The network, the image decoder, the process environment and URL syntax are parameters: total
functions the model calls but does not define.

- `Fetch.Fetcher` maps a URL value to a response (content type and body) or to a rejection.
- `Convert.Decoder` maps bytes to metadata with an optional page count, or to a rejection.
- `Stars.GitHub` maps a repository name and a token to a decoded JSON body, or to a rejection.
- The `GITHUB_TOKEN` environment variable is an `Option<string>` argument.
- URL validation is an `isUrl: string -> bool` argument.

Effects appear as traces in the results: the URLs handed to fetch, the assets logged, and the
lookups and waits.

Modules: `Wrappers` (Option/Result), `Js` (JSON values, truthiness, property reads), `Fetch` (the
fetch boundary), `MimeTypes` and `Download` (download.ts), `Convert` (convert.ts), `Manifest` and
`Stars` (mod.ts).

Behaviour worth knowing before reading the contracts:

- A rejected fetch, a failed schema parse or a failed star lookup throws out of the top-level loop
  and ends the run. The model stops the run there.
- download.ts keeps the four image type strings distinct, so `MimeTypes.Mime` has four members.
- download.ts tests `sourceUrl` to decide whether to fetch, but fetches `imageUrl`. The model keeps
  this exactly as written; see `Download.DownloadFetchesImageUrlNotSourceUrl`.

## Model

| member | source | states |
|---|---|---|
| MimeTypes.ParseDeclared | download.ts:7-12 | the enum check accepts a header exactly when it is one of the five literals, and a missing (null) header is rejected |
| MimeTypes.Rewrite | download.ts:13-18 | the transform turns `application/octet-stream` into GIF and leaves the other four literals' names unchanged |
| MimeTypes.Normalise | download.ts:7-18 | rejected exactly when the header is missing or outside the five literals; octet-stream becomes `image/gif`; each image type passes through unchanged; a result is never octet-stream |
| MimeTypes.NormaliseIdempotent | download.ts:13-18 | normalising the written form of a normalised type gives the same type back |
| MimeTypes.NormalisePassesImagesThrough | download.ts:7-11 | each of `image/gif`, `image/png`, `image/jpeg`, `image/svg+xml` normalises to a type with the same name |
| Download.ParseAsset | download.ts:26-30 | the parse succeeds iff `repo` is a string and the content type normalises; `repo` and the body bytes are carried into the asset unchanged, with the normalised type |
| Download.DownloadAll | download.ts:23-32 | a completed run makes one request and logs one asset per non-skipped entry; a failed run stops after the failing request, with one more request than logged assets |
| Download.DownloadRequestsImageUrls | download.ts:24-25 | the k-th request is the `imageUrl` of the k-th entry that has a truthy `sourceUrl`, in manifest order |
| Download.DownloadLogsParsedResponses | download.ts:25-31 | the k-th logged asset is the schema parse of the response to the k-th request, for the k-th non-skipped entry |
| Download.DownloadStopsAtFailure | download.ts:25-30 | a failed run stops at the first non-skipped entry not logged, and that entry's fetch rejected or its response failed the schema with the run's error |
| Download.DownloadSkipsUnsourced | download.ts:24 | when no entry has a `sourceUrl`, nothing is fetched and nothing is logged |
| Download.DownloadIgnoresSkipped | download.ts:24 | adding an entry without a `sourceUrl` in front leaves the whole run unchanged, so no fetch happens for it |
| Download.DownloadFetchesImageUrlNotSourceUrl | download.ts:24-25 | for any entry and any entries after it: an entry with a `sourceUrl` but no `imageUrl` makes the first request go to `undefined`; an entry without a `sourceUrl` leaves the whole run as if it were absent, even when it has an `imageUrl` |
| Convert.FindFirstGif | convert.ts:4-19 | a found entry has a truthy `imageUrl` whose response is exactly `image/gif`, and its body is kept; a rejection is reported at the entry whose fetch rejected; every earlier entry was skipped or fetched as a non-GIF; the requests are the truthy `imageUrl`s up to and including the stopping entry and none after it |
| Convert.RepresentativePage | convert.ts:30 | the page p satisfies 2p <= pages < 2p + 2 (floor of half); it is below `pages` when there is a page, and 0 for 0 or 1 pages |
| Convert.ExtractFrame | convert.ts:21-31 | when no GIF was found, reading `.buffer` of the undefined `gif` throws; a decoder rejection fails; otherwise exactly one page of the GIF's own bytes is extracted at the middle of the page count, and a missing count gives page 0 |
| Convert.ConvertFirstGif | convert.ts:4-31 | the search stops at the first entry whose fetch rejects (failing the run) or whose response is exactly `image/gif` (extracting one page from its bytes); every entry before the stopping one, and every entry when nothing is found, was passed over, and then the run fails with no image; nothing after the stopping entry is fetched |
| Manifest.ParseRepo | mod.ts:5-11 | a value is accepted iff it is an object whose `repo` and `description` are strings, whose `sourceUrl` is absent or a valid URL string, and whose `image` and `gif` are absent or strings; all five accepted fields are copied unchanged and an absent field stays absent |
| Manifest.ParseToValue | mod.ts:5-11 | a record with a valid URL, written as JSON, parses back to itself |
| Manifest.ParseIgnoresUnknownKey | mod.ts:5-11 | setting any key outside the five schema keys, to any value, leaves the parse unchanged: unknown keys are dropped |
| Manifest.ParseAll | mod.ts:41-43 | the array parse succeeds iff every item passes the item schema; on success item i of the result is the parse of input item i, so length and order are kept |
| Manifest.ParseManifest | mod.ts:41-43 | the manifest must be an array of valid records; the parsed records correspond item by item |
| Manifest.ParseManifestRoundTrip | mod.ts:41-43 | a written manifest of records with valid URLs parses back to the same records |
| Stars.ResolveToken | mod.ts:19-22 | an explicit token takes precedence over the environment; an empty explicit token fails without falling back; with no explicit token the environment token is used; no token means MissingToken |
| Stars.StarsOf | mod.ts:35 | succeeds iff the body is an object whose `stargazers_count` is a number, and returns that number; a null body throws on the property read, and any other failure is the number check |
| Stars.FetchInfo | mod.ts:15-37 | fails with MissingToken when no token resolves; with a token, a failed request gives RequestFailed and a response gives exactly what its body's star count yields; succeeds iff a token resolves, the request succeeds and the body holds a numeric star count, which it returns |
| Stars.AddsOnlyStars | mod.ts:48 | an enriched record's JSON is its input record's JSON with one new key `stars`, absent before; the other fields are unchanged |
| Stars.Enrich | mod.ts:45-50 | on success the output has one record per input record; an empty manifest makes no lookups and yields an empty list |
| Stars.EnrichSucceedsIff | mod.ts:46-48 | the loop succeeds iff the lookup of every record succeeds |
| Stars.EnrichExtendsEachRecord | mod.ts:45-50 | output record i is input record i, unchanged, plus the star count returned by record i's own lookup |
| Stars.LookupsAndWaitsAt | mod.ts:46-49 | in the expected trace, event 2i looks up record i and event 2i+1 is the 300 ms wait |
| Stars.EnrichTraceOnSuccess | mod.ts:46-49 | a successful loop's trace is one lookup and one wait per record, in manifest order |
| Stars.EnrichTrace | mod.ts:46-49 | a successful loop issues one lookup per record, in manifest order, each followed by a 300 ms wait, with the resolved token |
| Stars.EnrichStopsAtFirstFailure | mod.ts:46-49 | the run fails with the first failing lookup's error; the events before it are exactly one lookup and one wait per earlier record, in order; nothing after it is requested |
| Stars.EnrichWithoutToken | mod.ts:19-22 | without a token, a non-empty manifest fails with MissingToken before any request |
| Stars.EnrichManifest | mod.ts:39-56 | an invalid manifest ends the run before any request and writes nothing; for a valid one the trace is the enrichment loop's trace, and a document is written exactly when every lookup succeeded |
| Stars.EnrichManifestWritesStars | mod.ts:45-55 | the written document has one object per manifest item, in order: the parsed item's JSON with only `stars` added |

## Left out

- HTTP itself: headers, the API version, the `Accept` header and resolving the URL against `https://api.github.com/repos/` (mod.ts:24-31). Fetching is an oracle on the repository name and the token.
- The image library (convert.ts:22-23, 28-32; download.ts:2): decoding, encoding and `toFile("output.png")`. Only the page-count input and the extraction options `{pages: 1, page}` are modelled.
- File reads and writes and JSON text (mod.ts:40-43, 52-55; convert.ts:2; download.ts:21). The parsed JSON is an input value, and the written document is a result value.
- The 300 ms delay (mod.ts:13, 49) is a `Wait(300)` event in the trace, not a time.
- URL syntax of `sourceUrl` (mod.ts:8) is the `isUrl` parameter. It stands for the URL parser used by the schema library.
- The `console.log` of each asset (download.ts:31) is the `logged` sequence of the run.
- Download.DownloadAll: manifest entries are JSON objects. A `null` element throws on the property read, and any other non-object element is skipped; neither is modelled. The same holds for `Convert.FindFirstGif`.
- The top level of the manifest in download.ts and convert.ts (download.ts:21-23, convert.ts:2-5) is modelled as an array of entries. A non-array top level is not modelled: an object, number or `null` throws at the loop before any fetch, and a string is iterated character by character with every character skipped.
- Stars.StarsOf: numbers are unbounded integers. JSON fractions and floating-point rounding of star counts are not modelled.
