/** The `fetch` boundary shared by download.ts and convert.ts, as an oracle. */
module Fetch {
  import opened Wrappers
  import opened Js

  /** What a fetch resolves to: the `content-type` header (null when absent) and the body. */
  datatype Response = Response(contentType: Option<string>, body: Bytes)

  /**
    The network: the response that fetching a URL value resolves to, or
    `None` when the promise rejects (or reading the body does).
   */
  type Fetcher = Value -> Option<Response>
}
