/**
  The content-type field of the asset schema in download.ts: an enum of five
  literal strings followed by a transform that rewrites the generic binary
  type to `image/gif`.
 */
module MimeTypes {
  import opened Wrappers

  const GifType := "image/gif"
  const PngType := "image/png"
  const JpegType := "image/jpeg"
  const SvgType := "image/svg+xml"
  const OctetStreamType := "application/octet-stream"

  /** The five literals the enum accepts, compared by exact string equality. */
  const Accepted: set<string> := {GifType, PngType, JpegType, SvgType, OctetStreamType}

  /** The four image types a parsed asset can carry after the transform. */
  datatype Mime = Gif | Png | Jpeg | Svg

  /** The five members of the enum, before the transform. */
  datatype Declared = DeclaredGif | DeclaredPng | DeclaredJpeg | DeclaredSvg | OctetStream

  /** The string a normalised type is written as. */
  function Name(m: Mime): string
  {
    match m
    case Gif => GifType
    case Png => PngType
    case Jpeg => JpegType
    case Svg => SvgType
  }

  /** The string literal of an enum member. */
  function DeclaredName(d: Declared): string
  {
    match d
    case DeclaredGif => GifType
    case DeclaredPng => PngType
    case DeclaredJpeg => JpegType
    case DeclaredSvg => SvgType
    case OctetStream => OctetStreamType
  }

  /**
    The enum check on the `content-type` header; a missing header (`null`)
    is rejected like any other value outside the enum.
   */
  function ParseDeclared(header: Option<string>): (r: Option<Declared>)
    ensures r.Some? <==> header.Some? && header.value in Accepted
    ensures r.Some? ==> DeclaredName(r.value) == header.value
  {
    if header == Some(GifType) then Some(DeclaredGif)
    else if header == Some(PngType) then Some(DeclaredPng)
    else if header == Some(JpegType) then Some(DeclaredJpeg)
    else if header == Some(SvgType) then Some(DeclaredSvg)
    else if header == Some(OctetStreamType) then Some(OctetStream)
    else None
  }

  /** The transform: the generic binary type becomes a GIF, the rest keep their name. */
  function Rewrite(d: Declared): (m: Mime)
    ensures d == OctetStream ==> m == Gif
    ensures d != OctetStream ==> Name(m) == DeclaredName(d)
  {
    match d
    case DeclaredGif => Gif
    case DeclaredPng => Png
    case DeclaredJpeg => Jpeg
    case DeclaredSvg => Svg
    case OctetStream => Gif
  }

  /** Enum check followed by the transform: the parsed `mimeType` of an asset. */
  function Normalise(header: Option<string>): (r: Option<Mime>)
    ensures r.None? <==> header.None? || header.value !in Accepted
    ensures header == Some(OctetStreamType) ==> r == Some(Gif)
    ensures forall m: Mime :: header == Some(Name(m)) ==> r == Some(m)
    ensures r.Some? ==> Name(r.value) in Accepted && Name(r.value) != OctetStreamType
  {
    match ParseDeclared(header)
    case None => None
    case Some(d) => Some(Rewrite(d))
  }

  /** Normalising the written form of an already normalised type gives it back. */
  lemma NormaliseIdempotent(header: Option<string>)
    requires Normalise(header).Some?
    ensures Normalise(Some(Name(Normalise(header).value))) == Normalise(header)
  {
  }

  /** Every accepted header other than the generic binary type is its own normal form. */
  lemma NormalisePassesImagesThrough(header: Option<string>)
    requires header.Some? && header.value in Accepted - {OctetStreamType}
    ensures Normalise(header).Some? && Name(Normalise(header).value) == header.value
  {
  }
}
