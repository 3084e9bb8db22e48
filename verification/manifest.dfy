/**
  The manifest record schema of mod.ts: `repo` and `description` are
  required strings; `sourceUrl` (a string that must parse as a URL),
  `image` and `gif` are optional strings. Unknown keys are dropped.
 */
module Manifest {
  import opened Wrappers
  import opened Js

  const DescriptionKey := "description"
  const ImageKey := "image"
  const GifKey := "gif"

  /** A record that passed the schema. */
  datatype Repo = Repo(
    repo: string,
    description: string,
    sourceUrl: Option<string>,
    image: Option<string>,
    gif: Option<string>)

  /** The refinement of a plain optional string: none. */
  function AnyString(s: string): bool
  {
    true
  }

  /** `z.string()`: the value must be a string. */
  function RequiredString(v: Value): Option<string>
  {
    match v
    case Str(s) => Some(s)
    case _ => None
  }

  /**
    `z.string().<refinement>.optional()`: a missing value (`undefined`) is
    accepted as absent; `null` and non-strings are rejected, and so is a
    string the refinement refuses.
   */
  function OptionalString(v: Value, accept: string -> bool): Option<Option<string>>
  {
    match v
    case Undefined => Some(None)
    case Str(s) => if accept(s) then Some(Some(s)) else None
    case _ => None
  }

  /** What an optional field admits. */
  predicate OptionalOk(v: Value, accept: string -> bool)
  {
    v == Undefined || (v.Str? && accept(v.s))
  }

  /**
    The record schema. URL syntax is decided by `isUrl`, standing for the
    WHATWG URL parser the schema library calls.
   */
  function ParseRepo(v: Value, isUrl: string -> bool): (r: Option<Repo>)
    ensures r.Some? <==>
      && v.Obj?
      && Field(v.fields, RepoKey).Str?
      && Field(v.fields, DescriptionKey).Str?
      && OptionalOk(Field(v.fields, SourceUrlKey), isUrl)
      && OptionalOk(Field(v.fields, ImageKey), AnyString)
      && OptionalOk(Field(v.fields, GifKey), AnyString)
    ensures r.Some? ==>
      && r.value.repo == Field(v.fields, RepoKey).s
      && r.value.description == Field(v.fields, DescriptionKey).s
      && (r.value.sourceUrl.None? <==> Field(v.fields, SourceUrlKey) == Undefined)
      && (r.value.sourceUrl.Some? ==> Field(v.fields, SourceUrlKey) == Str(r.value.sourceUrl.value))
      && (r.value.image.None? <==> Field(v.fields, ImageKey) == Undefined)
      && (r.value.image.Some? ==> Field(v.fields, ImageKey) == Str(r.value.image.value))
      && (r.value.gif.None? <==> Field(v.fields, GifKey) == Undefined)
      && (r.value.gif.Some? ==> Field(v.fields, GifKey) == Str(r.value.gif.value))
  {
    match v
    case Obj(fields) =>
      (match (RequiredString(Field(fields, RepoKey)), RequiredString(Field(fields, DescriptionKey)),
              OptionalString(Field(fields, SourceUrlKey), isUrl),
              OptionalString(Field(fields, ImageKey), AnyString),
              OptionalString(Field(fields, GifKey), AnyString))
       case (Some(repo), Some(description), Some(sourceUrl), Some(image), Some(gif)) =>
         Some(Repo(repo, description, sourceUrl, image, gif))
       case _ => None)
    case _ => None
  }

  /** `fields` with an optional field added when it is present. */
  function WithOptional(fields: Record, key: string, o: Option<string>): Record
  {
    match o
    case None => fields
    case Some(s) => fields[key := Str(s)]
  }

  /** The JSON object a record is written as; absent fields are left out. */
  function ToValue(r: Repo): Value
  {
    var required := map[RepoKey := Str(r.repo), DescriptionKey := Str(r.description)];
    Obj(WithOptional(WithOptional(WithOptional(required, SourceUrlKey, r.sourceUrl), ImageKey, r.image), GifKey, r.gif))
  }

  /** A record whose URL is valid parses back from its JSON form unchanged. */
  lemma ParseToValue(r: Repo, isUrl: string -> bool)
    requires r.sourceUrl.Some? ==> isUrl(r.sourceUrl.value)
    ensures ParseRepo(ToValue(r), isUrl) == Some(r)
  {
  }

  /** The five keys of the record schema. */
  const SchemaKeys: set<string> := {RepoKey, DescriptionKey, SourceUrlKey, ImageKey, GifKey}

  /**
    Parsing strips unknown keys: setting a key outside the schema, to any
    value, does not change the parse.
   */
  lemma ParseIgnoresUnknownKey(fields: Record, key: string, x: Value, isUrl: string -> bool)
    requires key !in SchemaKeys
    ensures ParseRepo(Obj(fields[key := x]), isUrl) == ParseRepo(Obj(fields), isUrl)
  {
  }

  /** `z.array(schema)` with `parse` as the item schema: every item must pass, and order is kept. */
  function ParseAll<T>(items: seq<Value>, parse: Value -> Option<T>): (r: Option<seq<T>>)
    ensures r.Some? <==> forall i :: 0 <= i < |items| ==> parse(items[i]).Some?
    ensures r.Some? ==> |r.value| == |items|
    ensures r.Some? ==> forall i :: 0 <= i < |items| ==> Some(r.value[i]) == parse(items[i])
  {
    if items == [] then Some([])
    else
      match (parse(items[0]), ParseAll(items[1..], parse))
      case (Some(head), Some(tail)) =>
        assert forall i :: 1 <= i < |items| ==> items[i] == items[1..][i - 1];
        Some([head] + tail)
      case (None, _) => None
      case (_, None) =>
        assert forall i :: 1 <= i < |items| ==> items[i] == items[1..][i - 1];
        None
  }

  /** The manifest document: it must be an array of valid records. */
  function ParseManifest(v: Value, isUrl: string -> bool): (r: Option<seq<Repo>>)
    ensures r.Some? <==> v.Arr? && forall i :: 0 <= i < |v.items| ==> ParseRepo(v.items[i], isUrl).Some?
    ensures r.Some? ==> |r.value| == |v.items|
    ensures r.Some? ==> forall i :: 0 <= i < |v.items| ==> Some(r.value[i]) == ParseRepo(v.items[i], isUrl)
  {
    match v
    case Arr(items) => ParseAll(items, item => ParseRepo(item, isUrl))
    case _ => None
  }

  /** The manifest document the records are written as. */
  function ManifestDocument(repos: seq<Repo>): (doc: Value)
    ensures doc.Arr? && |doc.items| == |repos|
    ensures forall i :: 0 <= i < |repos| ==> doc.items[i] == ToValue(repos[i])
  {
    Arr(seq(|repos|, i requires 0 <= i < |repos| => ToValue(repos[i])))
  }

  /** A written manifest of valid records parses back to the same records. */
  lemma {:induction false} ParseManifestRoundTrip(repos: seq<Repo>, isUrl: string -> bool)
    requires forall i :: 0 <= i < |repos| ==> (repos[i].sourceUrl.Some? ==> isUrl(repos[i].sourceUrl.value))
    ensures ParseManifest(ManifestDocument(repos), isUrl) == Some(repos)
  {
    var doc := ManifestDocument(repos);
    forall i | 0 <= i < |repos|
      ensures ParseRepo(doc.items[i], isUrl) == Some(repos[i])
    {
      ParseToValue(repos[i], isUrl);
    }
    var r := ParseManifest(doc, isUrl);
    assert r.Some?;
    assert r.value == repos;
  }
}
