/**
  What serde_json does for the concrete field types the contract core reads
  and writes: String, i64, i32, semver::Version, the ObjectMeta struct and
  HashMap<String, String>. Encoding never fails for these types; decoding
  fails (a serde error) when the node has the wrong shape or is out of range.
*/
module Codec {
  import opened Optional
  import opened Json
  import Semver

  newtype int64 = x: int | -0x8000_0000_0000_0000 <= x < 0x8000_0000_0000_0000
  newtype int32 = x: int | -0x8000_0000 <= x < 0x8000_0000

  /** The labels/annotations pair of metadata.rs; neither field has a serde default. */
  datatype ObjectMeta = ObjectMeta(labels: map<string, string>, annotations: map<string, string>)

  /** The Rust type parameter R of a Path<R>, for the types the core uses. */
  datatype Kind = TextKind | Int64Kind | Int32Kind | VersionKind | MetaKind | StringMapKind

  /** A value of one of those types. */
  datatype Typed =
    | Text(s: string)
    | Int64(n: int64)
    | Int32(m: int32)
    | Ver(v: Semver.Version)
    | Meta(meta: ObjectMeta)
    | StringMap(entries: map<string, string>)
  {
    function KindOf(): Kind {
      match this
      case Text(_) => TextKind
      case Int64(_) => Int64Kind
      case Int32(_) => Int32Kind
      case Ver(_) => VersionKind
      case Meta(_) => MetaKind
      case StringMap(_) => StringMapKind
    }
  }

  function EncodeMap(m: map<string, string>): Json {
    Obj(map k | k in m :: Str(m[k]))
  }

  /** A JSON object whose every member is a string; anything else fails. */
  function DecodeMap(j: Json): (r: Option<map<string, string>>)
    ensures r.Some? ==> j == EncodeMap(r.value)
  {
    match j
    case Obj(f) =>
      if forall k :: k in f ==> f[k].Str? then
        var m := map k | k in f :: f[k].s;
        assert f == EncodeMap(m).fields;
        Some(m)
      else None
    case _ => None
  }

  /** serde_json::to_value. A version is serialized as its text. */
  function Encode(t: Typed): Json {
    match t
    case Text(s) => Str(s)
    case Int64(n) => Int(n as int)
    case Int32(n) => Int(n as int)
    case Ver(v) => Str(Semver.Render(v))
    case Meta(m) => Obj(map["labels" := EncodeMap(m.labels), "annotations" := EncodeMap(m.annotations)])
    case StringMap(m) => EncodeMap(m)
  }

  function DecodeMeta(labels: Json, annotations: Json): Option<Typed> {
    match (DecodeMap(labels), DecodeMap(annotations))
    case (Some(l), Some(a)) => Some(Meta(ObjectMeta(l, a)))
    case _ => None
  }

  /**
    serde_json::from_value for kind `k`. Integers must fit the target width.
    A struct is read from an object holding both fields (other members are
    ignored) or from an array of exactly two elements in field order.
  */
  function Decode(k: Kind, j: Json): (r: Option<Typed>)
    ensures r.Some? ==> r.value.KindOf() == k
  {
    match k
    case TextKind => if j.Str? then Some(Text(j.s)) else None
    case Int64Kind =>
      if j.Int? && -0x8000_0000_0000_0000 <= j.i < 0x8000_0000_0000_0000 then Some(Int64(j.i as int64)) else None
    case Int32Kind =>
      if j.Int? && -0x8000_0000 <= j.i < 0x8000_0000 then Some(Int32(j.i as int32)) else None
    case VersionKind =>
      if j.Str? then
        (match Semver.Parse(j.s)
         case Some(v) => Some(Ver(v))
         case None => None)
      else None
    case MetaKind =>
      (match j
       case Obj(f) =>
         if "labels" in f && "annotations" in f then DecodeMeta(f["labels"], f["annotations"]) else None
       case Arr(a) => if |a| == 2 then DecodeMeta(a[0], a[1]) else None
       case _ => None)
    case StringMapKind =>
      (match DecodeMap(j)
       case Some(m) => Some(StringMap(m))
       case None => None)
  }

  lemma DecodeEncodeMap(m: map<string, string>)
    ensures DecodeMap(EncodeMap(m)) == Some(m)
  {
    var f := EncodeMap(m).fields;
    assert (map k | k in f :: f[k].s) == m;
  }

  /** Every value decodes back from its own encoding, as its own kind. */
  lemma DecodeEncode(t: Typed)
    ensures Decode(t.KindOf(), Encode(t)) == Some(t)
  {
    match t
    case Ver(v) => Semver.ParseRender(v);
    case Meta(m) =>
      DecodeEncodeMap(m.labels);
      DecodeEncodeMap(m.annotations);
    case StringMap(m) => DecodeEncodeMap(m);
    case _ =>
  }
}
