/**
  Typed access to a labels/annotations metadata block. Writing skips an empty
  map, so that "empty" and "absent" stay indistinguishable to a later diff.
*/
module MetadataPatch {
  import opened Optional
  import opened Json
  import Decimal
  import opened Codec
  import opened Types

  /** A Path<ObjectMeta>: the kind is fixed by the Rust type. */
  type MetaPath = p: Path | p.kind == MetaKind witness Path([], MetaKind)

  datatype Metadata = Metadata(path: MetaPath) {

    /** Metadata::path: the base pointer given to Metadata::new. */
    function Base(): (r: Pointer)
      ensures r == path.ptr
    {
      path.ptr
    }

    /**
      The pointer Metadata::set writes labels to. The source clones the base
      pointer and calls push_front("labels"), which puts the token FIRST.
    */
    function LabelsPath(): Path {
      Path(["labels"] + Base(), StringMapKind)
    }

    function AnnotationsPath(): Path {
      Path(["annotations"] + Base(), StringMapKind)
    }

    /** Metadata::get: the base path read as an ObjectMeta. */
    function Get(data: Json): (r: Result<ObjectMeta>)
      ensures r == Err(ResolveErr) <==> Resolve(data, Base()).None?
      ensures r.Err? ==> r.error == ResolveErr || r.error == Serde
      ensures r.Ok? ==> path.Get(data) == Ok(Meta(r.value))
      ensures path.Get(data).Ok? ==> r == Ok(path.Get(data).value.meta)
      ensures path.Get(data).Err? ==> r == Err(path.Get(data).error)
      ensures (Resolve(data, Base()).Some? && Decode(MetaKind, Resolve(data, Base()).value).None?) <==> r == Err(Serde)
    {
      match path.Get(data)
      case Ok(t) => Ok(t.meta)
      case Err(e) => Err(e)
    }

    /** The effect of Metadata::set: the write rules at the locations the source uses. */
    function Apply(data: Json, meta: ObjectMeta): Outcome {
      WriteMaps(data, meta, LabelsPath(), AnnotationsPath())
    }

    /** Metadata::set, updating the object in place. */
    method Set(obj: DynamicObject, meta: ObjectMeta) returns (r: Result<()>)
      modifies obj
      ensures Outcome(r, obj.data) == Apply(old(obj.data), meta)
    {
      if |meta.labels| != 0 {
        var labelsPath := Base();
        labelsPath := ["labels"] + labelsPath;
        r := Path(labelsPath, StringMapKind).Set(obj, StringMap(meta.labels));
        if r.Err? {
          return;
        }
      }
      if |meta.annotations| != 0 {
        var annotationsPath := Base();
        annotationsPath := ["annotations"] + annotationsPath;
        r := Path(annotationsPath, StringMapKind).Set(obj, StringMap(meta.annotations));
        if r.Err? {
          return;
        }
      }
      r := Ok(());
    }

    /** With nothing to write the call succeeds and the document is untouched. */
    lemma ApplyNothing(data: Json)
      ensures Apply(data, ObjectMeta(map[], map[])) == Outcome(Ok(()), data)
    {
    }

    /** The labels and the annotations locations part at their first token. */
    lemma LocationsDiverge()
      ensures Diverge(LabelsPath().ptr, AnnotationsPath().ptr)
      ensures Diverge(AnnotationsPath().ptr, LabelsPath().ptr)
    {
    }

    /** A successful call leaves each non-empty map readable at its location. */
    lemma ApplyWrites(data: Json, meta: ObjectMeta)
      requires Apply(data, meta).result.Ok?
      ensures |meta.labels| != 0 ==> LabelsPath().Get(Apply(data, meta).data) == Ok(StringMap(meta.labels))
      ensures |meta.annotations| != 0 ==>
                AnnotationsPath().Get(Apply(data, meta).data) == Ok(StringMap(meta.annotations))
    {
      if |meta.labels| != 0 && |meta.annotations| != 0 {
        var afterLabels := LabelsPath().Write(data, StringMap(meta.labels));
        LocationsDiverge();
        AnnotationsPath().WriteKeepsDiverging(afterLabels.data, StringMap(meta.annotations), LabelsPath());
      }
    }

    /**
      A set can fail part-way: when the labels are written and the annotations
      write then fails, the result is AssignErr and the labels stay written.
    */
    lemma ApplyPartial(data: Json, meta: ObjectMeta)
      requires |meta.labels| != 0 && |meta.annotations| != 0
      requires LabelsPath().Write(data, StringMap(meta.labels)).result.Ok?
      requires AnnotationsPath().Write(LabelsPath().Write(data, StringMap(meta.labels)).data,
                                       StringMap(meta.annotations)).result.Err?
      ensures Apply(data, meta).result == Err(AssignErr)
      ensures LabelsPath().Get(Apply(data, meta).data) == Ok(StringMap(meta.labels))
      ensures Apply(data, meta).data == LabelsPath().Write(data, StringMap(meta.labels)).data
    {
    }

    /** An empty map is never written: whatever its location held before, it still holds. */
    lemma ApplyKeepsEmpty(data: Json, meta: ObjectMeta)
      ensures |meta.labels| == 0 ==> Resolve(Apply(data, meta).data, LabelsPath().ptr) == Resolve(data, LabelsPath().ptr)
      ensures |meta.annotations| == 0 ==>
                Resolve(Apply(data, meta).data, AnnotationsPath().ptr) == Resolve(data, AnnotationsPath().ptr)
    {
      LocationsDiverge();
      if |meta.labels| == 0 && |meta.annotations| != 0 {
        AnnotationsPath().WriteKeepsDiverging(data, StringMap(meta.annotations), LabelsPath());
      }
      if |meta.annotations| == 0 && |meta.labels| != 0 {
        LabelsPath().WriteKeepsDiverging(data, StringMap(meta.labels), AnnotationsPath());
      }
    }

    /** Labels come first: if writing them fails, that is the result and annotations are not tried. */
    lemma ApplyLabelsFirst(data: Json, meta: ObjectMeta)
      requires |meta.labels| != 0 && LabelsPath().Write(data, StringMap(meta.labels)).result.Err?
      ensures Apply(data, meta) == Outcome(Err(AssignErr), data)
    {
    }

    /**
      As written, the metadata block a set writes is not where get reads it:
      the written maps sit under a top-level "labels" or "annotations" member,
      so for a base that does not itself start there, get sees no change.
    */
    lemma {:induction false} ApplyInvisibleToGet(data: Json, meta: ObjectMeta)
      requires |Base()| > 0 && Base()[0] != "labels" && Base()[0] != "annotations"
      ensures Get(Apply(data, meta).data) == Get(data)
    {
      var base := Path(Base(), MetaKind);
      assert Diverge(LabelsPath().ptr, Base()) && Diverge(AnnotationsPath().ptr, Base());
      var afterLabels :=
        if |meta.labels| != 0 then LabelsPath().Write(data, StringMap(meta.labels))
        else Outcome(Ok(()), data);
      if |meta.labels| != 0 {
        LabelsPath().WriteKeepsDiverging(data, StringMap(meta.labels), base);
      }
      if afterLabels.result.Ok? && |meta.annotations| != 0 {
        AnnotationsPath().WriteKeepsDiverging(afterLabels.data, StringMap(meta.annotations), base);
      }
    }

    /** Reading needs both maps: a metadata object lacking either field is a Serde error. */
    lemma GetNeedsBoth(data: Json, fields: map<string, Json>)
      requires Resolve(data, Base()) == Some(Obj(fields))
      requires "labels" !in fields || "annotations" !in fields
      ensures Get(data) == Err(Serde)
    {
    }

    /** A metadata object holding both maps reads back as those maps. */
    lemma GetReads(data: Json, labels: map<string, string>, annotations: map<string, string>, fields: map<string, Json>)
      requires Resolve(data, Base()) == Some(Obj(fields))
      requires "labels" in fields && fields["labels"] == EncodeMap(labels)
      requires "annotations" in fields && fields["annotations"] == EncodeMap(annotations)
      ensures Get(data) == Ok(ObjectMeta(labels, annotations))
    {
      DecodeEncodeMap(labels);
      DecodeEncodeMap(annotations);
    }

    /** Where the labels evidently belong: the base pointer with "labels" appended. */
    function AppendedLabelsPath(): Path {
      Path(Base() + ["labels"], StringMapKind)
    }

    function AppendedAnnotationsPath(): Path {
      Path(Base() + ["annotations"], StringMapKind)
    }

    /** Metadata::set with push_back in place of push_front; otherwise the same rules. */
    function AppendedApply(data: Json, meta: ObjectMeta): Outcome {
      WriteMaps(data, meta, AppendedLabelsPath(), AppendedAnnotationsPath())
    }

    /** With the pointer appended, a successful set of two non-empty maps reads back through get. */
    lemma {:induction false} AppendedApplyRoundTrip(data: Json, meta: ObjectMeta)
      requires |meta.labels| != 0 && |meta.annotations| != 0
      requires AppendedApply(data, meta).result.Ok?
      ensures Get(AppendedApply(data, meta).data) == Ok(meta)
    {
      var lp, ap := AppendedLabelsPath().ptr, AppendedAnnotationsPath().ptr;
      var afterLabels := AppendedLabelsPath().Write(data, StringMap(meta.labels));
      var d := AppendedApply(data, meta).data;
      assert Diverge(ap, lp) by { DivergeAfterCommonPrefix(Base(), "annotations", "labels"); }
      AppendedAnnotationsPath().WriteKeepsDiverging(afterLabels.data, StringMap(meta.annotations), AppendedLabelsPath());
      assert Resolve(d, lp) == Some(EncodeMap(meta.labels));
      assert Resolve(d, ap) == Some(EncodeMap(meta.annotations));
      ResolveConcat(d, Base(), ["labels"]);
      ResolveConcat(d, Base(), ["annotations"]);
      var node := Resolve(d, Base()).value;
      assert node.Obj? by {
        assert Step(node, "labels").Some?;
        if node.Arr? {
          assert Decimal.Parse("labels").None? by {
            assert !Decimal.IsDigit('l');
          }
        }
      }
      GetReads(d, meta.labels, meta.annotations, node.fields);
    }
  }

  /**
    The write rules of Metadata::set for given locations: labels first, and
    only when non-empty, a failure there being returned at once; then
    annotations, again only when non-empty. A failed annotations write leaves
    the labels written.
  */
  function WriteMaps(data: Json, meta: ObjectMeta, labelsAt: Path, annotationsAt: Path): Outcome
    requires labelsAt.kind == StringMapKind && annotationsAt.kind == StringMapKind
  {
    var afterLabels :=
      if |meta.labels| != 0 then labelsAt.Write(data, StringMap(meta.labels))
      else Outcome(Ok(()), data);
    if afterLabels.result.Err? || |meta.annotations| == 0 then afterLabels
    else annotationsAt.Write(afterLabels.data, StringMap(meta.annotations))
  }

  lemma {:induction false} DivergeAfterCommonPrefix(p: Pointer, a: string, b: string)
    requires a != b
    ensures Diverge(p + [a], p + [b])
    decreases |p|
  {
    if p != [] {
      assert (p + [a])[1..] == p[1..] + [a] && (p + [b])[1..] == p[1..] + [b];
      DivergeAfterCommonPrefix(p[1..], a, b);
    }
  }
}
