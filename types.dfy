/**
  Typed access to one field of an object's data tree (Path) and to a field
  that has moved between schema versions (Paths, an ordered fallback list).
*/
module Types {
  import opened Optional
  import opened Json
  import opened Codec

  /** The four failure kinds; resolve and assign errors carry no further detail here. */
  datatype Error = ResolveErr | AssignErr | Serde | NoRefError

  datatype Result<T> = Ok(value: T) | Err(error: Error)

  /** The part of kube's DynamicObject the contract works on: its JSON data. */
  class DynamicObject {
    var data: Json

    constructor (data: Json)
      ensures this.data == data
    {
      this.data := data;
    }
  }

  /** What a write returns, together with the document it leaves behind. */
  datatype Outcome = Outcome(result: Result<()>, data: Json)

  /** A JSON Pointer to one field, read and written as values of `kind`. */
  datatype Path = Path(ptr: Pointer, kind: Kind) {

    /**
      Resolve, then decode. A pointer that does not resolve gives ResolveErr;
      a node of the wrong shape gives Serde; no other error is possible.
    */
    function Get(data: Json): (r: Result<Typed>)
      ensures r == Err(ResolveErr) <==> Resolve(data, ptr).None?
      ensures r == Err(Serde) <==> Resolve(data, ptr).Some? && Decode(kind, Resolve(data, ptr).value).None?
      ensures r.Err? ==> r.error == ResolveErr || r.error == Serde
      ensures r.Ok? ==> r.value.KindOf() == kind && Decode(kind, Resolve(data, ptr).value) == Some(r.value)
    {
      match Resolve(data, ptr)
      case None => Err(ResolveErr)
      case Some(node) =>
        (match Decode(kind, node)
         case Some(t) => Ok(t)
         case None => Err(Serde))
    }

    /**
      Encode `t` and assign it at the pointer. On success the field reads back
      as `t`; on failure the error is AssignErr and the document is unchanged.
    */
    function Write(data: Json, t: Typed): (o: Outcome)
      requires t.KindOf() == kind
      ensures o.result.Ok? <==> Assign(data, ptr, Encode(t)).Some?
      ensures o.result.Ok? ==> Get(o.data) == Ok(t)
      ensures o.result.Err? ==> o.result.error == AssignErr && o.data == data
    {
      match Assign(data, ptr, Encode(t))
      case Some(d) =>
        ResolveAssign(data, ptr, Encode(t));
        DecodeEncode(t);
        Outcome(Ok(()), d)
      case None => Outcome(Err(AssignErr), data)
    }

    /** Path::set, mutating the object's data in place. */
    method Set(obj: DynamicObject, t: Typed) returns (r: Result<()>)
      requires t.KindOf() == kind
      modifies obj
      ensures Outcome(r, obj.data) == Write(old(obj.data), t)
    {
      var o := Write(obj.data, t);
      obj.data := o.data;
      r := o.result;
    }

    /** Writing through this path leaves every field at a pointer that parts from it as it was. */
    lemma WriteKeepsDiverging(data: Json, t: Typed, other: Path)
      requires t.KindOf() == kind
      requires Diverge(ptr, other.ptr)
      ensures Resolve(Write(data, t).data, other.ptr) == Resolve(data, other.ptr)
      ensures other.Get(Write(data, t).data) == other.Get(data)
    {
      if Assign(data, ptr, Encode(t)).Some? {
        AssignPreservesDiverging(data, ptr, other.ptr, Encode(t));
      }
    }
  }

  /** The value of the first candidate whose read succeeds, in list order; None if none does. */
  function FirstOk(cs: seq<Path>, data: Json): (r: Option<Typed>)
    ensures r.Some? ==> exists i :: 0 <= i < |cs| && cs[i].Get(data) == Ok(r.value)
                                && forall j :: 0 <= j < i ==> cs[j].Get(data).Err?
    ensures r.None? ==> forall i :: 0 <= i < |cs| ==> cs[i].Get(data).Err?
    decreases |cs|
  {
    if cs == [] then None
    else if cs[0].Get(data).Ok? then Some(cs[0].Get(data).value)
    else
      var r := FirstOk(cs[1..], data);
      assert r.Some? ==> exists i :: 1 <= i < |cs| && cs[i].Get(data) == Ok(r.value)
                                 && forall j :: 0 <= j < i ==> cs[j].Get(data).Err? by {
        if r.Some? {
          var i :| 0 <= i < |cs[1..]| && cs[1..][i].Get(data) == Ok(r.value)
                   && forall j :: 0 <= j < i ==> cs[1..][j].Get(data).Err?;
          assert forall j :: 1 <= j < i + 1 ==> cs[j].Get(data) == cs[1..][j - 1].Get(data);
        }
      }
      r
  }

  /**
    One logical field at several locations; the first candidate is the primary
    (current) location, the rest are older ones that are only read.
  */
  datatype Paths = Paths(candidates: seq<Path>) {

    /** Every candidate is read as the same type, as the single R of a Rust Paths<R> demands. */
    predicate SameKind() {
      forall i | 0 <= i < |candidates| :: candidates[i].kind == candidates[0].kind
    }

    /**
      Paths::get: the value of the earliest candidate that reads successfully;
      if none does, the primary's own error; NoRefError for an empty list.
    */
    function Lookup(data: Json): (r: Result<Typed>)
      ensures candidates == [] ==> r == Err(NoRefError)
      ensures SameKind() && r.Ok? ==> r.value.KindOf() == candidates[0].kind
      ensures r.Ok? ==> exists i :: 0 <= i < |candidates| && candidates[i].Get(data) == r
                                 && forall j :: 0 <= j < i ==> candidates[j].Get(data).Err?
      ensures candidates != [] && r.Err? ==>
                r == candidates[0].Get(data) && forall i :: 0 <= i < |candidates| ==> candidates[i].Get(data).Err?
    {
      if candidates == [] then Err(NoRefError)
      else
        match FirstOk(candidates, data)
        case Some(t) => Ok(t)
        case None => candidates[0].Get(data)
    }

    /** Paths::get, as the source writes it: a loop with an early return. */
    method Get(obj: DynamicObject) returns (r: Result<Typed>)
      ensures r == Lookup(obj.data)
    {
      if |candidates| == 0 {
        return Err(NoRefError);
      }
      var p := candidates[0];
      for i := 0 to |candidates|
        invariant forall j :: 0 <= j < i ==> candidates[j].Get(obj.data).Err?
      {
        var data := candidates[i].Get(obj.data);
        if data.Ok? {
          return data;
        }
      }
      r := p.Get(obj.data);
    }

    /** Paths::set: only the primary is written; NoRefError and no change for an empty list. */
    function Write(data: Json, t: Typed): (o: Outcome)
      requires candidates != [] ==> t.KindOf() == candidates[0].kind
      ensures candidates == [] ==> o == Outcome(Err(NoRefError), data)
      ensures candidates != [] ==> o == candidates[0].Write(data, t)
    {
      if candidates == [] then Outcome(Err(NoRefError), data) else candidates[0].Write(data, t)
    }

    method Set(obj: DynamicObject, t: Typed) returns (r: Result<()>)
      requires candidates != [] ==> t.KindOf() == candidates[0].kind
      modifies obj
      ensures Outcome(r, obj.data) == Write(old(obj.data), t)
    {
      if |candidates| == 0 {
        return Err(NoRefError);
      }
      var p := candidates[0];
      r := p.Set(obj, t);
    }

    /** After a successful write the primary alone reads `t`, and so does the whole list. */
    lemma WriteThenLookup(data: Json, t: Typed)
      requires candidates != [] && t.KindOf() == candidates[0].kind
      requires Write(data, t).result.Ok?
      ensures candidates[0].Get(Write(data, t).data) == Ok(t)
      ensures Lookup(Write(data, t).data) == Ok(t)
    {
    }

    /** A write leaves an alternate location that parts from the primary untouched. */
    lemma WriteKeepsAlternate(data: Json, t: Typed, i: nat)
      requires candidates != [] && t.KindOf() == candidates[0].kind
      requires 0 < i < |candidates| && Diverge(candidates[0].ptr, candidates[i].ptr)
      ensures candidates[i].Get(Write(data, t).data) == candidates[i].Get(data)
    {
      candidates[0].WriteKeepsDiverging(data, t, candidates[i]);
    }
  }
}
