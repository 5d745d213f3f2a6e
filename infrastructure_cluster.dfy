/**
  The InfrastructureCluster contract: the control-plane endpoint fields and
  the pointers a diff must skip because they only hold zero values.
*/
module InfrastructureCluster {
  import opened Optional
  import opened Json
  import opened Codec
  import opened Types

  /** spec.controlPlaneEndpoint.host, a String. */
  function Host(): Path { Path(["spec", "controlPlaneEndpoint", "host"], TextKind) }

  /** spec.controlPlaneEndpoint.port, an i64. */
  function Port(): Path { Path(["spec", "controlPlaneEndpoint", "port"], Int64Kind) }

  /**
    InfrastructureClusterContract::ignore_paths. Host and port are mandatory
    fields without omitempty, so an unset one shows up as its zero value; each
    one found at its zero value is reported so that it is not reconciled.
    A failure reading either field is passed on; the host is read first.
  */
  method IgnorePaths(obj: DynamicObject) returns (r: Result<seq<Pointer>>)
    ensures Host().Get(obj.data).Err? ==> r == Err(Host().Get(obj.data).error)
    ensures Host().Get(obj.data).Ok? && Port().Get(obj.data).Err? ==> r == Err(Port().Get(obj.data).error)
    ensures r.Ok? <==> Host().Get(obj.data).Ok? && Port().Get(obj.data).Ok?
    ensures r.Ok? ==> (Host().ptr in r.value <==> Resolve(obj.data, Host().ptr) == Some(Str("")))
    ensures r.Ok? ==> (Port().ptr in r.value <==> Resolve(obj.data, Port().ptr) == Some(Int(0)))
    ensures r.Ok? ==> forall p | p in r.value :: p == Host().ptr || p == Port().ptr
    ensures r.Ok? ==> |r.value| <= 2 && (|r.value| == 2 ==> r.value == [Host().ptr, Port().ptr])
    ensures r.Ok? ==> forall i, j | 0 <= i < j < |r.value| :: r.value[i] != r.value[j]
  {
    var ignorePaths: seq<Pointer> := [];
    var host := Host().Get(obj.data);
    if host.Err? {
      return Err(host.error);
    }
    if host.value.s == "" {
      ignorePaths := ignorePaths + [Host().ptr];
    }
    var port := Port().Get(obj.data);
    if port.Err? {
      return Err(port.error);
    }
    if port.value.n == 0 {
      ignorePaths := ignorePaths + [Port().ptr];
    }
    return Ok(ignorePaths);
  }

  /**
    A host of "" and a non-zero port: only the host is reported.
  */
  method HostOnlyExample() returns (r: Result<seq<Pointer>>)
    ensures r == Ok([Host().ptr])
  {
    var endpoint := Obj(map["host" := Str(""), "port" := Int(6443)]);
    var obj := new DynamicObject(Obj(map["spec" := Obj(map["controlPlaneEndpoint" := endpoint])]));
    assert Resolve(obj.data, Host().ptr) == Some(Str(""));
    assert Resolve(obj.data, Port().ptr) == Some(Int(6443));
    r := IgnorePaths(obj);
    assert |r.value| == 1 by {
      assert Host().ptr in r.value && Port().ptr !in r.value;
    }
    assert r.value[0] in r.value;
    assert r.value == [r.value[0]];
  }
}
