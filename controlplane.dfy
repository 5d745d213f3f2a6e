/**
  The ControlPlane contract: where a control-plane object keeps its version
  and replica counters, and the three lifecycle predicates derived from them.
  Each predicate turns particular read failures into a safe default and
  passes every other failure on to its caller.
*/
module ControlPlane {
  import opened Json
  import opened Codec
  import opened Optional
  import opened Types
  import Semver
  import MetadataPatch
  import Decimal

  function SpecVersion(): Path { Path(["spec", "version"], VersionKind) }
  function StatusVersion(): Path { Path(["status", "version"], VersionKind) }
  function Replicas(): Path { Path(["spec", "replicas"], Int64Kind) }
  function StatusReplicas(): Path { Path(["status", "replicas"], Int64Kind) }
  function UpdatedReplicas(): Path { Path(["status", "updatedReplicas"], Int64Kind) }
  function ReadyReplicas(): Path { Path(["status", "readyReplicas"], Int64Kind) }
  function UnavailableReplicas(): Path { Path(["status", "unavailableReplicas"], Int64Kind) }

  /** The v1beta2 counters, falling back to the location the counter had before. */
  function V1Beta2ReadyReplicas(): Paths {
    Paths([Path(["status", "v1beta2", "readyReplicas"], Int32Kind), Path(["status", "readyReplicas"], Int32Kind)])
  }

  function V1Beta2AvailableReplicas(): Paths {
    Paths([Path(["status", "v1beta2", "availableReplicas"], Int32Kind), Path(["status", "availableReplicas"], Int32Kind)])
  }

  function V1Beta2UpToDateReplicas(): Paths {
    Paths([Path(["status", "v1beta2", "upToDateReplicas"], Int32Kind), Path(["status", "upToDateReplicas"], Int32Kind)])
  }

  /** In every v1beta2 list the primary and the legacy location part, so a write to one never touches the other. */
  lemma V1Beta2ListsDiverge()
    ensures forall l | l in [V1Beta2ReadyReplicas(), V1Beta2AvailableReplicas(), V1Beta2UpToDateReplicas()] ::
      |l.candidates| == 2 && l.SameKind() && Diverge(l.candidates[0].ptr, l.candidates[1].ptr)
  {
  }

  /** The node at p is a string that parses as a version. */
  predicate HoldsVersion(data: Json, p: Pointer) {
    Resolve(data, p).Some? && Resolve(data, p).value.Str? && Semver.Parse(Resolve(data, p).value.s).Some?
  }

  /**
    is_provisioning: true unless status.version holds a valid version; a
    missing field and an empty or malformed one both mean "provisioning".
    It never fails, because reading a field fails only with ResolveErr or Serde.
  */
  function IsProvisioning(data: Json): (r: Result<bool>)
    ensures r == Ok(!HoldsVersion(data, StatusVersion().ptr))
  {
    match StatusVersion().Get(data)
    case Ok(_) => Ok(false)
    case Err(Serde) => Ok(true)
    case Err(ResolveErr) => Ok(true)
    case Err(e) => Err(e)
  }

  /**
    is_upgrading: spec.version must read; then the object is upgrading iff the
    desired version is higher than status.version. A missing status.version
    means "not upgrading"; a malformed one is passed on as an error.
  */
  function IsUpgrading(data: Json): (r: Result<bool>)
    ensures SpecVersion().Get(data).Err? ==> r == Err(SpecVersion().Get(data).error)
    ensures HoldsVersion(data, SpecVersion().ptr) && HoldsVersion(data, StatusVersion().ptr) ==>
              r == Ok(Semver.Less(Semver.Parse(Resolve(data, StatusVersion().ptr).value.s).value,
                                  Semver.Parse(Resolve(data, SpecVersion().ptr).value.s).value))
    ensures HoldsVersion(data, SpecVersion().ptr) && Resolve(data, StatusVersion().ptr).None? ==> r == Ok(false)
    ensures (HoldsVersion(data, SpecVersion().ptr) && Resolve(data, StatusVersion().ptr).Some?
             && !HoldsVersion(data, StatusVersion().ptr)) ==> r == Err(Serde)
  {
    match SpecVersion().Get(data)
    case Err(e) => Err(e)
    case Ok(specVersion) =>
      (match StatusVersion().Get(data)
       case Ok(version) => Ok(Semver.Less(version.v, specVersion.v))
       case Err(ResolveErr) => Ok(false)
       case Err(e) => Err(e))
  }

  /** The three observed counters is_scaling requires, in the order it reads them. */
  function ObservedCounters(): seq<Path> {
    [StatusReplicas(), UpdatedReplicas(), ReadyReplicas()]
  }

  /** The count a counter read produced; only meaningful for a successful read. */
  function Count(r: Result<Typed>): int {
    if r.Ok? && r.value.Int64? then r.value.n as int else 0
  }

  /**
    is_scaling. spec.replicas must read. The observed counters are read in
    order; the first one that is missing means "scaling", and a malformed one
    met first is passed on. A missing unavailableReplicas counts as 0, a
    malformed one is passed on. With everything read, the object is scaling iff
    some observed counter differs from the desired count or some replica is
    unavailable (the conditions are joined by "or").
  */
  function IsScaling(data: Json): (r: Result<bool>)
    ensures Replicas().Get(data).Err? ==> r == Err(Replicas().Get(data).error)
    ensures forall k | 0 <= k < |ObservedCounters()| ::
              Replicas().Get(data).Ok? && (forall j | 0 <= j < k :: ObservedCounters()[j].Get(data).Ok?) ==>
                (ObservedCounters()[k].Get(data) == Err(ResolveErr) ==> r == Ok(true)) &&
                (ObservedCounters()[k].Get(data) == Err(Serde) ==> r == Err(Serde))
    ensures Replicas().Get(data).Ok? && (forall c | c in ObservedCounters() :: c.Get(data).Ok?) ==>
              (UnavailableReplicas().Get(data) == Err(Serde) ==> r == Err(Serde)) &&
              (UnavailableReplicas().Get(data) != Err(Serde) ==>
                 var desired := Count(Replicas().Get(data));
                 r == Ok(Count(StatusReplicas().Get(data)) != desired
                         || Count(UpdatedReplicas().Get(data)) != desired
                         || Count(ReadyReplicas().Get(data)) != desired
                         || Count(UnavailableReplicas().Get(data)) > 0))
  {
    var counters := ObservedCounters();
    assert counters[0] == StatusReplicas() && counters[1] == UpdatedReplicas() && counters[2] == ReadyReplicas();
    match Replicas().Get(data)
    case Err(e) => Err(e)
    case Ok(desired) =>
      (match StatusReplicas().Get(data)
       case Err(ResolveErr) => Ok(true)
       case Err(e) => Err(e)
       case Ok(statusReplicas) =>
         (match UpdatedReplicas().Get(data)
          case Err(ResolveErr) => Ok(true)
          case Err(e) => Err(e)
          case Ok(updatedReplicas) =>
            (match ReadyReplicas().Get(data)
             case Err(ResolveErr) => Ok(true)
             case Err(e) => Err(e)
             case Ok(readyReplicas) =>
               var unavailable: Result<int64> :=
                 match UnavailableReplicas().Get(data)
                 case Ok(u) => Ok(u.n)
                 case Err(ResolveErr) => Ok(0)
                 case Err(e) => Err(e);
               (match unavailable
                case Err(e) => Err(e)
                case Ok(unavailableReplicas) =>
                  Ok(statusReplicas.n != desired.n
                     || updatedReplicas.n != desired.n
                     || readyReplicas.n != desired.n
                     || unavailableReplicas > 0)))))
  }

  /** With both versions readable, an equal or newer status version never counts as an upgrade. */
  lemma IsUpgradingOnlyForward(data: Json)
    requires HoldsVersion(data, SpecVersion().ptr) && HoldsVersion(data, StatusVersion().ptr)
    ensures var desired := Semver.Parse(Resolve(data, SpecVersion().ptr).value.s).value;
            var observed := Semver.Parse(Resolve(data, StatusVersion().ptr).value.s).value;
            IsUpgrading(data) == Ok(true) <==> desired != observed && !Semver.Less(desired, observed)
  {
    var desired := Semver.Parse(Resolve(data, SpecVersion().ptr).value.s).value;
    var observed := Semver.Parse(Resolve(data, StatusVersion().ptr).value.s).value;
    Semver.LessTrichotomy(desired, observed);
    if desired == observed {
      Semver.LessIrreflexive(desired);
    }
  }

  /**
    A status.version that is present but not a version: is_provisioning
    answers true, while is_upgrading (with spec.version readable) fails.
  */
  lemma MalformedStatusVersion(data: Json)
    requires HoldsVersion(data, SpecVersion().ptr)
    requires Resolve(data, StatusVersion().ptr).Some? && !HoldsVersion(data, StatusVersion().ptr)
    ensures IsProvisioning(data) == Ok(true)
    ensures IsUpgrading(data) == Err(Serde)
  {
  }

  /** A control-plane object with the given spec and status members. */
  function Object(spec: map<string, Json>, status: map<string, Json>): Json {
    Obj(map["spec" := Obj(spec), "status" := Obj(status)])
  }

  /** A control plane whose status.version holds a rendered version is provisioned. */
  lemma ProvisionedWhenObserved(observed: Semver.Version)
    ensures IsProvisioning(Object(map[], map["version" := Str(Semver.Render(observed))])) == Ok(false)
  {
    var data := Object(map[], map["version" := Str(Semver.Render(observed))]);
    Semver.ParseRender(observed);
    assert Resolve(data, StatusVersion().ptr) == Some(Str(Semver.Render(observed)));
  }

  /** No status block content at all: provisioning. */
  lemma ProvisioningWhenUnobserved()
    ensures IsProvisioning(Object(map[], map[])) == Ok(true)
  {
    assert Resolve(Object(map[], map[]), StatusVersion().ptr) == None;
  }

  /** With both versions written in their text form, upgrading is exactly "observed is lower than desired". */
  lemma UpgradingCompares(desired: Semver.Version, observed: Semver.Version)
    ensures IsUpgrading(Object(map["version" := Str(Semver.Render(desired))], map["version" := Str(Semver.Render(observed))]))
            == Ok(Semver.Less(observed, desired))
  {
    var data := Object(map["version" := Str(Semver.Render(desired))], map["version" := Str(Semver.Render(observed))]);
    Semver.ParseRender(desired);
    Semver.ParseRender(observed);
    assert Resolve(data, SpecVersion().ptr) == Some(Str(Semver.Render(desired)));
    assert Resolve(data, StatusVersion().ptr) == Some(Str(Semver.Render(observed)));
  }

  /** Equal versions are never an upgrade. */
  lemma NotUpgradingWhenEqual(v: Semver.Version)
    ensures IsUpgrading(Object(map["version" := Str(Semver.Render(v))], map["version" := Str(Semver.Render(v))])) == Ok(false)
  {
    UpgradingCompares(v, v);
    Semver.LessIrreflexive(v);
  }

  /** Without an observed version there is no upgrade, whatever is desired. */
  lemma NotUpgradingWhenUnobserved(desired: Semver.Version)
    ensures IsUpgrading(Object(map["version" := Str(Semver.Render(desired))], map[])) == Ok(false)
  {
    var data := Object(map["version" := Str(Semver.Render(desired))], map[]);
    Semver.ParseRender(desired);
    assert Resolve(data, SpecVersion().ptr) == Some(Str(Semver.Render(desired)));
    assert Resolve(data, StatusVersion().ptr) == None;
  }

  /** The status block of a control plane whose three observed counters all read 3. */
  function SteadyStatus(): map<string, Json> {
    map["replicas" := Int(3), "updatedReplicas" := Int(3), "readyReplicas" := Int(3)]
  }

  /** Three replicas everywhere is stable; one unavailable replica, or no updatedReplicas, is scaling. */
  lemma ScalingExamples()
    ensures IsScaling(Object(map["replicas" := Int(3)], SteadyStatus())) == Ok(false)
    ensures IsScaling(Object(map["replicas" := Int(3)], SteadyStatus()["unavailableReplicas" := Int(1)])) == Ok(true)
    ensures IsScaling(Object(map["replicas" := Int(3)], map["replicas" := Int(3), "readyReplicas" := Int(3)])) == Ok(true)
  {
    var steady := Object(map["replicas" := Int(3)], SteadyStatus());
    assert Replicas().Get(steady) == Ok(Int64(3));
    assert StatusReplicas().Get(steady) == Ok(Int64(3));
    assert UpdatedReplicas().Get(steady) == Ok(Int64(3));
    assert ReadyReplicas().Get(steady) == Ok(Int64(3));
    assert UnavailableReplicas().Get(steady) == Err(ResolveErr);
    var unavailable := Object(map["replicas" := Int(3)], SteadyStatus()["unavailableReplicas" := Int(1)]);
    assert Replicas().Get(unavailable) == Ok(Int64(3));
    assert StatusReplicas().Get(unavailable) == Ok(Int64(3));
    assert UpdatedReplicas().Get(unavailable) == Ok(Int64(3));
    assert ReadyReplicas().Get(unavailable) == Ok(Int64(3));
    assert UnavailableReplicas().Get(unavailable) == Ok(Int64(1));
    var partial := Object(map["replicas" := Int(3)], map["replicas" := Int(3), "readyReplicas" := Int(3)]);
    assert Replicas().Get(partial) == Ok(Int64(3));
    assert StatusReplicas().Get(partial) == Ok(Int64(3));
    assert UpdatedReplicas().Get(partial) == Err(ResolveErr);
  }

  /** A missing earlier counter wins over a malformed later one, and a malformed earlier one over a missing later one. */
  lemma ScalingReadOrder()
    ensures IsScaling(Object(map["replicas" := Int(3)], map["updatedReplicas" := Str("x")])) == Ok(true)
    ensures IsScaling(Object(map["replicas" := Int(3)], map["replicas" := Str("x")])) == Err(Serde)
  {
    var missingFirst := Object(map["replicas" := Int(3)], map["updatedReplicas" := Str("x")]);
    assert Replicas().Get(missingFirst) == Ok(Int64(3));
    assert StatusReplicas().Get(missingFirst) == Err(ResolveErr);
    var malformedFirst := Object(map["replicas" := Int(3)], map["replicas" := Str("x")]);
    assert Replicas().Get(malformedFirst) == Ok(Int64(3));
    assert StatusReplicas().Get(malformedFirst) == Err(Serde);
  }

  /** ControlPlaneMachineTemplate::metadata: the metadata block under spec.machineTemplate. */
  function MachineTemplateMetadata(): MetadataPatch.Metadata {
    MetadataPatch.Metadata(Path(["spec", "machineTemplate", "metadata"], MetaKind))
  }

  /**
    Setting non-empty labels and annotations on an empty object succeeds, yet
    the machine-template metadata still does not resolve afterwards: the maps
    went to /labels/spec/machineTemplate/metadata and
    /annotations/spec/machineTemplate/metadata.
  */
  lemma MachineTemplateMetadataNotReadBack(meta: ObjectMeta)
    requires |meta.labels| != 0 && |meta.annotations| != 0
    ensures MachineTemplateMetadata().Apply(Obj(map[]), meta).result == Ok(())
    ensures MachineTemplateMetadata().Get(MachineTemplateMetadata().Apply(Obj(map[]), meta).data) == Err(ResolveErr)
  {
    var m := MachineTemplateMetadata();
    EmptyNeverBlocked(m.LabelsPath().ptr, EncodeMap(meta.labels));
    var afterLabels := m.LabelsPath().Write(Obj(map[]), StringMap(meta.labels));
    var c := Assign(Obj(map[]), m.Base(), EncodeMap(meta.labels)).value;
    assert afterLabels.data == Obj(map["labels" := c]);
    EmptyNeverBlocked(m.AnnotationsPath().ptr[1..], EncodeMap(meta.annotations));
    assert Assign(afterLabels.data, m.AnnotationsPath().ptr, EncodeMap(meta.annotations)).Some?;
    m.ApplyInvisibleToGet(Obj(map[]), meta);
  }

  /** With the tokens appended instead, the same call on an empty object reads back what was set. */
  lemma MachineTemplateMetadataAppendedReadBack(meta: ObjectMeta)
    requires |meta.labels| != 0 && |meta.annotations| != 0
    ensures MachineTemplateMetadata().AppendedApply(Obj(map[]), meta).result == Ok(())
    ensures MachineTemplateMetadata().Get(MachineTemplateMetadata().AppendedApply(Obj(map[]), meta).data) == Ok(meta)
  {
    var m := MachineTemplateMetadata();
    EmptyNeverBlocked(m.AppendedLabelsPath().ptr, EncodeMap(meta.labels));
    var afterLabels := m.AppendedLabelsPath().Write(Obj(map[]), StringMap(meta.labels));
    var d := afterLabels.data;
    ResolveAssign(Obj(map[]), m.AppendedLabelsPath().ptr, EncodeMap(meta.labels));
    ResolveConcat(d, m.Base(), ["labels"]);
    var node := Resolve(d, m.Base()).value;
    assert node.Obj? by {
      assert Step(node, "labels").Some?;
      if node.Arr? {
        assert Decimal.Parse("labels").None? by {
          assert !Decimal.IsDigit('l');
        }
      }
    }
    AssignBelow(d, m.Base(), ["annotations"], EncodeMap(meta.annotations));
    m.AppendedApplyRoundTrip(Obj(map[]), meta);
  }
}
