# cluster-api-rs contract core, modelled in Dafny

The `contract` module of cluster-api-rs gives typed access to fields of
Cluster API objects. A Kubernetes object arrives untyped, as a
`DynamicObject` whose `data` is a JSON tree. Each contract (control plane,
infrastructure cluster) says where its fields live as JSON Pointers, and
`Path<R>` reads or writes one field as a value of Rust type `R`. `Paths<R>`
is an ordered fallback list for a field that moved between API versions.
`Metadata` reads and writes a labels/annotations block. On top of this sit
small decisions:

- whether a control plane is provisioning, upgrading or scaling;
- which zero-valued endpoint fields a reconciler must not overwrite.

The model has these modules:

- `Json` (json.dfy): the document tree, pointer evaluation as in section 4
  of RFC 6901 (`Resolve`), and pointer assignment (`Assign`).
- `Decimal` (decimal.dfy): canonical decimal numerals. Array indices in
  pointers and the parts of a version use them.
- `Semver` (semver.dfy): versions as (major, minor, patch) with the
  precedence of section 11 of Semantic Versioning 2.0.0, parsed from and
  rendered to "X.Y.Z".
- `Codec` (codec.dfy): what serde_json does for the concrete types `R` the
  core uses: `String`, `i64`, `i32`, `semver::Version`, `ObjectMeta` and
  `HashMap<String, String>`.
- `Types` (types.dfy): `Error`, `Result`, the `DynamicObject` class (its
  `data` field only), `Path` and `Paths`.
- `MetadataPatch` (metadata.dfy): `ObjectMeta` access and `Metadata::set`.
- `ControlPlane` (controlplane.dfy): the constant pointers,
  `is_provisioning`, `is_upgrading`, `is_scaling` and the v1beta2 fallback
  lists.
- `InfrastructureCluster` (infrastructure_cluster.dfy): the endpoint
  pointers and `ignore_paths`.

The Rust type parameter `R` becomes a `Kind` tag on `Path`, plus a sum type
`Typed` of the values. Rust's type checker makes a `Path<R>` accept only an
`R`; here that is the precondition `t.KindOf() == kind` of `Path.Set`.

The methods that mutate (`Path.Set`, `Paths.Set`, `Metadata.Set`) update
`obj.data` in place. Each is specified by a pure transition function (`Write`,
`Apply`) that returns the result and the new document, and the properties
are lemmas about those functions. `Paths.Get` and `IgnorePaths` keep the
source's loop and early returns and its vector built by `push`.

Assignment rule. The jsonptr crate's assign is not part of this model, so
one rule is fixed and stated here:

- A missing object member is created as an empty object and the walk goes on.
- An array is entered only through a canonical in-range index.
- A scalar, `null` included, met before the last token is an `AssignErr`.

Under this rule a failed assignment has created nothing, so a failed
`set` leaves the document unchanged. `Json.AssignFailsIffBlocked` states
exactly when assignment fails.

## Model

| member | source | states |
|---|---|---|
| Types.Path.Get | src/contract/types.rs:59-61 | ResolveErr exactly when the pointer does not resolve; Serde exactly when it resolves to a node that does not decode as the path's type; no other error; a success carries the decoded value |
| Types.Path.Write | src/contract/types.rs:63-66 | succeeds exactly when the pointer can be assigned; after success the field reads back as the value written; a failure is AssignErr and leaves the document unchanged |
| Types.Path.Set | src/contract/types.rs:63-66 | mutates obj.data to the document Write produces and returns Write's result |
| Types.Path.WriteKeepsDiverging | src/contract/types.rs:63-66 | a write through a path leaves every location that parts from it resolving and reading as before |
| Types.Paths.Lookup | src/contract/types.rs:84-93 | empty list gives NoRefError; with every candidate of one type, a success has that type; a success is the value of the earliest candidate that reads, all earlier ones having failed; otherwise every candidate failed and the result is exactly the primary's error |
| Types.Paths.Get | src/contract/types.rs:84-93 | the loop with early return computes Lookup on the object's data |
| Types.Paths.Write | src/contract/types.rs:95-98 | empty list gives NoRefError and an unchanged document; otherwise exactly the primary's write |
| Types.Paths.Set | src/contract/types.rs:95-98 | mutates obj.data as Paths.Write says and returns its result |
| Types.Paths.WriteThenLookup | src/contract/types.rs:84-98 | after a successful set, the primary reads the value written and so does the whole list |
| Types.Paths.WriteKeepsAlternate | src/contract/types.rs:95-98 | a set leaves an alternate location that parts from the primary reading as before |
| Types.FirstOk | src/contract/types.rs:86-90 | the first candidate whose read succeeds, every earlier one failing; none when all fail |
| Json.Step | src/contract/types.rs:59-61 | one step of pointer evaluation: an object member by key, an array element by canonical in-range index, nothing else; specified through Json.MissingKeyBlocks and Json.ScalarBlocks |
| Json.Resolve | src/contract/types.rs:59-61 | the node a pointer refers to, or none; specified through Json.ResolveConcat, Json.MissingKeyBlocks, Json.ScalarBlocks and Json.ResolveAssign |
| Json.Assign | src/contract/types.rs:63-66 | the document with the value placed at the pointer, or none; specified through Json.AssignFailsIffBlocked, Json.ResolveAssign, Json.AssignPreservesDiverging, Json.AssignResolvable and Json.EmptyNeverBlocked |
| Json.ResolveAssign | src/contract/types.rs:59-66 | after a successful assignment the pointer resolves to exactly the value assigned |
| Json.AssignResolvable | src/contract/types.rs:63-66 | a pointer that already resolves can always be assigned |
| Json.AssignPreservesDiverging | src/contract/types.rs:63-66 | assigning at p leaves every location that parts from p unchanged |
| Json.AssignFailsIffBlocked | src/contract/types.rs:63-66 | assignment fails exactly when an existing non-object node on the way cannot be stepped into by the next token |
| Json.EmptyNeverBlocked | src/contract/types.rs:63-66 | assignment into an empty object succeeds for every pointer |
| Json.AssignBelow | src/contract/types.rs:63-66 | a pointer extending a resolving prefix can be assigned when its remainder can be assigned from the prefix's node |
| Json.MissingKeyBlocks | src/contract/types.rs:59-61 | a missing member at any depth makes every pointer through it unresolvable |
| Json.ScalarBlocks | src/contract/types.rs:59-61 | nothing below a scalar resolves |
| Json.ResolveConcat | src/contract/types.rs:59-61 | resolving p + q is resolving p, then q from the node reached |
| Codec.Decode | src/contract/types.rs:59-61 | a decoded value has the kind asked for |
| Codec.Encode | src/contract/types.rs:63-66 | serde_json::to_value for the covered types, never failing; specified through Codec.DecodeEncode |
| Codec.DecodeMap | src/contract/metadata.rs:22-36 | a decoded string map is exactly what the node encodes |
| Codec.DecodeEncode | src/contract/types.rs:59-66 | every value decodes back from its own encoding as its own kind |
| Semver.Parse | src/contract/controlplane.rs:48-54 | the empty string does not parse; a parsed version renders back to the same text |
| Semver.ParseRender | src/contract/controlplane.rs:48-54 | every version parses back from its rendering |
| Semver.Render | src/contract/controlplane.rs:48-54 | the "MAJOR.MINOR.PATCH" text serde writes for a version; specified through Semver.ParseRender (it parses back) and Semver.Parse (every parsed text is a rendering) |
| Semver.Less | src/contract/controlplane.rs:172-173 | the precedence the `>` of is_upgrading uses: the first differing part decides; specified through Semver.LessIrreflexive, Semver.LessTransitive and Semver.LessTrichotomy |
| Semver.LessTransitive | src/contract/controlplane.rs:172-173 | version precedence is transitive |
| Semver.LessTrichotomy | src/contract/controlplane.rs:172-173 | of two versions, exactly one is lower or they are equal |
| ControlPlane.IsProvisioning | src/contract/controlplane.rs:151-164 | never an error; false exactly when status.version holds a valid version, true when it is missing or malformed |
| ControlPlane.IsUpgrading | src/contract/controlplane.rs:170-181 | a spec.version failure is passed on first; with both versions it is "status lower than spec"; a missing status.version gives false; a malformed one is a Serde error |
| ControlPlane.IsUpgradingOnlyForward | src/contract/controlplane.rs:172-173 | with both versions readable, upgrading exactly when spec is neither equal to nor lower than status |
| ControlPlane.MalformedStatusVersion | src/contract/controlplane.rs:156-179 | a present but malformed status.version makes is_provisioning true while is_upgrading fails with Serde |
| ControlPlane.ProvisionedWhenObserved | src/contract/controlplane.rs:156-157 | any version written in status.version means provisioned |
| ControlPlane.ProvisioningWhenUnobserved | src/contract/controlplane.rs:160-161 | an empty status means provisioning |
| ControlPlane.UpgradingCompares | src/contract/controlplane.rs:171-173 | with both versions written as text, the answer is exactly whether status is lower than spec |
| ControlPlane.NotUpgradingWhenEqual | src/contract/controlplane.rs:172-173 | equal versions are never an upgrade |
| ControlPlane.NotUpgradingWhenUnobserved | src/contract/controlplane.rs:171-178 | without status.version there is no upgrade |
| ControlPlane.IsScaling | src/contract/controlplane.rs:190-246 | a spec.replicas failure is passed on; the observed counters are read in order and the first missing one means true, the first malformed one a Serde error; a missing unavailableReplicas is 0, a malformed one passed on; otherwise true exactly when some counter differs from desired OR some replica is unavailable |
| ControlPlane.ScalingExamples | src/contract/controlplane.rs:190-246 | three replicas everywhere is stable; one unavailable replica, or a missing updatedReplicas, is scaling |
| ControlPlane.ScalingReadOrder | src/contract/controlplane.rs:191-218 | a missing earlier counter wins over a malformed later one, and a malformed earlier one wins over a missing later one |
| ControlPlane.V1Beta2ListsDiverge | src/contract/controlplane.rs:96-117 | each v1beta2 list holds two locations that part, so writing the primary never touches the legacy one |
| ControlPlane.SpecVersion | src/contract/controlplane.rs:48-50 | the pointer /spec/version, read as a version |
| ControlPlane.StatusVersion | src/contract/controlplane.rs:53-55 | the pointer /status/version, read as a version |
| ControlPlane.Replicas | src/contract/controlplane.rs:71-73 | the pointer /spec/replicas, read as an i64 |
| ControlPlane.StatusReplicas | src/contract/controlplane.rs:76-78 | the pointer /status/replicas, read as an i64 |
| ControlPlane.UpdatedReplicas | src/contract/controlplane.rs:81-83 | the pointer /status/updatedReplicas, read as an i64 |
| ControlPlane.ReadyReplicas | src/contract/controlplane.rs:86-88 | the pointer /status/readyReplicas, read as an i64 |
| ControlPlane.UnavailableReplicas | src/contract/controlplane.rs:91-93 | the pointer /status/unavailableReplicas, read as an i64 |
| ControlPlane.V1Beta2ReadyReplicas | src/contract/controlplane.rs:96-101 | /status/v1beta2/readyReplicas, falling back to /status/readyReplicas, read as an i32; ControlPlane.V1Beta2ListsDiverge states their shape |
| ControlPlane.V1Beta2AvailableReplicas | src/contract/controlplane.rs:104-109 | /status/v1beta2/availableReplicas, falling back to /status/availableReplicas, read as an i32 |
| ControlPlane.V1Beta2UpToDateReplicas | src/contract/controlplane.rs:112-117 | /status/v1beta2/upToDateReplicas, falling back to /status/upToDateReplicas, read as an i32 |
| ControlPlane.MachineTemplateMetadataNotReadBack | src/contract/metadata.rs:62-76 | setting non-empty labels and annotations on the machine-template metadata of an empty object succeeds, yet get still fails with ResolveErr |
| ControlPlane.MachineTemplateMetadataAppendedReadBack | src/contract/metadata.rs:62-76 | with the tokens appended, the same set succeeds and get reads back what was set |
| ControlPlane.MachineTemplateMetadata | src/contract/controlplane.rs:259-263 | the pointer /spec/machineTemplate/metadata, read as an ObjectMeta; ControlPlane.MachineTemplateMetadataNotReadBack and ControlPlane.MachineTemplateMetadataAppendedReadBack are stated over it |
| MetadataPatch.Metadata.Base | src/contract/metadata.rs:44-51 | the pointer given to new |
| MetadataPatch.Metadata.Get | src/contract/metadata.rs:54-56 | exactly the base path's get, both ways: its success is the decoded block, its error is passed on unchanged; ResolveErr exactly when the base does not resolve, Serde exactly when it resolves to a node that is not a metadata block |
| MetadataPatch.Metadata.Set | src/contract/metadata.rs:62-76 | mutates obj.data as Apply says and returns its result |
| MetadataPatch.Metadata.LabelsPath | src/contract/metadata.rs:64-66 | the base pointer with "labels" put in front, read as a string map; specified through MetadataPatch.Metadata.LocationsDiverge and MetadataPatch.Metadata.ApplyInvisibleToGet |
| MetadataPatch.Metadata.AnnotationsPath | src/contract/metadata.rs:70-72 | the base pointer with "annotations" put in front, read as a string map |
| MetadataPatch.Metadata.Apply | src/contract/metadata.rs:62-76 | the effect of set: the write rules at the prepended locations; specified through the Apply lemmas below |
| MetadataPatch.Metadata.ApplyPartial | src/contract/metadata.rs:66-72 | labels written and the annotations write failing: AssignErr, and the labels stay written in the document the labels write left |
| MetadataPatch.Metadata.ApplyNothing | src/contract/metadata.rs:62-75 | two empty maps: Ok and the document unchanged |
| MetadataPatch.Metadata.ApplyWrites | src/contract/metadata.rs:63-72 | after success each non-empty map reads back at its location |
| MetadataPatch.Metadata.ApplyKeepsEmpty | src/contract/metadata.rs:63-69 | an empty map is never written: its location holds what it held before |
| MetadataPatch.Metadata.ApplyLabelsFirst | src/contract/metadata.rs:63-66 | a failing labels write is the result and the document is unchanged; annotations are not tried |
| MetadataPatch.Metadata.LocationsDiverge | src/contract/metadata.rs:64-71 | the labels and annotations locations part at their first token |
| MetadataPatch.Metadata.ApplyInvisibleToGet | src/contract/metadata.rs:64-71 | with "labels"/"annotations" prepended, a set never changes what get returns for a base that does not itself start with one of them |
| MetadataPatch.Metadata.GetNeedsBoth | src/contract/metadata.rs:22-36 | a metadata object lacking labels or annotations is a Serde error |
| MetadataPatch.Metadata.GetReads | src/contract/metadata.rs:22-36 | a metadata object holding both string maps reads back as those maps |
| MetadataPatch.Metadata.AppendedApplyRoundTrip | src/contract/metadata.rs:62-76 | with the tokens appended, a successful set of two non-empty maps reads back through get |
| MetadataPatch.DivergeAfterCommonPrefix | src/contract/metadata.rs:64-71 | two pointers that share a prefix and then differ part |
| MetadataPatch.WriteMaps | src/contract/metadata.rs:62-76 | labels first and only when non-empty, a failure returned at once, then annotations likewise |
| InfrastructureCluster.IgnorePaths | src/contract/infrastructure_cluster.rs:94-123 | a host failure is passed on first, then a port failure; Ok exactly when both read; the host pointer is reported exactly when host is "", the port pointer exactly when port is 0; nothing else, no duplicates, at most two, host before port |
| InfrastructureCluster.HostOnlyExample | src/contract/infrastructure_cluster.rs:94-123 | an empty host with port 6443 reports only the host pointer |
| InfrastructureCluster.Host | src/contract/infrastructure_cluster.rs:49-51 | the pointer /spec/controlPlaneEndpoint/host, read as a String |
| InfrastructureCluster.Port | src/contract/infrastructure_cluster.rs:54-56 | the pointer /spec/controlPlaneEndpoint/port, read as an i64 |

## Left out

- Path::new, Path::from_tokens, Path::path, Paths::new and Metadata::new are the datatype constructors and the `ptr` field here; they only wrap or clone.
- ToString for Path and pointer rendering with the escaping of section 3 of RFC 6901 are not modelled; pointers are kept as token sequences.
- jsonptr's assign is not part of this model. The assignment rule above replaces it: no array append, no "-" token, no array created for a numeric token, and no replacing of a scalar on the way.
- JSON numbers are integers; floating point is not modelled.
- Error payloads (the jsonptr and serde_json error values) and the thiserror display strings are dropped; errors are the four kinds only.
- Semver.Parse: accepts only "X.Y.Z". The semver crate's pre-release and build-metadata suffixes, and the ordering they add, are not modelled.
- Codec.Decode: covers only String, i64, i32, semver::Version, ObjectMeta and HashMap<String, String>. ObjectReference, Duration, FailureDomains, MachineAddresses and bool are not modelled. Encoding is infallible for the covered types.
- The DynamicObject is only its `data` tree. Kubernetes API calls, object metadata and patch application are out of scope.
- The pure catalog files are constant pointer lists without behaviour. These are controlplane_template.rs, infrastructure_machine.rs, bootstrap.rs, infrastructure_cluster_template.rs, infrastructure_machine_template.rs and bootstrap_config_template.rs. The other constant accessors of controlplane.rs and infrastructure_cluster.rs are left out too, except the machine-template metadata block.
- ready_condition_type and available_condition_type return constant strings.
- An array index is bounded only by the array's length; usize overflow of an index is not modelled.

## Findings

| source | as written | input that shows it | evidently intended | confidence | as-written member | corrected member |
|---|---|---|---|---|---|---|
| src/contract/metadata.rs:65, src/contract/metadata.rs:71 | `push_front("labels")` and `push_front("annotations")` put the token before the base pointer. The maps go to /labels/<base> and /annotations/<base>. | The control-plane machine-template metadata (base /spec/machineTemplate/metadata) with non-empty labels and annotations on an empty object. set returns Ok, yet get still fails with ResolveErr. | push_back. The maps go to <base>/labels and <base>/annotations, where get reads them. | not executed | ControlPlane.MachineTemplateMetadataNotReadBack | MetadataPatch.Metadata.AppendedApplyRoundTrip |

`Metadata.Set` and `Metadata.Apply` model the code as written. `AppendedApply`
is the corrected definition, and `AppendedApplyRoundTrip` together with
`ControlPlane.MachineTemplateMetadataAppendedReadBack` proves the intended
round trip for it.
