/** The documents a capability execution reads and writes, and the checks on them. */
module Capability {
  import opened Json
  import opened Text
  import opened Timestamps
  import States

  type i32 = n: int | -0x8000_0000 <= n < 0x8000_0000

  // ---------------------------------------------------------------- small checks

  function Number(n: i32): Json {
    if n >= 0 then PosInt(n) else NegInt(n)
  }

  /** A number read as a signed 64-bit integer. */
  function AsI64(v: Json): Option<int> {
    match v
    case PosInt(n) => if n < 0x8000_0000_0000_0000 then Some(n) else None
    case NegInt(n) => Some(n)
    case _ => None
  }

  predicate IsEffect(e: string) {
    e == "repo_read" || e == "local_write" || e == "process_spawn" || e == "network" || e == "repo_mutation"
  }

  predicate DeterminismValid(v: Json) {
    v == Str("deterministic") || v == Str("external_nondeterministic")
  }

  predicate DigestText(v: Json) {
    v.Str? && IsDigest(v.text)
  }

  /** Texts that are admitted and not seen before, read from the front. */
  predicate AllNew(items: seq<Json>, admits: string -> bool, seen: set<string>)
    decreases |items|
  {
    items == [] ||
    (items[0].Str? && admits(items[0].text) && items[0].text !in seen && AllNew(items[1..], admits, seen + {items[0].text}))
  }

  predicate NewTexts(v: Json, admits: string -> bool) {
    v.Arr? && AllNew(v.items, admits, {})
  }

  ghost predicate DistinctTexts(items: seq<Json>, admits: string -> bool) {
    && (forall i :: 0 <= i < |items| ==> items[i].Str? && admits(items[i].text))
    && (forall i, j :: 0 <= i < j < |items| ==> items[i] != items[j])
  }

  /** The front-to-back reading accepts exactly the lists of pairwise distinct admitted texts that avoid those seen before. */
  lemma {:induction false} NewExactly(items: seq<Json>, admits: string -> bool, seen: set<string>)
    ensures AllNew(items, admits, seen)
       <==> DistinctTexts(items, admits) && forall i :: 0 <= i < |items| ==> items[i].text !in seen
    decreases |items|
  {
    if items != [] {
      var first, rest := items[0], items[1..];
      assert items == [first] + rest && forall i :: 0 < i < |items| ==> items[i] == rest[i - 1];
      if first.Str? {
        NewExactly(rest, admits, seen + {first.text});
        assert DistinctTexts(items, admits) ==> forall i :: 0 < i < |items| ==> items[i] != first;
      }
    }
  }

  /** The texts of an array; nothing for other values. */
  function TextSet(v: Json): set<string> {
    if v.Arr? then set item | item in v.items && item.Str? :: item.text else {}
  }

  // ---------------------------------------------------------------- parts of documents

  predicate ImplementationValid(v: Json) {
    && Exact(v, {"id", "version", "toolchainDigests"})
    && NonEmptyText(At(v, "id")) && NonEmptyText(At(v, "version"))
    && NewTexts(At(v, "toolchainDigests"), IsDigest)
  }

  predicate EffectsValid(v: Json) {
    NewTexts(v, IsEffect)
  }

  predicate SnapshotValid(v: Json) {
    && Exact(v, {"identity", "repoIdentity", "head", "workingTreePolicy", "scope", "inputDigest"})
    && DigestText(At(v, "identity")) && DigestText(At(v, "inputDigest"))
    && NonEmptyText(At(v, "repoIdentity")) && NonEmptyText(At(v, "head"))
    && (At(v, "workingTreePolicy") == Str("head_only") || At(v, "workingTreePolicy") == Str("explicit_overlay"))
    && NewTexts(At(v, "scope"), s => s != "")
  }

  const ARTIFACT_SCHEMA := "code-intel-artifact-ref.v1"

  predicate ArtifactShape(v: Json) {
    && Exact(v, {"schema", "artifactSchema", "type", "path", "sha256", "consumedSnapshotIdentity"})
    && At(v, "schema") == Str(ARTIFACT_SCHEMA)
    && NonEmptyText(At(v, "artifactSchema")) && NonEmptyText(At(v, "type")) && NonEmptyText(At(v, "path"))
    && DigestText(At(v, "sha256"))
    && (At(v, "consumedSnapshotIdentity").Null? || DigestText(At(v, "consumedSnapshotIdentity")))
  }

  /** A component of two dots starts here. */
  predicate ParentAt(path: string, i: nat) {
    && i + 2 <= |path| && path[i] == '.' && path[i + 1] == '.'
    && (i == 0 || path[i - 1] == '/')
    && (i + 2 == |path| || path[i + 2] == '/')
  }

  /** The path is absolute or goes up somewhere. */
  predicate Escapes(path: string) {
    (path != "" && path[0] == '/') || exists i :: 0 <= i < |path| && ParentAt(path, i)
  }

  // ---------------------------------------------------------------- requests and declarations

  const REQUEST_SCHEMA := "code-intel-capability-request.v1"
  const DECLARATION_SCHEMA := "code-intel-capability-declaration.v1"
  const RESULT_SCHEMA := "code-intel-capability-result.v1"

  predicate RequestValid(v: Json) {
    && Exact(v, {"schema", "capability", "contractVersion", "implementation", "snapshot", "options", "inputs", "effectPolicy"})
    && At(v, "schema") == Str(REQUEST_SCHEMA) && At(v, "contractVersion") == PosInt(1)
    && IdText(At(v, "capability"))
    && ImplementationValid(At(v, "implementation"))
    && SnapshotValid(At(v, "snapshot"))
    && At(v, "options").Obj? && At(v, "inputs").Arr?
    && (forall i :: 0 <= i < |At(v, "inputs").items| ==> ArtifactShape(At(v, "inputs").items[i]))
    && Exact(At(v, "effectPolicy"), {"allowedEffects"})
    && EffectsValid(AllowedEffects(v))
  }

  predicate IdText(v: Json) {
    v.Str? && ValidId(v.text)
  }

  function AllowedEffects(request: Json): Json {
    At(At(request, "effectPolicy"), "allowedEffects")
  }

  function SnapshotIdentity(request: Json): Json {
    At(At(request, "snapshot"), "identity")
  }

  predicate DeclarationValid(v: Json) {
    && Exact(v, {"schema", "id", "contractVersion", "implementation", "determinism", "allowedEffects", "dependencies"})
    && At(v, "schema") == Str(DECLARATION_SCHEMA) && At(v, "contractVersion") == PosInt(1)
    && IdText(At(v, "id"))
    && ImplementationValid(At(v, "implementation"))
    && DeterminismValid(At(v, "determinism"))
    && EffectsValid(At(v, "allowedEffects"))
    && NewTexts(At(v, "dependencies"), ValidId)
  }

  predicate Coheres(declaration: Json, request: Json) {
    && At(request, "capability") == At(declaration, "id")
    && At(request, "implementation") == At(declaration, "implementation")
    && TextSet(AllowedEffects(request)) <= TextSet(At(declaration, "allowedEffects"))
  }

  // ---------------------------------------------------------------- results

  /** The combinations of status, verdict, domain verdict and exit code a result may carry. */
  predicate LegalEnd(status: Json, verdict: Json, domain: Json, exit: int) {
    || (status == Str("completed") && (verdict == Str("pass") || verdict == Str("not_applicable"))
        && (domain == Str("pass") || domain == Str("unknown") || domain == Str("not_applicable")) && exit == 0)
    || (status == Str("completed") && verdict == Str("fail") && domain == Str("fail") && exit == 10)
    || (status == Str("blocked") && verdict == Str("unknown") && domain == Str("unknown") && exit == 20)
    || (status == Str("failed") && verdict == Str("unknown") && domain == Str("unknown") && FailureExit(exit))
  }

  predicate FailureExit(exit: int) {
    exit == 64 || exit == 65 || exit == 69 || exit == 70 || exit == 74
  }

  predicate DomainVerdictValid(v: Json) {
    v == Str("pass") || v == Str("fail") || v == Str("unknown") || v == Str("not_applicable")
  }

  predicate CacheValid(v: Json) {
    Exact(v, {"key", "hit"}) && (At(v, "key").Null? || DigestText(At(v, "key"))) && At(v, "hit").Bool?
  }

  predicate ArtifactsValid(v: Json) {
    v.Arr? && forall i :: 0 <= i < |v.items| ==> Contained(v.items[i])
  }

  /** An artifact reference whose path stays within the output directory. */
  predicate Contained(v: Json) {
    ArtifactShape(v) && !Escapes(At(v, "path").text)
  }

  predicate DiagnosticsValid(v: Json) {
    v.Arr? && forall i :: 0 <= i < |v.items| ==> v.items[i].Str?
  }

  predicate ProvenanceValid(v: Json) {
    && v.Obj? && v.fields.Keys <= {"attemptId", "generatedAt", "provider", "model", "configurationDigest"}
    && NonEmptyText(At(v, "attemptId"))
    && At(v, "generatedAt").Str? && IsRfc3339Utc(At(v, "generatedAt").text)
    && ("provider" in v.fields ==> NonEmptyText(v.fields["provider"]))
    && ("model" in v.fields ==> NonEmptyText(v.fields["model"]))
    && ("configurationDigest" in v.fields ==> DigestText(v.fields["configurationDigest"]))
  }

  predicate ResultKeys(v: Json) {
    Exact(v, {"schema", "capability", "implementation", "snapshotIdentity", "status", "verdict", "domainVerdict", "exitCode",
              "determinism", "declaredEffects", "observedEffects", "cache", "artifacts", "diagnostics", "provenance"})
  }

  /** The check every result must pass before it is emitted. */
  predicate EnvelopeValid(v: Json) {
    && ResultKeys(v)
    && At(v, "schema") == Str(RESULT_SCHEMA)
    && IdText(At(v, "capability"))
    && ImplementationValid(At(v, "implementation"))
    && DigestText(At(v, "snapshotIdentity"))
    && DeterminismValid(At(v, "determinism"))
    && EffectsValid(At(v, "declaredEffects"))
    && EffectsValid(At(v, "observedEffects"))
    && CacheValid(At(v, "cache"))
    && ArtifactsValid(At(v, "artifacts"))
    && DiagnosticsValid(At(v, "diagnostics"))
    && ProvenanceValid(At(v, "provenance"))
    && AsI64(At(v, "exitCode")).Some?
    && DomainVerdictValid(At(v, "domainVerdict"))
    && LegalEnd(At(v, "status"), At(v, "verdict"), At(v, "domainVerdict"), AsI64(At(v, "exitCode")).value)
  }

  /** The result speaks of this request. */
  predicate SpeaksOf(result: Json, request: Json) {
    && At(result, "capability") == At(request, "capability")
    && At(result, "implementation") == At(request, "implementation")
    && At(result, "snapshotIdentity") == SnapshotIdentity(request)
    && At(result, "declaredEffects") == AllowedEffects(request)
  }

  predicate AllConsume(artifacts: seq<Json>, snapshot: Json) {
    forall i :: 0 <= i < |artifacts| ==> At(artifacts[i], "consumedSnapshotIdentity") == snapshot
  }

  /** The check on a successful execution's result, against its request and its declaration. */
  predicate ResultValid(result: Json, request: Json, declaration: Json) {
    && EnvelopeValid(result)
    && AllConsume(At(result, "artifacts").items, At(result, "snapshotIdentity"))
    && SpeaksOf(result, request)
    && At(result, "determinism") == At(declaration, "determinism")
    && TextSet(At(result, "observedEffects")) <= TextSet(At(result, "declaredEffects"))
  }

  // ---------------------------------------------------------------- the registry

  datatype Registered = Registered(ids: set<string>, found: Option<(Json, string)>)

  datatype RegistryFault = NotAnArray | MissingId | DuplicateId

  function DeclarationOf(entry: Json): Option<Json> {
    Get(entry, "capabilityDeclaration")
  }

  function DeclaredId(entry: Json): Option<string> {
    ThenText(Then(DeclarationOf(entry), "id"))
  }

  function AdapterOf(entry: Json): string {
    match ThenText(Get(entry, "runtimeAdapter")) case Some(name) => name case None => ""
  }

  /** The registry read through its last entry. */
  function Read(entries: seq<Json>, capability: string): Result<Registered, RegistryFault> {
    if entries == [] then Ok(Registered({}, None))
    else
      match Read(entries[..|entries| - 1], capability)
      case Err(e) => Err(e)
      case Ok(read) => ReadEntry(read, entries[|entries| - 1], capability)
  }

  function ReadEntry(read: Registered, entry: Json, capability: string): Result<Registered, RegistryFault> {
    if DeclarationOf(entry).None? then Ok(read)
    else
      match DeclaredId(entry)
      case None => Err(MissingId)
      case Some(id) =>
        if id in read.ids then Err(DuplicateId)
        else Ok(Registered(read.ids + {id}, if id == capability then Some((DeclarationOf(entry).value, AdapterOf(entry))) else read.found))
  }

  function Find(registry: Json, capability: string): Result<Option<(Json, string)>, RegistryFault> {
    if !At(registry, "integrations").Arr? then Err(NotAnArray)
    else
      match Read(At(registry, "integrations").items, capability)
      case Err(e) => Err(e)
      case Ok(read) => Ok(read.found)
  }

  method FindDeclaration(registry: Json, capability: string) returns (r: Result<Option<(Json, string)>, RegistryFault>)
    ensures r == Find(registry, capability)
  {
    if !At(registry, "integrations").Arr? {
      return Err(NotAnArray);
    }
    var entries := At(registry, "integrations").items;
    var ids: set<string>, found: Option<(Json, string)> := {}, None;
    for i := 0 to |entries|
      invariant Read(entries[..i], capability) == Ok(Registered(ids, found))
    {
      assert entries[..i + 1][..i] == entries[..i];
      var declaration := DeclarationOf(entries[i]);
      if declaration.Some? {
        var id := ThenText(Get(declaration.value, "id"));
        if id.None? || id.value in ids {
          ReadStops(entries, i + 1, capability);
          return Err(if id.None? then MissingId else DuplicateId);
        }
        ids := ids + {id.value};
        if id.value == capability {
          found := Some((declaration.value, AdapterOf(entries[i])));
        }
      }
    }
    assert entries[..|entries|] == entries;
    r := Ok(found);
  }

  /** The first faulty entry decides. */
  lemma {:induction false} ReadStops(entries: seq<Json>, k: nat, capability: string)
    requires k <= |entries| && Read(entries[..k], capability).Err?
    ensures Read(entries, capability) == Read(entries[..k], capability)
    decreases |entries|
  {
    if k == |entries| {
      assert entries[..k] == entries;
    } else {
      assert entries[..|entries| - 1][..k] == entries[..k];
      ReadStops(entries[..|entries| - 1], k, capability);
    }
  }

  /** Every declaration has an id, and no id is declared twice. */
  ghost predicate WellRegistered(entries: seq<Json>) {
    && (forall i :: 0 <= i < |entries| ==> DeclarationOf(entries[i]).Some? ==> DeclaredId(entries[i]).Some?)
    && (forall i, j :: 0 <= i < j < |entries| && DeclaredId(entries[i]).Some? ==> DeclaredId(entries[i]) != DeclaredId(entries[j]))
  }

  ghost predicate Declares(entries: seq<Json>, i: nat, capability: string) {
    i < |entries| && DeclaredId(entries[i]) == Some(capability)
  }

  ghost function IdsIn(entries: seq<Json>): set<string> {
    set i | 0 <= i < |entries| && DeclaredId(entries[i]).Some? :: DeclaredId(entries[i]).value
  }

  lemma IdsInSnoc(front: seq<Json>, entry: Json)
    ensures IdsIn(front + [entry]) == IdsIn(front) + if DeclaredId(entry).Some? then {DeclaredId(entry).value} else {}
  {
    var entries := front + [entry];
    assert entries[|front|] == entry && forall i :: 0 <= i < |front| ==> entries[i] == front[i];
    hide DeclaredId;
    forall id | id in IdsIn(front) ensures id in IdsIn(entries) {
      var i :| 0 <= i < |front| && DeclaredId(front[i]) == Some(id);
      assert DeclaredId(entries[i]) == Some(id);
    }
  }

  lemma WellSnoc(front: seq<Json>, entry: Json)
    ensures WellRegistered(front + [entry])
       <==> && WellRegistered(front) && (DeclarationOf(entry).Some? ==> DeclaredId(entry).Some?)
            && (DeclaredId(entry).Some? ==> DeclaredId(entry).value !in IdsIn(front))
  {
    var entries := front + [entry];
    assert entries[|front|] == entry && forall i :: 0 <= i < |front| ==> entries[i] == front[i];
    hide DeclaredId, DeclarationOf;
    if WellRegistered(entries) {
      assert forall i :: 0 <= i < |front| && DeclaredId(front[i]).Some? ==> DeclaredId(entries[i]) != DeclaredId(entries[|front|]);
    }
  }

  /** What reading the entries finds: the declaration with this id and its adapter, or nothing. */
  ghost predicate Finds(entries: seq<Json>, capability: string, found: Option<(Json, string)>) {
    if found.None? then forall i :: 0 <= i < |entries| ==> DeclaredId(entries[i]) != Some(capability)
    else exists i :: 0 <= i < |entries| && IsEntry(entries[i], capability, found.value)
  }

  predicate IsEntry(entry: Json, capability: string, found: (Json, string)) {
    DeclaredId(entry) == Some(capability) && DeclarationOf(entry) == Some(found.0) && AdapterOf(entry) == found.1
  }

  lemma FindsSnoc(front: seq<Json>, entry: Json, capability: string, found: Option<(Json, string)>)
    requires Finds(front, capability, found)
    ensures DeclaredId(entry) != Some(capability) ==> Finds(front + [entry], capability, found)
    ensures forall here :: IsEntry(entry, capability, here) ==> Finds(front + [entry], capability, Some(here))
  {
    var entries := front + [entry];
    assert entries[|front|] == entry && forall i :: 0 <= i < |front| ==> entries[i] == front[i];
    hide DeclaredId, IsEntry;
    if found.Some? {
      var i :| 0 <= i < |front| && IsEntry(front[i], capability, found.value);
      assert IsEntry(entries[i], capability, found.value);
    }
  }

  /** The registry is readable exactly when it is well registered, and then the search finds what is there. */
  lemma {:induction false} ReadExactly(entries: seq<Json>, capability: string)
    ensures var r := Read(entries, capability);
            && (r.Ok? <==> WellRegistered(entries))
            && (r.Ok? ==> r.value.ids == IdsIn(entries) && Finds(entries, capability, r.value.found))
  {
    if entries != [] {
      var front, entry := entries[..|entries| - 1], entries[|entries| - 1];
      assert entries == front + [entry];
      ReadExactly(front, capability);
      IdsInSnoc(front, entry);
      WellSnoc(front, entry);
      if Read(front, capability).Ok? {
        FindsSnoc(front, entry, capability, Read(front, capability).value.found);
      }
      hide WellRegistered, IdsIn, AdapterOf, Finds;
    }
  }

  /** In a well registered list at most one entry carries an id, so what is found is unique. */
  lemma FoundOnce(entries: seq<Json>, capability: string, one: (Json, string), two: (Json, string))
    requires WellRegistered(entries) && Finds(entries, capability, Some(one)) && Finds(entries, capability, Some(two))
    ensures one == two
  {
    var i :| 0 <= i < |entries| && IsEntry(entries[i], capability, one);
    var j :| 0 <= j < |entries| && IsEntry(entries[j], capability, two);
    hide DeclaredId, DeclarationOf, AdapterOf;
    assert i < j ==> DeclaredId(entries[i]) != DeclaredId(entries[j]);
    assert j < i ==> DeclaredId(entries[j]) != DeclaredId(entries[i]);
  }
}
