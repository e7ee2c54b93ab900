/** The execution of one capability request: what it emits, and when it succeeds. */
module CapabilityExec {
  import opened Json
  import opened Text
  import opened Timestamps
  import opened Calendar
  import opened Capability
  import opened Fips180
  import opened Octets
  import opened States

  // ---------------------------------------------------------------- the surroundings

  /** The clock and the process as one envelope sees them: the clock is read twice. */
  datatype Reading = Reading(attempted: u64, generated: u64, process: nat)

  datatype AdapterArtifact = AdapterArtifact(artifactSchema: string, artifactType: string, path: string, bytes: Bytes)

  datatype AdapterReturn =
    | Output(artifacts: seq<AdapterArtifact>, observed: seq<string>, verdict: Verdict, domainFailure: Option<string>)
    | InvalidOptions(message: string)
    | ContractError(message: string)
    | UnavailableError(message: string)
    | InternalError(message: string)
    | IoError(message: string)

  datatype RegistryLoad = Loaded(registry: Json) | RegistryUnavailable | RegistryInvalid

  datatype InputFault = InputIo | InputContract

  /** Everything outside: the registry file, the artifact files, the adapter, and the clock for either envelope. */
  datatype World = World(
    load: RegistryLoad,
    verify: (Json, string) -> Option<InputFault>,
    adapter: (string, Json) -> AdapterReturn,
    first: Reading,
    later: Reading)

  datatype Outcome = Outcome(result: Option<Json>, stderr: Option<string>, exitCode: i32)

  // ---------------------------------------------------------------- the envelopes

  /** A 64-bit clock reading as the signed number the calendar conversion takes. */
  function Signed(n: u64): int {
    if n < 0x8000_0000_0000_0000 then n else n - U64
  }

  function Provenance(at: Reading): Json {
    Obj(map["attemptId" := Str("capability-" + Decimal(at.attempted) + "-" + Decimal(at.process)),
            "generatedAt" := Str(Rfc3339(Signed(at.generated)))])
  }

  /** The reading falls in a year the timestamp check admits. */
  predicate Dated(at: Reading) {
    1 <= CivilFromDaysTruncating(Signed(at.generated) / 86400).year <= 9999
  }

  const PLACEHOLDER_ID := "invalid.request"

  const PLACEHOLDER_IMPLEMENTATION := Obj(map["id" := Str(PLACEHOLDER_ID), "version" := Str("1"), "toolchainDigests" := Arr([])])

  const NO_CACHE := Obj(map["key" := Null, "hit" := Bool(false)])

  function CapabilityOf(request: Json): Json {
    var v := At(request, "capability");
    if IdText(v) then v else Str(PLACEHOLDER_ID)
  }

  function ImplementationOf(request: Json): Json {
    var v := At(request, "implementation");
    if ImplementationValid(v) then v else PLACEHOLDER_IMPLEMENTATION
  }

  function IdentityOf(request: Json): Json {
    var v := SnapshotIdentity(request);
    if DigestText(v) then v else Str(ZERO_DIGEST)
  }

  function EffectsOf(request: Json): Json {
    var v := AllowedEffects(request);
    if EffectsValid(v) then v else Arr([])
  }

  datatype Parts = Parts(capability: Json, implementation: Json, snapshot: Json, status: string, verdict: string, domain: string,
                         exit: i32, determinism: Json, declared: Json, observed: Json, artifacts: Json, diagnostics: Json)

  /** A result from its parts. */
  function Envelope(p: Parts, at: Reading): Json {
    Obj(map["schema" := Str(RESULT_SCHEMA), "capability" := p.capability, "implementation" := p.implementation,
            "snapshotIdentity" := p.snapshot, "status" := Str(p.status), "verdict" := Str(p.verdict), "domainVerdict" := Str(p.domain),
            "exitCode" := Number(p.exit), "determinism" := p.determinism, "declaredEffects" := p.declared,
            "observedEffects" := p.observed, "cache" := NO_CACHE, "artifacts" := p.artifacts, "diagnostics" := p.diagnostics,
            "provenance" := Provenance(at)])
  }

  /** A failure speaks of whatever it can read in the request, valid or not. */
  function FailureParts(request: Json, exit: i32, message: string, determinism: string): Parts {
    Parts(CapabilityOf(request), ImplementationOf(request), IdentityOf(request), "failed", "unknown", "unknown", exit,
          Str(determinism), EffectsOf(request), Arr([]), Arr([]), Arr([Str(message)]))
  }

  function FailureEnvelope(request: Json, exit: i32, message: string, determinism: string, at: Reading): Json {
    Envelope(FailureParts(request, exit, message, determinism), at)
  }

  function DeclaredDeterminism(declaration: Json): string {
    var v := At(declaration, "determinism");
    if v.Str? && DeterminismValid(v) then v.text else "deterministic"
  }

  function VerdictText(v: Verdict): string {
    match v case Pass => "pass" case Fail => "fail" case Unknown => "unknown" case NotApplicable => "not_applicable"
  }

  function ArtifactJson(a: AdapterArtifact, request: Json): Json {
    Obj(map["schema" := Str(ARTIFACT_SCHEMA), "artifactSchema" := Str(a.artifactSchema), "type" := Str(a.artifactType),
            "path" := Str(a.path), "sha256" := Str(Sha256Hex(a.bytes)), "consumedSnapshotIdentity" := SnapshotIdentity(request)])
  }

  function ArtifactsJson(artifacts: seq<AdapterArtifact>, request: Json): Json {
    Arr(seq(|artifacts|, i requires 0 <= i < |artifacts| => ArtifactJson(artifacts[i], request)))
  }

  function TextsJson(texts: seq<string>): Json {
    Arr(seq(|texts|, i requires 0 <= i < |texts| => Str(texts[i])))
  }

  // ---------------------------------------------------------------- the execution

  function Fail(request: Json, exit: i32, message: string, determinism: string, at: Reading): Outcome {
    Outcome(Some(FailureEnvelope(request, exit, message, determinism, at)), Some(message), exit)
  }

  function FailDeclared(request: Json, declaration: Json, exit: i32, message: string, at: Reading): Outcome {
    Fail(request, exit, message, DeclaredDeterminism(declaration), at)
  }

  function BaseParts(request: Json, declaration: Json, output: AdapterReturn, exit: i32, verdict: string, diagnostics: seq<string>): Parts
    requires output.Output?
  {
    Parts(At(request, "capability"), At(request, "implementation"), SnapshotIdentity(request), "completed", verdict,
          VerdictText(output.verdict), exit, At(declaration, "determinism"), AllowedEffects(request), TextsJson(output.observed),
          ArtifactsJson(output.artifacts, request), TextsJson(diagnostics))
  }

  const MISSING_DIAGNOSTIC := "domain fail without a diagnostic"

  /** The result made of an adapter's output, before it is checked; nothing when verdict and diagnostic contradict each other. */
  function Completed(request: Json, declaration: Json, output: AdapterReturn): Option<Parts>
    requires output.Output?
  {
    if output.verdict.Fail? then
      var diagnostic := if output.domainFailure.Some? then output.domainFailure.value else MISSING_DIAGNOSTIC;
      Some(BaseParts(request, declaration, output, 10, "fail", [diagnostic]))
    else if output.domainFailure.None? then
      Some(BaseParts(request, declaration, output, 0, "pass", []))
    else None
  }

  function Deliver(request: Json, declaration: Json, returned: AdapterReturn, w: World): Outcome {
    match returned
    case InvalidOptions(message) => FailDeclared(request, declaration, 64, message, w.later)
    case ContractError(message) => FailDeclared(request, declaration, 65, message, w.later)
    case UnavailableError(message) => FailDeclared(request, declaration, 69, message, w.later)
    case InternalError(message) => FailDeclared(request, declaration, 70, message, w.later)
    case IoError(message) => FailDeclared(request, declaration, 74, message, w.later)
    case Output(_, _, _, _) =>
      match Completed(request, declaration, returned)
      case None => FailDeclared(request, declaration, 70, "domain failure diagnostic", w.later)
      case Some(parts) =>
        if ResultValid(Envelope(parts, w.first), request, declaration) then Outcome(Some(Envelope(parts, w.first)), None, parts.exit)
        else FailDeclared(request, declaration, 70, "invalid result", w.later)
  }

  function Execute(cli: string, request: Json, w: World): Outcome {
    if !RequestValid(request) then Fail(request, 64, "invalid request", "deterministic", w.later)
    else
      match w.load
      case RegistryUnavailable => Fail(request, 69, "registry unavailable", "deterministic", w.later)
      case RegistryInvalid => Fail(request, 65, "registry invalid", "deterministic", w.later)
      case Loaded(registry) =>
        match Find(registry, cli)
        case Err(_) => Fail(request, 65, "registry entries", "deterministic", w.later)
        case Ok(None) => Fail(request, 64, "no declaration", "deterministic", w.later)
        case Ok(Some((declaration, adapter))) => Run(cli, request, declaration, adapter, w)
  }

  function Run(cli: string, request: Json, declaration: Json, adapter: string, w: World): Outcome {
    if At(request, "capability") != Str(cli) then FailDeclared(request, declaration, 64, "other capability", w.later)
    else if !DeclarationValid(declaration) then FailDeclared(request, declaration, 65, "invalid declaration", w.later)
    else if !Coheres(declaration, request) then FailDeclared(request, declaration, 64, "incoherent", w.later)
    else
      match w.verify(At(request, "inputs"), TextOr(SnapshotIdentity(request)))
      case Some(InputIo) => FailDeclared(request, declaration, 74, "input files", w.later)
      case Some(InputContract) => FailDeclared(request, declaration, 65, "inputs", w.later)
      case None => Deliver(request, declaration, w.adapter(adapter, request), w)
  }

  function TextOr(v: Json): string {
    if v.Str? then v.text else ""
  }

  /** A caller in the same process refuses an envelope that fails the check. */
  function InProcess(outcome: Outcome): Outcome {
    if outcome.result.Some? && !EnvelopeValid(outcome.result.value) then Outcome(None, Some("refused"), 70) else outcome
  }

  // ---------------------------------------------------------------- parts of an envelope

  lemma EnvelopeKeys(p: Parts, at: Reading)
    ensures ResultKeys(Envelope(p, at))
  {
    hide Provenance, Number;
  }

  lemma EnvelopeSubject(p: Parts, at: Reading)
    ensures var v := Envelope(p, at);
            && At(v, "schema") == Str(RESULT_SCHEMA) && At(v, "capability") == p.capability
            && At(v, "implementation") == p.implementation && At(v, "snapshotIdentity") == p.snapshot
  {
    hide Provenance, Number;
  }

  lemma EnvelopeEnd(p: Parts, at: Reading)
    ensures var v := Envelope(p, at);
            && At(v, "status") == Str(p.status) && At(v, "verdict") == Str(p.verdict)
            && At(v, "domainVerdict") == Str(p.domain) && At(v, "exitCode") == Number(p.exit)
  {
    hide Provenance, Number;
  }

  lemma EnvelopeTail(p: Parts, at: Reading)
    ensures var v := Envelope(p, at);
            && At(v, "determinism") == p.determinism && At(v, "declaredEffects") == p.declared
            && At(v, "observedEffects") == p.observed && At(v, "cache") == NO_CACHE && At(v, "artifacts") == p.artifacts
            && At(v, "diagnostics") == p.diagnostics && At(v, "provenance") == Provenance(at)
  {
    hide Provenance, Number;
  }

  lemma ProvenanceDated(at: Reading)
    ensures ProvenanceValid(Provenance(at)) <==> Dated(at)
  {
    GeneratedTimestampAccepted(Signed(at.generated));
    hide IsRfc3339Utc, Rfc3339, CivilFromDaysTruncating, Decimal;
    assert "capability-" + Decimal(at.attempted) + "-" + Decimal(at.process) != "";
  }

  lemma ExitReads(exit: i32)
    ensures AsI64(Number(exit)) == Some(exit)
  {
  }

  lemma NoCacheValid()
    ensures CacheValid(NO_CACHE)
  {
  }

  /** What an envelope made of parts needs to be valid. */
  predicate PartsValid(p: Parts) {
    && IdText(p.capability) && ImplementationValid(p.implementation) && DigestText(p.snapshot) && DeterminismValid(p.determinism)
    && EffectsValid(p.declared) && EffectsValid(p.observed) && ArtifactsValid(p.artifacts) && DiagnosticsValid(p.diagnostics)
    && DomainVerdictValid(Str(p.domain)) && LegalEnd(Str(p.status), Str(p.verdict), Str(p.domain), p.exit)
  }

  lemma EnvelopeExactly(p: Parts, at: Reading)
    ensures EnvelopeValid(Envelope(p, at)) <==> PartsValid(p) && Dated(at)
  {
    EnvelopeKeys(p, at);
    EnvelopeSubject(p, at);
    EnvelopeEnd(p, at);
    EnvelopeTail(p, at);
    ProvenanceDated(at);
    ExitReads(p.exit);
    NoCacheValid();
    hide Envelope, CacheValid, ProvenanceValid, Provenance, AsI64, Number, At, ResultKeys, IdText, ImplementationValid, DigestText,
      DeterminismValid, EffectsValid, ArtifactsValid, DiagnosticsValid, Dated, LegalEnd, DomainVerdictValid;
  }

  // ---------------------------------------------------------------- failures

  lemma PlaceholdersValid()
    ensures IdText(Str(PLACEHOLDER_ID)) && ImplementationValid(PLACEHOLDER_IMPLEMENTATION) && DigestText(Str(ZERO_DIGEST))
    ensures EffectsValid(Arr([])) && ArtifactsValid(Arr([]))
  {
    PlaceholderId();
    ZerosDigest();
    hide IdText, DigestText;
  }

  lemma PlaceholderId()
    ensures IdText(Str(PLACEHOLDER_ID))
  {
  }

  lemma ZerosDigest()
    ensures DigestText(Str(ZERO_DIGEST))
  {
  }

  lemma FailurePartsValid(request: Json, exit: i32, message: string, determinism: string)
    ensures PartsValid(FailureParts(request, exit, message, determinism))
       <==> FailureExit(exit) && DeterminismValid(Str(determinism))
  {
    PlaceholdersValid();
    hide IdText, ImplementationValid, DigestText, EffectsValid, ArtifactsValid, DeterminismValid, FailureExit, At, SnapshotIdentity, AllowedEffects;
  }

  /** Whatever the request is, even one no check admits, a failure's envelope passes the check exactly for the failure exits. */
  lemma FailureAccepted(request: Json, exit: i32, message: string, determinism: string, at: Reading)
    ensures EnvelopeValid(FailureEnvelope(request, exit, message, determinism, at))
       <==> FailureExit(exit) && DeterminismValid(Str(determinism)) && Dated(at)
  {
    EnvelopeExactly(FailureParts(request, exit, message, determinism), at);
    FailurePartsValid(request, exit, message, determinism);
    hide EnvelopeValid, PartsValid, FailureParts, Envelope, Dated, FailureExit, DeterminismValid;
  }

  /** A failure speaks of its own request exactly when nothing in the request had to be replaced. */
  lemma FailureBoundExactly(request: Json, exit: i32, message: string, determinism: string, at: Reading)
    ensures SpeaksOf(FailureEnvelope(request, exit, message, determinism, at), request)
       <==> && IdText(At(request, "capability")) && ImplementationValid(At(request, "implementation"))
            && DigestText(SnapshotIdentity(request)) && EffectsValid(AllowedEffects(request))
  {
    var p := FailureParts(request, exit, message, determinism);
    EnvelopeSubject(p, at);
    EnvelopeTail(p, at);
    PlaceholdersValid();
    hide Envelope, IdText, ImplementationValid, DigestText, EffectsValid, At, SnapshotIdentity, AllowedEffects, ArtifactsValid;
  }

  // ---------------------------------------------------------------- completed executions

  /** What an adapter must return for its result to be emitted. */
  ghost predicate OutputAdmitted(output: AdapterReturn, request: Json) {
    && output.Output?
    && (output.domainFailure.Some? ==> output.verdict.Fail?)
    && (forall i :: 0 <= i < |output.artifacts| ==> ArtifactAdmitted(output.artifacts[i]))
    && EffectsListed(output.observed)
    && (forall i :: 0 <= i < |output.observed| ==> output.observed[i] in TextSet(AllowedEffects(request)))
  }

  predicate ArtifactAdmitted(a: AdapterArtifact) {
    a.artifactSchema != "" && a.artifactType != "" && a.path != "" && !Escapes(a.path)
  }

  predicate EffectsListed(texts: seq<string>) {
    && (forall i :: 0 <= i < |texts| ==> IsEffect(texts[i]))
    && (forall i, j :: 0 <= i < j < |texts| ==> texts[i] != texts[j])
  }

  lemma ArtifactExactly(a: AdapterArtifact, request: Json)
    requires DigestText(SnapshotIdentity(request))
    ensures var v := ArtifactJson(a, request);
            && (Contained(v) <==> ArtifactAdmitted(a))
            && At(v, "consumedSnapshotIdentity") == SnapshotIdentity(request)
  {
    HexDigestText(a.bytes);
    hide Escapes, SnapshotIdentity, DigestText, Sha256Hex;
  }

  lemma HexDigestText(bytes: Bytes)
    ensures DigestText(Str(Sha256Hex(bytes)))
  {
    HexOfEight(Hash(bytes));
    hide IsDigest, Hex, Hash;
  }

  lemma ArtifactsExactly(artifacts: seq<AdapterArtifact>, request: Json)
    requires DigestText(SnapshotIdentity(request))
    ensures var v := ArtifactsJson(artifacts, request);
            && (ArtifactsValid(v) <==> forall i :: 0 <= i < |artifacts| ==> ArtifactAdmitted(artifacts[i]))
            && AllConsume(v.items, SnapshotIdentity(request))
  {
    var v := ArtifactsJson(artifacts, request);
    hide ArtifactJson, IsDigest, SnapshotIdentity, DigestText, Contained, ArtifactAdmitted, At;
    forall i | 0 <= i < |artifacts|
      ensures Contained(v.items[i]) <==> ArtifactAdmitted(artifacts[i])
      ensures At(v.items[i], "consumedSnapshotIdentity") == SnapshotIdentity(request)
    {
      ArtifactExactly(artifacts[i], request);
    }
  }

  lemma EffectsExactly(texts: seq<string>)
    ensures EffectsValid(TextsJson(texts)) <==> EffectsListed(texts)
  {
    var items := TextsJson(texts).items;
    NewExactly(items, IsEffect, {});
    assert forall i :: 0 <= i < |texts| ==> items[i] == Str(texts[i]);
    hide AllNew, TextsJson, IsEffect;
    if DistinctTexts(items, IsEffect) {
      assert forall i :: 0 <= i < |texts| ==> IsEffect(items[i].text);
      assert forall i, j :: 0 <= i < j < |texts| ==> items[i] != items[j];
    }
  }

  lemma TextsSubset(texts: seq<string>, allowed: set<string>)
    ensures TextSet(TextsJson(texts)) <= allowed <==> forall i :: 0 <= i < |texts| ==> texts[i] in allowed
  {
    var items := TextsJson(texts).items;
    assert forall i :: 0 <= i < |texts| ==> items[i] == Str(texts[i]) && items[i] in items;
    assert forall i :: 0 <= i < |texts| ==> texts[i] in TextSet(TextsJson(texts));
  }

  lemma RequestParts(request: Json)
    requires RequestValid(request)
    ensures IdText(At(request, "capability")) && ImplementationValid(At(request, "implementation"))
    ensures DigestText(SnapshotIdentity(request)) && EffectsValid(AllowedEffects(request))
  {
    hide IdText, ImplementationValid, DigestText, EffectsValid, At, ArtifactShape;
  }

  lemma DeclaredDeterminismValid(declaration: Json)
    ensures DeterminismValid(Str(DeclaredDeterminism(declaration)))
    ensures DeclarationValid(declaration) ==> DeterminismValid(At(declaration, "determinism"))
  {
  }

  lemma EndsLegally(output: AdapterReturn, request: Json, declaration: Json)
    requires output.Output? && Completed(request, declaration, output).Some?
    ensures var p := Completed(request, declaration, output).value;
            && DomainVerdictValid(Str(p.domain)) && LegalEnd(Str(p.status), Str(p.verdict), Str(p.domain), p.exit)
            && DiagnosticsValid(p.diagnostics)
            && p.exit == if output.verdict.Fail? then 10 else 0
  {
    hide At, SnapshotIdentity, AllowedEffects, ArtifactsJson, DomainVerdictValid, LegalEnd;
    VerdictLegal(output.verdict);
    hide VerdictText;
  }

  lemma VerdictLegal(verdict: Verdict)
    ensures DomainVerdictValid(Str(VerdictText(verdict)))
    ensures verdict.Fail? ==> LegalEnd(Str("completed"), Str("fail"), Str(VerdictText(verdict)), 10)
    ensures !verdict.Fail? ==> LegalEnd(Str("completed"), Str("pass"), Str(VerdictText(verdict)), 0)
  {
  }

  lemma CompletedParts(output: AdapterReturn, request: Json, declaration: Json)
    requires output.Output? && Completed(request, declaration, output).Some?
    ensures var p := Completed(request, declaration, output).value;
            && p.capability == At(request, "capability") && p.implementation == At(request, "implementation")
            && p.snapshot == SnapshotIdentity(request) && p.declared == AllowedEffects(request)
            && p.determinism == At(declaration, "determinism")
            && p.observed == TextsJson(output.observed) && p.artifacts == ArtifactsJson(output.artifacts, request)
            && p.artifacts.Arr? && (output.domainFailure.Some? ==> output.verdict.Fail?)
  {
    assert ArtifactsJson(output.artifacts, request).Arr?;
    hide At, SnapshotIdentity, AllowedEffects, ArtifactsJson, TextsJson, VerdictText;
  }

  /** The check made on the documents holds exactly when the adapter's output is admissible. */
  lemma OutputDecides(output: AdapterReturn, request: Json, declaration: Json, at: Reading)
    requires RequestValid(request) && DeclarationValid(declaration)
    requires output.Output? && Completed(request, declaration, output).Some?
    ensures ResultValid(Envelope(Completed(request, declaration, output).value, at), request, declaration)
       <==> OutputAdmitted(output, request) && Dated(at)
  {
    hide Envelope, EnvelopeValid, ResultValid, PartsValid, Completed, Dated, TextsJson, ArtifactsJson, TextSet, At, SnapshotIdentity, AllowedEffects,
      AllConsume, ArtifactsValid, EffectsListed, ArtifactAdmitted, RequestValid, DeclarationValid, DigestText, IdText, ImplementationValid, EffectsValid;
    var p := Completed(request, declaration, output).value;
    EnvelopeExactly(p, at);
    CompletedParts(output, request, declaration);
    ResultFromParts(p, request, declaration, at);
    CompletedValid(output, request, declaration);
    RequestParts(request);
    ArtifactsExactly(output.artifacts, request);
    TextsSubset(output.observed, TextSet(AllowedEffects(request)));
  }

  lemma CompletedValid(output: AdapterReturn, request: Json, declaration: Json)
    requires RequestValid(request) && DeclarationValid(declaration)
    requires output.Output? && Completed(request, declaration, output).Some?
    ensures PartsValid(Completed(request, declaration, output).value)
       <==> EffectsListed(output.observed) && forall i :: 0 <= i < |output.artifacts| ==> ArtifactAdmitted(output.artifacts[i])
  {
    RequestParts(request);
    DeclaredDeterminismValid(declaration);
    EndsLegally(output, request, declaration);
    CompletedParts(output, request, declaration);
    ArtifactsExactly(output.artifacts, request);
    EffectsExactly(output.observed);
    hide IdText, ImplementationValid, DigestText, DeterminismValid, EffectsValid, ArtifactsValid,
      DiagnosticsValid, DomainVerdictValid, LegalEnd, At, SnapshotIdentity, AllowedEffects, TextsJson, ArtifactsJson,
      EffectsListed, ArtifactAdmitted, RequestValid, DeclarationValid, Completed, AllConsume;
  }

  lemma ResultFromParts(p: Parts, request: Json, declaration: Json, at: Reading)
    requires p.capability == At(request, "capability") && p.implementation == At(request, "implementation")
    requires p.snapshot == SnapshotIdentity(request) && p.declared == AllowedEffects(request)
    requires p.determinism == At(declaration, "determinism") && p.artifacts.Arr?
    ensures ResultValid(Envelope(p, at), request, declaration)
       <==> EnvelopeValid(Envelope(p, at)) && AllConsume(p.artifacts.items, p.snapshot) && TextSet(p.observed) <= TextSet(p.declared)
  {
    EnvelopeSubject(p, at);
    EnvelopeTail(p, at);
    hide EnvelopeValid, Envelope, At, SnapshotIdentity, AllowedEffects, AllConsume, TextSet;
  }

  // ---------------------------------------------------------------- every execution

  /** Everything an execution needs to complete, given the declaration and adapter the registry holds for it. */
  ghost predicate Ready(cli: string, request: Json, w: World, found: (Json, string)) {
    && RequestValid(request) && At(request, "capability") == Str(cli)
    && w.load.Loaded? && Registers(w.load.registry, cli, found)
    && DeclarationValid(found.0) && Coheres(found.0, request)
    && w.verify(At(request, "inputs"), TextOr(SnapshotIdentity(request))).None?
    && OutputAdmitted(w.adapter(found.1, request), request)
    && Dated(w.first)
  }

  /** The registry is well formed and holds this declaration and adapter under the id. */
  ghost predicate Registers(registry: Json, capability: string, found: (Json, string)) {
    var entries := At(registry, "integrations");
    entries.Arr? && WellRegistered(entries.items) && Finds(entries.items, capability, Some(found))
  }

  lemma FindExactly(registry: Json, capability: string)
    ensures forall found :: Find(registry, capability) == Ok(Some(found)) <==> Registers(registry, capability, found)
  {
    if At(registry, "integrations").Arr? {
      var entries := At(registry, "integrations").items;
      ReadExactly(entries, capability);
      hide WellRegistered, At;
      forall found | Registers(registry, capability, found) ensures Find(registry, capability) == Ok(Some(found)) {
        var r := Find(registry, capability).value;
        if r.None? {
          assert false;
        }
        FoundOnce(entries, capability, found, r.value);
      }
    }
  }

  /** The outcome is a failure, with one of the failure exits and a determinism the check admits. */
  ghost predicate Failed(o: Outcome, request: Json, at: Reading) {
    exists exit: i32, message: string, determinism: string ::
      o == Fail(request, exit, message, determinism, at) && FailureExit(exit) && DeterminismValid(Str(determinism))
  }

  lemma FailedBy(request: Json, exit: i32, message: string, declaration: Json, at: Reading)
    requires FailureExit(exit)
    ensures Failed(Fail(request, exit, message, "deterministic", at), request, at)
    ensures Failed(FailDeclared(request, declaration, exit, message, at), request, at)
  {
    DeclaredDeterminismValid(declaration);
    hide Fail, FailureExit, DeclaredDeterminism;
  }

  /** The outcome is the adapter's own result. */
  predicate Succeeded(o: Outcome, request: Json, declaration: Json, output: AdapterReturn, at: Reading) {
    && output.Output? && Completed(request, declaration, output).Some?
    && var p := Completed(request, declaration, output).value;
       o == Outcome(Some(Envelope(p, at)), None, p.exit)
  }

  lemma Delivers(request: Json, declaration: Json, returned: AdapterReturn, w: World)
    requires RequestValid(request) && DeclarationValid(declaration)
    ensures var o := Deliver(request, declaration, returned, w);
            if OutputAdmitted(returned, request) && Dated(w.first) then Succeeded(o, request, declaration, returned, w.first)
            else Failed(o, request, w.later)
  {
    if returned.Output? {
      DeliversOutput(request, declaration, returned, w);
    } else {
      NotOutput(returned, request);
      hide OutputAdmitted, Succeeded;
      DeliversFault(request, declaration, returned, w);
    }
  }

  lemma DeliversFault(request: Json, declaration: Json, returned: AdapterReturn, w: World)
    requires !returned.Output?
    ensures Failed(Deliver(request, declaration, returned, w), request, w.later)
  {
    hide Failed, FailDeclared;
    FailedBy(request, if returned.InvalidOptions? then 64 else if returned.ContractError? then 65
                      else if returned.UnavailableError? then 69 else if returned.InternalError? then 70 else 74,
             returned.message, declaration, w.later);
  }

  lemma DeliversOutput(request: Json, declaration: Json, returned: AdapterReturn, w: World)
    requires RequestValid(request) && DeclarationValid(declaration) && returned.Output?
    ensures var o := Deliver(request, declaration, returned, w);
            if OutputAdmitted(returned, request) && Dated(w.first) then Succeeded(o, request, declaration, returned, w.first)
            else Failed(o, request, w.later)
  {
    hide Failed, FailDeclared, RequestValid, DeclarationValid, ResultValid, Envelope, Completed, OutputAdmitted, Dated;
    AdmittedCompletes(request, declaration, returned);
    FailedBy(request, 70, "domain failure diagnostic", declaration, w.later);
    FailedBy(request, 70, "invalid result", declaration, w.later);
    if Completed(request, declaration, returned).Some? {
      OutputDecides(returned, request, declaration, w.first);
    }
  }

  lemma AdmittedCompletes(request: Json, declaration: Json, output: AdapterReturn)
    requires output.Output?
    ensures OutputAdmitted(output, request) ==> Completed(request, declaration, output).Some?
  {
    hide EffectsListed, ArtifactAdmitted, BaseParts, TextSet, AllowedEffects;
  }

  lemma NotOutput(returned: AdapterReturn, request: Json)
    ensures OutputAdmitted(returned, request) ==> returned.Output?
  {
  }

  lemma Runs(cli: string, request: Json, found: (Json, string), w: World)
    requires RequestValid(request) && w.load.Loaded? && Registers(w.load.registry, cli, found)
    ensures var o := Run(cli, request, found.0, found.1, w);
            if Ready(cli, request, w, found) then Succeeded(o, request, found.0, w.adapter(found.1, request), w.first)
            else Failed(o, request, w.later)
  {
    hide Failed, FailDeclared, Succeeded, RequestValid, DeclarationValid, Coheres, Deliver, Dated, OutputAdmitted, Registers, At, TextOr,
      SnapshotIdentity;
    forall exit: i32, message | FailureExit(exit) ensures Failed(FailDeclared(request, found.0, exit, message, w.later), request, w.later) {
      FailedBy(request, exit, message, found.0, w.later);
    }
    if DeclarationValid(found.0) {
      Delivers(request, found.0, w.adapter(found.1, request), w);
    }
  }

  /** Every execution either completes, when everything is in order, or fails with one of the failure exits. */
  lemma ExecutesEither(cli: string, request: Json, w: World)
    ensures var o := Execute(cli, request, w);
            || (exists found :: Ready(cli, request, w, found)
                             && Succeeded(o, request, found.0, w.adapter(found.1, request), w.first))
            || (Failed(o, request, w.later) && forall found :: !Ready(cli, request, w, found))
  {
    hide Failed, Fail, Succeeded, RequestValid, DeclarationValid, Coheres, Run, Dated, OutputAdmitted, Registers, At, TextOr,
      SnapshotIdentity, Find;
    forall exit: i32, message | FailureExit(exit) ensures Failed(Fail(request, exit, message, "deterministic", w.later), request, w.later) {
      FailedBy(request, exit, message, Null, w.later);
    }
    if w.load.Loaded? {
      FindExactly(w.load.registry, cli);
      if RequestValid(request) && Find(w.load.registry, cli).Ok? && Find(w.load.registry, cli).value.Some? {
        Runs(cli, request, Find(w.load.registry, cli).value.value, w);
      }
    }
  }

  lemma SucceededEnds(o: Outcome, request: Json, declaration: Json, output: AdapterReturn, at: Reading)
    requires Succeeded(o, request, declaration, output, at)
    ensures o.exitCode == if output.verdict.Fail? then 10 else 0
    ensures o.result.Some? && At(o.result.value, "exitCode") == Number(o.exitCode) && At(o.result.value, "status") == Str("completed")
  {
    var p := Completed(request, declaration, output).value;
    EndsLegally(output, request, declaration);
    EnvelopeEnd(p, at);
    hide Envelope, At, Number, LegalEnd, DomainVerdictValid, VerdictText, DiagnosticsValid;
    assert p.status == "completed";
  }

  lemma FailedEnds(o: Outcome, request: Json, at: Reading)
    requires Failed(o, request, at)
    ensures FailureExit(o.exitCode) && o.result.Some? && At(o.result.value, "exitCode") == Number(o.exitCode)
    ensures EnvelopeValid(o.result.value) <==> Dated(at)
    ensures At(o.result.value, "status") == Str("failed") && At(o.result.value, "observedEffects") == Arr([])
  {
    var exit: i32, message: string, determinism: string :|
      o == Fail(request, exit, message, determinism, at) && FailureExit(exit) && DeterminismValid(Str(determinism));
    var p := FailureParts(request, exit, message, determinism);
    FailureAccepted(request, exit, message, determinism, at);
    EnvelopeEnd(p, at);
    EnvelopeTail(p, at);
    hide Envelope, At, Number, EnvelopeValid, Dated, DeterminismValid, CapabilityOf, ImplementationOf, IdentityOf, EffectsOf;
  }

  /** An execution exits with 0 or 10 exactly when everything is in order, and which of the two is the adapter's verdict. */
  lemma SucceedsExactly(cli: string, request: Json, w: World)
    ensures var exit := Execute(cli, request, w).exitCode;
            && (exit == 0 <==> exists found :: Ready(cli, request, w, found) && !w.adapter(found.1, request).verdict.Fail?)
            && (exit == 10 <==> exists found :: Ready(cli, request, w, found) && w.adapter(found.1, request).verdict.Fail?)
            && (exit == 0 || exit == 10 || FailureExit(exit))
  {
    var o := Execute(cli, request, w);
    ExecutesEither(cli, request, w);
    hide Execute, Failed, Succeeded;
    forall found, other | Ready(cli, request, w, found) && Ready(cli, request, w, other) ensures found == other {
      FoundTwice(w.load.registry, cli, found, other);
    }
    hide Ready;
    if found :| Ready(cli, request, w, found) && Succeeded(o, request, found.0, w.adapter(found.1, request), w.first) {
      SucceededEnds(o, request, found.0, w.adapter(found.1, request), w.first);
    } else {
      FailedEnds(o, request, w.later);
    }
  }

  lemma FoundTwice(registry: Json, capability: string, one: (Json, string), two: (Json, string))
    requires Registers(registry, capability, one) && Registers(registry, capability, two)
    ensures one == two
  {
    FoundOnce(At(registry, "integrations").items, capability, one, two);
  }

  /** Whatever the request, the registry, the files and the adapter: the emitted envelope says how the process exits, and passes
      the check, except that a failure reported at a time outside the years 1 to 9999 does not. */
  lemma EmitsValid(cli: string, request: Json, w: World)
    ensures var o := Execute(cli, request, w);
            && o.result.Some?
            && (EnvelopeValid(o.result.value) <==> o.exitCode == 0 || o.exitCode == 10 || Dated(w.later))
            && At(o.result.value, "exitCode") == Number(o.exitCode)
            && (At(o.result.value, "status") == Str("completed") <==> o.exitCode == 0 || o.exitCode == 10)
  {
    var o := Execute(cli, request, w);
    ExecutesEither(cli, request, w);
    hide Execute, Failed, Succeeded;
    if found :| Ready(cli, request, w, found) && Succeeded(o, request, found.0, w.adapter(found.1, request), w.first) {
      SucceededEnds(o, request, found.0, w.adapter(found.1, request), w.first);
      SucceededBound(cli, request, w, found);
    } else {
      FailedEnds(o, request, w.later);
    }
  }

  lemma SucceededBound(cli: string, request: Json, w: World, found: (Json, string))
    requires Ready(cli, request, w, found)
    requires Succeeded(Execute(cli, request, w), request, found.0, w.adapter(found.1, request), w.first)
    ensures ResultValid(Execute(cli, request, w).result.value, request, found.0)
  {
    OutputDecides(w.adapter(found.1, request), request, found.0, w.first);
    hide Execute, ResultValid, Envelope, Completed, Dated;
  }

  /** The caller's own refusal of invalid envelopes triggers only for failures reported outside the years 1 to 9999. */
  lemma InProcessTransparent(cli: string, request: Json, w: World)
    ensures var o := Execute(cli, request, w);
            InProcess(o) == o <==> o.exitCode == 0 || o.exitCode == 10 || Dated(w.later)
  {
    EmitsValid(cli, request, w);
    hide Execute, EnvelopeValid, Dated;
  }

  /** No emitted envelope reports an effect that the registered declaration does not allow; a failure reports none. */
  lemma EffectsRegistered(cli: string, request: Json, w: World)
    ensures var o := Execute(cli, request, w);
            && o.result.Some?
            && forall e :: e in TextSet(At(o.result.value, "observedEffects")) ==>
                 exists found :: Ready(cli, request, w, found) && SpeaksOf(o.result.value, request)
                              && e in TextSet(At(found.0, "allowedEffects"))
  {
    var o := Execute(cli, request, w);
    ExecutesEither(cli, request, w);
    hide Execute, Failed, Succeeded;
    if found :| Ready(cli, request, w, found) && Succeeded(o, request, found.0, w.adapter(found.1, request), w.first) {
      SucceededEnds(o, request, found.0, w.adapter(found.1, request), w.first);
      SucceededBound(cli, request, w, found);
      assert ResultValid(o.result.value, request, found.0) && Coheres(found.0, request);
      hide Ready, EnvelopeValid, TextSet, At, AllConsume, AllowedEffects, SnapshotIdentity;
    } else {
      FailedEnds(o, request, w.later);
    }
  }

  /** An envelope of a completed execution lists every artifact of the adapter, in order, with the digest of its bytes, and reports
      the effects and the verdict the adapter returned. */
  lemma CompletedReports(o: Outcome, request: Json, declaration: Json, output: AdapterReturn, at: Reading)
    requires Succeeded(o, request, declaration, output, at)
    ensures o.result.Some?
    ensures var artifacts := At(o.result.value, "artifacts");
            && artifacts.Arr? && |artifacts.items| == |output.artifacts|
            && forall i :: 0 <= i < |output.artifacts| ==>
                 && At(artifacts.items[i], "sha256") == Str(Sha256Hex(output.artifacts[i].bytes))
                 && At(artifacts.items[i], "path") == Str(output.artifacts[i].path)
                 && At(artifacts.items[i], "type") == Str(output.artifacts[i].artifactType)
                 && At(artifacts.items[i], "artifactSchema") == Str(output.artifacts[i].artifactSchema)
    ensures var observed := At(o.result.value, "observedEffects");
            && observed.Arr? && |observed.items| == |output.observed|
            && forall i :: 0 <= i < |output.observed| ==> observed.items[i] == Str(output.observed[i])
    ensures At(o.result.value, "domainVerdict")
         == Str(match output.verdict case Pass => "pass" case Fail => "fail" case Unknown => "unknown" case NotApplicable => "not_applicable")
  {
    var p := Completed(request, declaration, output).value;
    CompletedParts(output, request, declaration);
    CompletedVerdict(output, request, declaration);
    EnvelopeEnd(p, at);
    EnvelopeTail(p, at);
    hide Envelope, Completed, At, Sha256Hex, SnapshotIdentity, ArtifactJson;
    forall i | 0 <= i < |output.artifacts|
      ensures ArtifactsJson(output.artifacts, request).items[i] == ArtifactJson(output.artifacts[i], request)
    {
    }
    forall i | 0 <= i < |output.artifacts|
      ensures var v := ArtifactJson(output.artifacts[i], request);
              && At(v, "sha256") == Str(Sha256Hex(output.artifacts[i].bytes)) && At(v, "path") == Str(output.artifacts[i].path)
              && At(v, "type") == Str(output.artifacts[i].artifactType) && At(v, "artifactSchema") == Str(output.artifacts[i].artifactSchema)
    {
      ArtifactFields(output.artifacts[i], request);
    }
  }

  lemma ArtifactFields(a: AdapterArtifact, request: Json)
    ensures var v := ArtifactJson(a, request);
            && At(v, "sha256") == Str(Sha256Hex(a.bytes)) && At(v, "path") == Str(a.path)
            && At(v, "type") == Str(a.artifactType) && At(v, "artifactSchema") == Str(a.artifactSchema)
  {
    hide Sha256Hex, SnapshotIdentity;
  }

  lemma CompletedVerdict(output: AdapterReturn, request: Json, declaration: Json)
    requires output.Output? && Completed(request, declaration, output).Some?
    ensures Completed(request, declaration, output).value.domain
         == match output.verdict case Pass => "pass" case Fail => "fail" case Unknown => "unknown" case NotApplicable => "not_applicable"
  {
    hide At, SnapshotIdentity, AllowedEffects, ArtifactsJson, TextsJson;
  }

  /** A completed execution's envelope is for the declared implementation and determinism, on the request's snapshot. */
  lemma CompletedMatches(cli: string, request: Json, w: World)
    requires Execute(cli, request, w).exitCode == 0 || Execute(cli, request, w).exitCode == 10
    ensures var o := Execute(cli, request, w);
            exists found :: && Ready(cli, request, w, found) && o.result.Some?
                            && At(o.result.value, "capability") == At(found.0, "id") == Str(cli)
                            && At(o.result.value, "implementation") == At(found.0, "implementation")
                            && At(o.result.value, "determinism") == At(found.0, "determinism")
                            && At(o.result.value, "snapshotIdentity") == SnapshotIdentity(request)
  {
    var o := Execute(cli, request, w);
    ExecutesEither(cli, request, w);
    hide Execute, Failed, Succeeded;
    if found :| Ready(cli, request, w, found) && Succeeded(o, request, found.0, w.adapter(found.1, request), w.first) {
      SucceededEnds(o, request, found.0, w.adapter(found.1, request), w.first);
      SucceededBound(cli, request, w, found);
      assert ResultValid(o.result.value, request, found.0) && Coheres(found.0, request) && At(request, "capability") == Str(cli);
      hide Ready, EnvelopeValid, TextSet, At, AllConsume, AllowedEffects, SnapshotIdentity;
    } else {
      FailedEnds(o, request, w.later);
    }
  }

  /** Which exit an execution takes that finds no declaration, by the first thing that is wrong. */
  lemma FailureExits(cli: string, request: Json, w: World)
    ensures var exit := Execute(cli, request, w).exitCode;
            if !RequestValid(request) then exit == 64
            else match w.load
              case RegistryUnavailable => exit == 69
              case RegistryInvalid => exit == 65
              case Loaded(registry) =>
                (!Readable(registry) ==> exit == 65) && (Readable(registry) && NoneRegistered(registry, cli) ==> exit == 64)
  {
    if w.load.Loaded? {
      NoneFound(w.load.registry, cli);
    }
    hide RequestValid, Readable, NoneRegistered, Run, DeclaredDeterminism, FailureEnvelope, Find;
  }

  ghost predicate NoneRegistered(registry: Json, capability: string) {
    forall found :: !Registers(registry, capability, found)
  }

  lemma NoneFound(registry: Json, capability: string)
    ensures Find(registry, capability).Err? <==> !Readable(registry)
    ensures Find(registry, capability).Ok? && NoneRegistered(registry, capability) ==> Find(registry, capability) == Ok(None)
  {
    FindExactly(registry, capability);
    FindReads(registry, capability);
    hide Registers, Readable, Find;
    var r := Find(registry, capability);
    if r.Ok? && r.value.Some? {
      assert Registers(registry, capability, r.value.value);
    }
  }

  /** Every declaration of the registry has an id of its own. */
  ghost predicate Readable(registry: Json) {
    var entries := At(registry, "integrations");
    entries.Arr? && WellRegistered(entries.items)
  }

  lemma FindReads(registry: Json, capability: string)
    ensures Find(registry, capability).Ok? <==> Readable(registry)
  {
    if At(registry, "integrations").Arr? {
      ReadExactly(At(registry, "integrations").items, capability);
    }
    hide WellRegistered;
  }

  /** The exits of an execution whose declaration is found. */
  lemma DeclaredExits(cli: string, request: Json, w: World, found: (Json, string))
    requires RequestValid(request) && w.load.Loaded? && Registers(w.load.registry, cli, found)
    ensures var exit, fault := Execute(cli, request, w).exitCode, w.verify(At(request, "inputs"), TextOr(SnapshotIdentity(request)));
            var returned := w.adapter(found.1, request);
            var checked := At(request, "capability") == Str(cli) && DeclarationValid(found.0) && Coheres(found.0, request);
            && (At(request, "capability") != Str(cli) ==> exit == 64)
            && (At(request, "capability") == Str(cli) && !DeclarationValid(found.0) ==> exit == 65)
            && (At(request, "capability") == Str(cli) && DeclarationValid(found.0) && !Coheres(found.0, request) ==> exit == 64)
            && (checked && fault == Some(InputIo) ==> exit == 74) && (checked && fault == Some(InputContract) ==> exit == 65)
            && (checked && fault == None ==>
                  && (returned.InvalidOptions? ==> exit == 64) && (returned.ContractError? ==> exit == 65)
                  && (returned.UnavailableError? ==> exit == 69) && (returned.InternalError? ==> exit == 70)
                  && (returned.IoError? ==> exit == 74)
                  && (returned.Output? && !(OutputAdmitted(returned, request) && Dated(w.first)) ==> exit == 70))
  {
    var returned := w.adapter(found.1, request);
    hide *;
    ExecuteRuns(cli, request, w, found);
    RunExits(cli, request, found.0, found.1, w);
    ReturnedExits(request, found.0, returned, w);
    if DeclarationValid(found.0) {
      RefusedOutput(request, found.0, returned, w);
    }
  }

  lemma ExecuteRuns(cli: string, request: Json, w: World, found: (Json, string))
    requires RequestValid(request) && w.load.Loaded? && Registers(w.load.registry, cli, found)
    ensures Execute(cli, request, w) == Run(cli, request, found.0, found.1, w)
  {
    FindExactly(w.load.registry, cli);
    hide RequestValid, Registers, Find, Run, FailureEnvelope;
  }

  lemma RunExits(cli: string, request: Json, declaration: Json, adapter: string, w: World)
    ensures var o, fault := Run(cli, request, declaration, adapter, w), w.verify(At(request, "inputs"), TextOr(SnapshotIdentity(request)));
            if At(request, "capability") != Str(cli) then o.exitCode == 64
            else if !DeclarationValid(declaration) then o.exitCode == 65
            else if !Coheres(declaration, request) then o.exitCode == 64
            else if fault == Some(InputIo) then o.exitCode == 74
            else if fault == Some(InputContract) then o.exitCode == 65
            else (fault == None ==> o == Deliver(request, declaration, w.adapter(adapter, request), w))
  {
    hide DeclarationValid, Coheres, At, SnapshotIdentity, TextOr, Deliver, DeclaredDeterminism, FailureEnvelope;
  }

  lemma ReturnedExits(request: Json, declaration: Json, returned: AdapterReturn, w: World)
    ensures var exit := Deliver(request, declaration, returned, w).exitCode;
            && (returned.InvalidOptions? ==> exit == 64) && (returned.ContractError? ==> exit == 65)
            && (returned.UnavailableError? ==> exit == 69) && (returned.InternalError? ==> exit == 70) && (returned.IoError? ==> exit == 74)
  {
    hide DeclaredDeterminism, FailureEnvelope, ResultValid, Completed, Envelope;
  }

  lemma RefusedOutput(request: Json, declaration: Json, returned: AdapterReturn, w: World)
    requires RequestValid(request) && DeclarationValid(declaration)
    ensures returned.Output? && !(OutputAdmitted(returned, request) && Dated(w.first)) ==> Deliver(request, declaration, returned, w).exitCode == 70
  {
    if returned.Output? {
      if Completed(request, declaration, returned).Some? {
        OutputDecides(returned, request, declaration, w.first);
      }
    }
    hide RequestValid, DeclarationValid, ResultValid, Envelope, Completed, OutputAdmitted, Dated, FailureEnvelope, DeclaredDeterminism;
  }
}
