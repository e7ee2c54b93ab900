/** Authority transitions: batches of branches, each accepted or rejected, and events that authorise once. */
module Authority {
  import opened Bags
  import opened Json
  import opened Text

  type Ids = set<string>

  /** The part of a request a diagnostic is about. */
  datatype Part =
    | Batch | Branch | Source | Current | Transition | Event | Approver | Attestation
    | KnownEvidence | ConsumedEvents | TransitionEvidence | EventEvidence
    | BranchId | SourceId | CurrentId | OutputId | ApproverId | ApproverRole

  datatype Reason =
    | NotAnObject(part: Part) | FieldsInvalid(part: Part) | SchemaInvalid(part: Part) | Blank(part: Part)
    | MustBeArray(part: Part) | InvalidId(part: Part) | DuplicateIds(part: Part)
    | EvaluatedAtInvalid | BranchesNotArray | BranchesEmpty
    | SourceKindInvalid | SourceKindUnknown | CurrentKindInvalid | CurrentKindUnknown | TargetInvalid | TargetUnknown
    | NoEvidence | UnknownEvidence | EdgeNotAllowed | ActorRestricted | EventRequired | EventForbidden
    | NotApproved | EventIdInvalid | Replayed | EventEvidenceIncomplete | IssuedAtInvalid | ExpiresAtInvalid | OutOfTime
    | ApproverUntrusted | SchemeInvalid | DigestInvalid | DigestUnavailable | DigestMismatch
    | DuplicateBranch | DuplicateOutput | DuplicateEvent

  /** The digest of an event's content; none when its evidence cannot be read. */
  type Digester = Json -> Option<string>

  // ---------------------------------------------------------------- policy

  const OBSERVED := "observed_evidence"
  const FACT := "engineering_fact"
  const MODEL := "derived_engineering_model"
  const PROPOSAL := "proposal"
  const ADOPTION := "adoption_decision"
  const PLAN := "committed_engineering_plan"

  predicate IsKind(s: string) {
    s == OBSERVED || s == FACT || s == MODEL || s == PROPOSAL || s == ADOPTION || s == PLAN
  }

  predicate IsActor(s: string) {
    s == "deterministic_pipeline" || s == "human" || Restricted(s)
  }

  /** Actors that may not create facts or derived models. */
  predicate Restricted(s: string) {
    s == "llm" || s == "provider" || s == "recommender"
  }

  /** Whether an edge needs an authority event; nothing when there is no such edge. */
  function Edge(from: string, to: string): Option<bool> {
    if from == OBSERVED && to == FACT then Some(false)
    else if from == OBSERVED && to == PROPOSAL then Some(false)
    else if from == FACT && to == MODEL then Some(false)
    else if from == MODEL && to == PROPOSAL then Some(false)
    else if from == PROPOSAL && to == ADOPTION then Some(true)
    else if from == ADOPTION && to == PLAN then Some(true)
    else if from == PROPOSAL && to == PLAN then Some(true)
    else None
  }

  predicate TrustedApprover(id: string, role: string) {
    id == "code-intel-maintainers" && role == "repository_governance"
  }

  // ---------------------------------------------------------------- validation

  /** Nothing, or the reason for refusal. */
  type Check = Option<Reason>

  function ExactIn(v: Json, keys: set<string>, part: Part): Check {
    if !v.Obj? then Some(NotAnObject(part)) else if v.fields.Keys != keys then Some(FieldsInvalid(part)) else None
  }

  function NonEmptyIn(v: Json, part: Part): Check {
    if NonEmptyText(v) then None else Some(Blank(part))
  }

  function IdSetIn(v: Json, part: Part): Result<Ids, Reason> {
    match IdSet(v)
    case Ok(ids) => Ok(ids)
    case Err(NotArray) => Err(MustBeArray(part))
    case Err(InvalidId) => Err(Reason.InvalidId(part))
    case Err(DuplicateIds) => Err(Reason.DuplicateIds(part))
  }

  /** The first refusal of two checks in order. */
  function First(a: Check, b: Check): Check {
    if a.Some? then a else b
  }

  function EventKeys(event: Json): set<string> {
    {"schema", "id", "decision", "approver", "evidenceIds", "issuedAt", "expiresAt"}
    + if Get(event, "attestation").Some? then {"attestation"} else {}
  }

  function ValidateAuthorityEvent(digest: Digester, event: Json, now: nat, known: Ids, required: Ids, consumed: Ids): (r: Result<string, Reason>)
    ensures r.Ok? ==> At(event, "id") == Str(r.value) && r.value !in consumed
  {
    if ExactIn(event, EventKeys(event), Event).Some? then Err(ExactIn(event, EventKeys(event), Event).value)
    else if At(event, "schema") != Str("code-intel-authority-event.v1") || At(event, "decision") != Str("approved") then
      Err(NotApproved)
    else if !NonEmptyText(At(event, "id")) then Err(EventIdInvalid)
    else if At(event, "id").text in consumed then Err(Replayed)
    else
      match ValidateEventContent(digest, event, now, known, required)
      case Some(reason) => Err(reason)
      case None => Ok(At(event, "id").text)
  }

  function ValidateEventContent(digest: Digester, event: Json, now: nat, known: Ids, required: Ids): Check {
    First(ValidateApprover(At(event, "approver")),
          match IdSetIn(At(event, "evidenceIds"), EventEvidence)
          case Err(reason) => Some(reason)
          case Ok(evidence) =>
            if evidence == {} || !(evidence <= known) || !(required <= evidence) then Some(EventEvidenceIncomplete)
            else
              First(ValidateEventTime(At(event, "issuedAt"), At(event, "expiresAt"), now),
                    if Get(event, "attestation").Some? then ValidateAttestation(digest, event) else None))
  }

  function ValidateApprover(approver: Json): Check {
    First(ExactIn(approver, {"id", "role"}, Approver),
          First(NonEmptyIn(At(approver, "id"), ApproverId), NonEmptyIn(At(approver, "role"), ApproverRole)))
  }

  function ValidateEventTime(issued: Json, expires: Json, now: nat): Check {
    if !issued.PosInt? then Some(IssuedAtInvalid)
    else if !expires.PosInt? then Some(ExpiresAtInvalid)
    else if issued.magnitude > now || expires.magnitude < now || expires.magnitude < issued.magnitude then Some(OutOfTime)
    else None
  }

  function ValidateAttestation(digest: Digester, event: Json): Check {
    var approver, attestation := At(event, "approver"), At(event, "attestation");
    var id, role := At(approver, "id"), At(approver, "role");
    if !id.Str? || !role.Str? || !TrustedApprover(id.text, role.text) then Some(ApproverUntrusted)
    else if ExactIn(attestation, {"scheme", "digest"}, Attestation).Some? then ExactIn(attestation, {"scheme", "digest"}, Attestation)
    else if At(attestation, "scheme") != Str("repository-governed-sha256-v1") then Some(SchemeInvalid)
    else if !At(attestation, "digest").Str? || !IsDigest(At(attestation, "digest").text) then Some(DigestInvalid)
    else if digest(event).None? then Some(DigestUnavailable)
    else if digest(event) != Some(At(attestation, "digest").text) then Some(DigestMismatch)
    else None
  }

  function ValidateBranch(digest: Digester, branch: Json, now: nat, known: Ids, consumed: Ids): Check {
    First(ExactIn(branch, {"branchId", "source", "current", "transition"}, Branch),
    First(NonEmptyIn(At(branch, "branchId"), BranchId),
    First(ValidateSource(At(branch, "source")),
    First(ValidateCurrent(At(branch, "current")),
          ValidateTransition(digest, At(At(branch, "source"), "kind"), At(At(branch, "current"), "kind"),
                             At(branch, "transition"), now, known, consumed)))))
  }

  function ValidateSource(source: Json): Check {
    var kind := At(source, "kind");
    if ExactIn(source, {"kind", "id"}, Source).Some? then ExactIn(source, {"kind", "id"}, Source)
    else if !kind.Str? then Some(SourceKindInvalid)
    else if !IsActor(kind.text) then Some(SourceKindUnknown)
    else NonEmptyIn(At(source, "id"), SourceId)
  }

  function ValidateCurrent(current: Json): Check {
    var kind := At(current, "kind");
    if ExactIn(current, {"kind", "id"}, Current).Some? then ExactIn(current, {"kind", "id"}, Current)
    else if !kind.Str? then Some(CurrentKindInvalid)
    else if !IsKind(kind.text) then Some(CurrentKindUnknown)
    else NonEmptyIn(At(current, "id"), CurrentId)
  }

  function ValidateTransition(digest: Digester, actor: Json, from: Json, transition: Json, now: nat, known: Ids, consumed: Ids): Check {
    var to := At(transition, "to");
    if !transition.Obj? then Some(NotAnObject(Transition))
    else if !(transition.fields.Keys <= {"to", "outputId", "evidenceIds", "authorityEvent"})
            || !({"to", "outputId", "evidenceIds"} <= transition.fields.Keys) then Some(FieldsInvalid(Transition))
    else if !to.Str? then Some(TargetInvalid)
    else if !IsKind(to.text) then Some(TargetUnknown)
    else if !NonEmptyText(At(transition, "outputId")) then Some(Blank(OutputId))
    else
      match IdSetIn(At(transition, "evidenceIds"), TransitionEvidence)
      case Err(reason) => Some(reason)
      case Ok(evidence) =>
        if evidence == {} then Some(NoEvidence)
        else if !(evidence <= known) then Some(UnknownEvidence)
        else ValidateMove(digest, ThenText(Some(actor)), ThenText(Some(from)), to.text, Get(transition, "authorityEvent"), now, known, evidence, consumed)
  }

  function ValidateMove(digest: Digester, actor: Option<string>, from: Option<string>, to: string, event: Option<Json>,
                        now: nat, known: Ids, evidence: Ids, consumed: Ids): Check {
    var edge := if from.Some? then Edge(from.value, to) else None;
    if edge.None? then Some(EdgeNotAllowed)
    else if actor.Some? && Restricted(actor.value) && !(to == OBSERVED || to == PROPOSAL || to == ADOPTION || to == PLAN) then
      Some(ActorRestricted)
    else if edge.value then
      if event.None? then Some(EventRequired)
      else match ValidateAuthorityEvent(digest, event.value, now, known, evidence, consumed) case Err(reason) => Some(reason) case Ok(_) => None
    else if event.Some? then Some(EventForbidden)
    else None
  }

  // ---------------------------------------------------------------- duplicates

  /** The values that occur more than once. */
  function Repeated(values: seq<string>): set<string> {
    set v | v in values && multiset(values)[v] > 1
  }

  method Duplicates(values: seq<string>) returns (repeated: set<string>)
    ensures repeated == Repeated(values)
  {
    var counts: map<string, nat> := map[];
    for i := 0 to |values|
      invariant counts.Keys == set v | v in values[..i]
      invariant forall v :: v in counts ==> counts[v] == multiset(values[..i])[v]
    {
      assert values[..i + 1] == values[..i] + [values[i]];
      var v := values[i];
      counts := counts[v := (if v in counts then counts[v] else 0) + 1];
    }
    assert values[..|values|] == values;
    repeated := set v | v in counts && counts[v] > 1;
  }

  function BranchIdOf(branch: Json): Option<string> {
    TextOf(At(branch, "branchId"))
  }

  function OutputIdOf(branch: Json): Option<string> {
    ThenText(Then(Get(branch, "transition"), "outputId"))
  }

  function EventOf(branch: Json): Option<Json> {
    Then(Get(branch, "transition"), "authorityEvent")
  }

  function EventIdOf(branch: Json): Option<string> {
    ThenText(Then(EventOf(branch), "id"))
  }

  /** The texts found at one place of each branch, branches without one skipped. */
  function Collect(branches: seq<Json>, pick: Json -> Option<string>): seq<string> {
    if branches == [] then []
    else
      var last := pick(branches[|branches| - 1]);
      Collect(branches[..|branches| - 1], pick) + if last.Some? then [last.value] else []
  }

  // ---------------------------------------------------------------- one branch

  datatype Name = Named(id: string) | InvalidBranch(index: nat)

  datatype Outcome =
    | Accepted(name: Name, from: string, to: string, outputId: string, eventId: Option<string>, event: Option<Json>)
    | Rejected(name: Name, from: string, to: string, reason: Reason)

  /** What a batch fixes for all its branches. */
  datatype Context = Context(digest: Digester, now: nat, known: Ids, consumed: Ids, branchIds: Ids, outputIds: Ids, eventIds: Ids)

  function OrElse(text: Option<string>, otherwise: string): string {
    if text.Some? then text.value else otherwise
  }

  /** Validation first, then the clashes within the batch. */
  function Decide(c: Context, branch: Json): Check {
    First(ValidateBranch(c.digest, branch, c.now, c.known, c.consumed),
          if BranchIdOf(branch).Some? && BranchIdOf(branch).value in c.branchIds then Some(DuplicateBranch)
          else if OrElse(OutputIdOf(branch), "") in c.outputIds then Some(DuplicateOutput)
          else if EventIdOf(branch).Some? && EventIdOf(branch).value in c.eventIds then Some(DuplicateEvent)
          else None)
  }

  function EvaluateBranch(c: Context, branch: Json, index: nat): Outcome {
    var name := if BranchIdOf(branch).Some? then Named(BranchIdOf(branch).value) else InvalidBranch(index);
    var from := OrElse(ThenText(Then(Get(branch, "current"), "kind")), "");
    var to := OrElse(ThenText(Then(Get(branch, "transition"), "to")), "");
    match Decide(c, branch)
    case None => Accepted(name, from, to, OrElse(OutputIdOf(branch), ""), EventIdOf(branch), EventOf(branch))
    case Some(reason) => Rejected(name, from, to, reason)
  }

  /** An accepted branch's event is the one it names, not yet consumed, and a branch without one names none. */
  lemma AcceptedEvent(c: Context, branch: Json)
    requires Decide(c, branch).None?
    ensures EventIdOf(branch).Some? <==> EventOf(branch).Some?
    ensures EventIdOf(branch).Some? ==> EventIdOf(branch).value !in c.consumed && EventIdOf(branch).value !in c.eventIds
    ensures OutputIdOf(branch).Some? && OutputIdOf(branch).value != "" && OutputIdOf(branch).value !in c.outputIds
    ensures BranchIdOf(branch).Some? && BranchIdOf(branch).value !in c.branchIds
  {
    hide Edge, IsKind, IsActor, Restricted, ValidateEventContent;
    AcceptedTransition(c.digest, At(At(branch, "source"), "kind"), At(At(branch, "current"), "kind"),
                       At(branch, "transition"), c.now, c.known, c.consumed);
  }

  lemma AcceptedTransition(digest: Digester, actor: Json, from: Json, transition: Json, now: nat, known: Ids, consumed: Ids)
    ensures ValidateTransition(digest, actor, from, transition, now, known, consumed).None? ==>
              var event := Get(transition, "authorityEvent");
              && NonEmptyText(At(transition, "outputId"))
              && (event.Some? ==> At(event.value, "id").Str? && At(event.value, "id").text !in consumed)
  {
    hide Edge, IsKind, IsActor, Restricted, ValidateEventContent;
  }

  // ---------------------------------------------------------------- a batch

  function ValidateBatch(request: Json): Check {
    First(ExactIn(request, {"schema", "evaluatedAt", "knownEvidenceIds", "consumedAuthorityEventIds", "branches"}, Batch),
          if At(request, "schema") != Str("code-intel-authority-transition-batch.v1") then Some(SchemaInvalid(Batch))
          else if !At(request, "evaluatedAt").PosInt? then Some(EvaluatedAtInvalid)
          else if KnownIn(request).Err? then Some(KnownIn(request).error)
          else if ConsumedIn(request).Err? then Some(ConsumedIn(request).error)
          else if !At(request, "branches").Arr? then Some(BranchesNotArray)
          else if At(request, "branches").items == [] then Some(BranchesEmpty)
          else None)
  }

  function KnownIn(request: Json): Result<Ids, Reason> {
    IdSetIn(At(request, "knownEvidenceIds"), KnownEvidence)
  }

  function ConsumedIn(request: Json): Result<Ids, Reason> {
    IdSetIn(At(request, "consumedAuthorityEventIds"), ConsumedEvents)
  }

  function BranchesIn(request: Json): seq<Json> {
    if At(request, "branches").Arr? then At(request, "branches").items else []
  }

  function ContextOf(digest: Digester, request: Json): Context
    requires ValidateBatch(request).None?
  {
    var branches := BranchesIn(request);
    ContextWith(digest, request, Repeated(Collect(branches, BranchIdOf)), Repeated(Collect(branches, OutputIdOf)),
                Repeated(Collect(branches, EventIdOf)))
  }

  function ContextWith(digest: Digester, request: Json, branchIds: Ids, outputIds: Ids, eventIds: Ids): Context
    requires ValidateBatch(request).None?
  {
    Context(digest, At(request, "evaluatedAt").magnitude, KnownIn(request).value, ConsumedIn(request).value,
            branchIds, outputIds, eventIds)
  }

  function Outcomes(c: Context, branches: seq<Json>): (outcomes: seq<Outcome>)
    ensures |outcomes| == |branches|
    ensures forall i :: 0 <= i < |branches| ==> outcomes[i] == EvaluateBranch(c, branches[i], i)
  {
    if branches == [] then []
    else Outcomes(c, branches[..|branches| - 1]) + [EvaluateBranch(c, branches[|branches| - 1], |branches| - 1)]
  }

  /** The events of the accepted outcomes. */
  function Spent(outcomes: seq<Outcome>): Ids {
    set o | o in outcomes && o.Accepted? && o.eventId.Some? :: o.eventId.value
  }

  function CountAccepted(outcomes: seq<Outcome>): nat {
    if outcomes == [] then 0
    else CountAccepted(outcomes[..|outcomes| - 1]) + if outcomes[|outcomes| - 1].Accepted? then 1 else 0
  }

  datatype BatchResult = BatchResult(accepted: nat, rejected: nat, consumed: Ids, outcomes: seq<Outcome>)

  function Evaluated(digest: Digester, request: Json): Result<BatchResult, Reason> {
    match ValidateBatch(request)
    case Some(reason) => Err(reason)
    case None =>
      var c := ContextOf(digest, request);
      var outcomes := Outcomes(c, BranchesIn(request));
      var accepted := CountAccepted(outcomes);
      assert accepted <= |outcomes| by { CountBounded(outcomes); }
      Ok(BatchResult(accepted, |outcomes| - accepted, c.consumed + Spent(outcomes), outcomes))
  }

  /** A batch evaluated branch by branch, with the clashes found beforehand. */
  method EvaluateBatch(digest: Digester, request: Json) returns (r: Result<BatchResult, Reason>)
    ensures r == Evaluated(digest, request)
  {
    hide Outcomes, Repeated, Collect, Spent, CountAccepted, ValidateBatch, BranchesIn;
    var refused := ValidateBatch(request);
    if refused.Some? {
      return Err(refused.value);
    }
    var branches := BranchesIn(request);
    var branchIds := Duplicates(Collect(branches, BranchIdOf));
    var outputIds := Duplicates(Collect(branches, OutputIdOf));
    var eventIds := Duplicates(Collect(branches, EventIdOf));
    var c := ContextWith(digest, request, branchIds, outputIds, eventIds);
    var outcomes, accepted := EvaluateBranches(c, branches);
    r := Ok(BatchResult(accepted, |outcomes| - accepted, c.consumed + Spent(outcomes), outcomes));
  }

  method EvaluateBranches(c: Context, branches: seq<Json>) returns (outcomes: seq<Outcome>, accepted: nat)
    ensures outcomes == Outcomes(c, branches) && accepted == CountAccepted(outcomes) <= |outcomes|
  {
    hide EvaluateBranch;
    outcomes, accepted := [], 0;
    for i := 0 to |branches|
      invariant outcomes == Outcomes(c, branches[..i]) && accepted == CountAccepted(outcomes) <= |outcomes|
    {
      assert branches[..i + 1][..i] == branches[..i];
      var outcome := EvaluateBranch(c, branches[i], i);
      assert (outcomes + [outcome])[..i] == outcomes;
      outcomes := outcomes + [outcome];
      if outcome.Accepted? {
        accepted := accepted + 1;
      }
    }
    assert branches[..|branches|] == branches;
  }

  lemma {:induction false} CountBounded(outcomes: seq<Outcome>)
    ensures CountAccepted(outcomes) <= |outcomes|
  {
    if outcomes != [] {
      CountBounded(outcomes[..|outcomes| - 1]);
    }
  }

  // ---------------------------------------------------------------- events authorise once

  lemma {:induction false} CollectCounts(branches: seq<Json>, pick: Json -> Option<string>, i: nat)
    requires i < |branches| && pick(branches[i]).Some?
    ensures pick(branches[i]).value in Collect(branches, pick)
    decreases |branches|
  {
    if i < |branches| - 1 {
      CollectCounts(branches[..|branches| - 1], pick, i);
    }
  }

  /** A value two branches share is repeated. */
  lemma {:induction false} SharedRepeats(branches: seq<Json>, pick: Json -> Option<string>, i: nat, j: nat)
    requires i < j < |branches| && pick(branches[i]).Some? && pick(branches[i]) == pick(branches[j])
    ensures pick(branches[i]).value in Repeated(Collect(branches, pick))
    decreases |branches|
  {
    var front := branches[..|branches| - 1];
    var last := pick(branches[|branches| - 1]);
    if j < |branches| - 1 {
      SharedRepeats(front, pick, i, j);
    } else {
      CollectCounts(front, pick, i);
    }
    assert multiset(Collect(branches, pick)) == multiset(Collect(front, pick)) + if last.Some? then multiset{last.value} else multiset{};
  }

  /** Within a batch no two accepted branches share a branch id, an output id, or an authority event. */
  lemma AcceptedDistinct(digest: Digester, request: Json, i: nat, j: nat)
    requires Evaluated(digest, request).Ok?
    requires var outcomes := Evaluated(digest, request).value.outcomes;
             i < j < |outcomes| && outcomes[i].Accepted? && outcomes[j].Accepted?
    ensures var outcomes := Evaluated(digest, request).value.outcomes;
            && outcomes[i].name != outcomes[j].name
            && outcomes[i].outputId != outcomes[j].outputId
            && (outcomes[i].eventId.Some? ==> outcomes[i].eventId != outcomes[j].eventId)
  {
    var c, branches := ContextOf(digest, request), BranchesIn(request);
    AcceptedEvent(c, branches[i]);
    AcceptedEvent(c, branches[j]);
    NoneShared(branches, i, j);
    hide Decide;
  }

  lemma NoneShared(branches: seq<Json>, i: nat, j: nat)
    requires i < j < |branches|
    ensures BranchIdOf(branches[i]).Some? && BranchIdOf(branches[i]).value !in Repeated(Collect(branches, BranchIdOf)) ==>
              BranchIdOf(branches[i]) != BranchIdOf(branches[j])
    ensures OutputIdOf(branches[i]).Some? && OutputIdOf(branches[i]).value !in Repeated(Collect(branches, OutputIdOf)) ==>
              OutputIdOf(branches[i]) != OutputIdOf(branches[j])
    ensures EventIdOf(branches[i]).Some? && EventIdOf(branches[i]).value !in Repeated(Collect(branches, EventIdOf)) ==>
              EventIdOf(branches[i]) != EventIdOf(branches[j])
  {
    var a, b := branches[i], branches[j];
    if BranchIdOf(a).Some? && BranchIdOf(a) == BranchIdOf(b) {
      SharedRepeats(branches, BranchIdOf, i, j);
    }
    if OutputIdOf(a).Some? && OutputIdOf(a) == OutputIdOf(b) {
      SharedRepeats(branches, OutputIdOf, i, j);
    }
    if EventIdOf(a).Some? && EventIdOf(a) == EventIdOf(b) {
      SharedRepeats(branches, EventIdOf, i, j);
    }
  }

  // ---------------------------------------------------------------- chains of batches

  /** Each batch starts from the consumed ids the one before it returned. */
  ghost predicate Chain(digest: Digester, requests: seq<Json>, results: seq<BatchResult>) {
    && |requests| == |results|
    && (forall k :: 0 <= k < |requests| ==> Evaluated(digest, requests[k]) == Ok(results[k]))
    && (forall k, l :: 0 <= k < l < |requests| && l == k + 1 ==> ConsumedIn(requests[l]) == Ok(results[k].consumed))
  }

  /** Consuming adds exactly the events of the accepted branches, none of which was consumed before. */
  lemma ConsumesExactly(digest: Digester, request: Json, result: BatchResult)
    requires Evaluated(digest, request) == Ok(result)
    ensures ConsumedIn(request).Ok? && result.consumed == ConsumedIn(request).value + Spent(result.outcomes)
    ensures Spent(result.outcomes) !! ConsumedIn(request).value
  {
    hide Decide;
    var c, branches := ContextOf(digest, request), BranchesIn(request);
    forall e | e in Spent(result.outcomes) ensures e !in c.consumed {
      var o :| o in result.outcomes && o.Accepted? && o.eventId == Some(e);
      var i :| 0 <= i < |branches| && result.outcomes[i] == o;
      AcceptedEvent(c, branches[i]);
    }
  }

  /** The consumed set only grows along a chain. */
  lemma {:induction false} ConsumedGrows(digest: Digester, requests: seq<Json>, results: seq<BatchResult>, k: nat, l: nat)
    requires Chain(digest, requests, results) && k <= l < |results|
    ensures results[k].consumed <= results[l].consumed
    ensures k < l ==> ConsumedIn(requests[l]).Ok? && results[k].consumed <= ConsumedIn(requests[l]).value
    decreases l
  {
    hide Evaluated, ConsumedIn;
    if k < l {
      ConsumedGrows(digest, requests, results, k, l - 1);
      ConsumesExactly(digest, requests[l], results[l]);
    }
  }

  lemma SpentLater(digest: Digester, requests: seq<Json>, results: seq<BatchResult>, k: nat, l: nat)
    requires Chain(digest, requests, results) && k < l < |results|
    ensures Spent(results[k].outcomes) !! Spent(results[l].outcomes)
  {
    hide Evaluated, ConsumedIn, Spent;
    ConsumedGrows(digest, requests, results, k, l);
    ConsumesExactly(digest, requests[k], results[k]);
    ConsumesExactly(digest, requests[l], results[l]);
  }

  /** Over a whole chain each authority event authorises at most one accepted transition. */
  lemma EventAuthorisesOnce(digest: Digester, requests: seq<Json>, results: seq<BatchResult>, k: nat, i: nat, l: nat, j: nat)
    requires Chain(digest, requests, results) && k <= l < |results| && i < |results[k].outcomes| && j < |results[l].outcomes|
    requires k < l || i < j
    requires var a, b := results[k].outcomes[i], results[l].outcomes[j];
             a.Accepted? && b.Accepted? && a.eventId.Some? && b.eventId.Some?
    ensures results[k].outcomes[i].eventId.value != results[l].outcomes[j].eventId.value
  {
    hide Evaluated;
    if k < l {
      SpentLater(digest, requests, results, k, l);
      SpentContains(results[k].outcomes, i);
      SpentContains(results[l].outcomes, j);
      hide Chain, Spent;
    } else {
      AcceptedDistinct(digest, requests[l], i, j);
    }
  }

  lemma SpentContains(outcomes: seq<Outcome>, i: nat)
    requires i < |outcomes| && outcomes[i].Accepted? && outcomes[i].eventId.Some?
    ensures outcomes[i].eventId.value in Spent(outcomes)
  {
    assert outcomes[i] in outcomes;
  }

  // ---------------------------------------------------------------- what acceptance means

  /** An approved event in force now, by a named approver, on distinct known evidence that includes all that is required; if it is
      attested, then by a trusted approver and with the digest the event has. */
  ghost predicate Authorises(digest: Digester, event: Json, now: nat, known: Ids, required: Ids) {
    && Exact(event, {"schema", "id", "decision", "approver", "evidenceIds", "issuedAt", "expiresAt"}
                    + if Get(event, "attestation").Some? then {"attestation"} else {})
    && At(event, "schema") == Str("code-intel-authority-event.v1") && At(event, "decision") == Str("approved")
    && NonEmptyText(At(event, "id")) && NamedApprover(At(event, "approver"))
    && RestsOn(At(event, "evidenceIds"), known, required)
    && InForce(At(event, "issuedAt"), At(event, "expiresAt"), now)
    && (Get(event, "attestation").Some? ==> Attested(digest, event))
  }

  ghost predicate NamedApprover(approver: Json) {
    Exact(approver, {"id", "role"}) && NonEmptyText(At(approver, "id")) && NonEmptyText(At(approver, "role"))
  }

  ghost predicate RestsOn(evidence: Json, known: Ids, required: Ids) {
    evidence.Arr? && evidence.items != [] && DistinctIds(evidence.items) && required <= TextsIn(evidence.items) <= known
  }

  ghost predicate InForce(issued: Json, expires: Json, now: nat) {
    issued.PosInt? && expires.PosInt? && issued.magnitude <= now <= expires.magnitude
  }

  ghost predicate Attested(digest: Digester, event: Json) {
    var approver, attestation := At(event, "approver"), At(event, "attestation");
    && At(approver, "id") == Str("code-intel-maintainers") && At(approver, "role") == Str("repository_governance")
    && Exact(attestation, {"scheme", "digest"}) && At(attestation, "scheme") == Str("repository-governed-sha256-v1")
    && At(attestation, "digest").Str? && IsDigest(At(attestation, "digest").text)
    && digest(event) == Some(At(attestation, "digest").text)
  }

  /** An event is accepted exactly when it authorises the transition and has not been consumed; what is returned is its id. */
  lemma EventAcceptedExactly(digest: Digester, event: Json, now: nat, known: Ids, required: Ids, consumed: Ids)
    ensures var r := ValidateAuthorityEvent(digest, event, now, known, required, consumed);
            && (r.Ok? <==> Authorises(digest, event, now, known, required) && At(event, "id").text !in consumed)
            && (r.Ok? ==> At(event, "id") == Str(r.value))
  {
    ContentExactly(digest, event, now, known, required);
    hide ValidateEventContent, RestsOn, InForce, Attested, NamedApprover;
  }

  lemma ContentExactly(digest: Digester, event: Json, now: nat, known: Ids, required: Ids)
    ensures ValidateEventContent(digest, event, now, known, required).None?
       <==> && NamedApprover(At(event, "approver")) && RestsOn(At(event, "evidenceIds"), known, required)
            && InForce(At(event, "issuedAt"), At(event, "expiresAt"), now)
            && (Get(event, "attestation").Some? ==> Attested(digest, event))
  {
    EvidenceExactly(At(event, "evidenceIds"), known, required);
    ApproverExactly(At(event, "approver"));
    AttestationExactly(digest, event);
    hide ValidateApprover, ValidateAttestation, NamedApprover, Attested, RestsOn, IdSet;
  }

  lemma ApproverExactly(approver: Json)
    ensures ValidateApprover(approver).None? <==> NamedApprover(approver)
  {
  }

  lemma AttestationExactly(digest: Digester, event: Json)
    ensures ValidateAttestation(digest, event).None? <==> Attested(digest, event)
  {
    hide IsDigest;
  }

  lemma EvidenceExactly(evidence: Json, known: Ids, required: Ids)
    ensures RestsOn(evidence, known, required)
       <==> && IdSet(evidence).Ok? && IdSet(evidence).value != {}
            && required <= IdSet(evidence).value <= known
  {
    if evidence.Arr? {
      IdsExactly(evidence.items);
    }
    hide DistinctIds, TextsIn;
  }

  /** An accepted transition follows an edge of the policy, and carries an authorising event exactly when the edge is protected. */
  lemma AcceptedFollowsPolicy(c: Context, branch: Json)
    requires Decide(c, branch).None?
    ensures var from, to := ThenText(Then(Get(branch, "current"), "kind")), ThenText(Then(Get(branch, "transition"), "to"));
            && from.Some? && to.Some? && Edge(from.value, to.value).Some?
            && (EventOf(branch).Some? <==> Edge(from.value, to.value) == Some(true))
    ensures var evidence := IdSet(At(At(branch, "transition"), "evidenceIds"));
            && evidence.Ok? && evidence.value != {} && evidence.value <= c.known
            && (EventOf(branch).Some? ==> Authorises(c.digest, EventOf(branch).value, c.now, c.known, evidence.value))
  {
    hide Edge, IsKind, IsActor, Restricted, ValidateAuthorityEvent, Authorises;
    var transition := At(branch, "transition");
    var evidence := IdSet(At(transition, "evidenceIds"));
    if EventOf(branch).Some? {
      EventAcceptedExactly(c.digest, EventOf(branch).value, c.now, c.known, evidence.value, c.consumed);
    }
  }

  // ---------------------------------------------------------------- the order of branches

  /** What one branch contributes to the collected texts. */
  ghost function Contribution(branch: Json, pick: Json -> Option<string>): multiset<string> {
    if pick(branch).Some? then multiset{pick(branch).value} else multiset{}
  }

  lemma CollectSnoc(front: seq<Json>, last: Json, pick: Json -> Option<string>)
    ensures multiset(Collect(front + [last], pick)) == multiset(Collect(front, pick)) + Contribution(last, pick)
  {
    var s := front + [last];
    assert s[..|s| - 1] == front && s[|s| - 1] == last;
    assert multiset(Collect(s, pick)) == multiset(Collect(front, pick) + if pick(last).Some? then [pick(last).value] else []);
  }

  lemma {:induction false} CollectInsert(front: seq<Json>, x: Json, back: seq<Json>, pick: Json -> Option<string>)
    ensures multiset(Collect(front + [x] + back, pick)) == multiset(Collect(front + back, pick)) + Contribution(x, pick)
    decreases |back|
  {
    if back == [] {
      assert front + [x] + back == front + [x] && front + back == front;
      CollectSnoc(front, x, pick);
    } else {
      var rest, last := back[..|back| - 1], back[|back| - 1];
      assert front + [x] + back == (front + [x] + rest) + [last] && front + back == (front + rest) + [last];
      CollectInsert(front, x, rest, pick);
      CollectSnoc(front + [x] + rest, last, pick);
      CollectSnoc(front + rest, last, pick);
    }
  }

  lemma TakeOne(a: seq<Json>, b: seq<Json>) returns (i: nat)
    requires a != [] && multiset(a) == multiset(b)
    ensures i < |b| && b[i] == a[|a| - 1] && b == b[..i] + [b[i]] + b[i + 1..]
    ensures multiset(a[..|a| - 1]) == multiset(b[..i] + b[i + 1..])
  {
    var last := a[|a| - 1];
    assert last in multiset(b);
    i :| 0 <= i < |b| && b[i] == last;
    assert a == a[..|a| - 1] + [last] && b == b[..i] + [b[i]] + b[i + 1..];
    Cancelled(multiset(a[..|a| - 1]), multiset(b[..i] + b[i + 1..]), last);
  }

  lemma {:induction false} CollectPermuted(a: seq<Json>, b: seq<Json>, pick: Json -> Option<string>)
    requires multiset(a) == multiset(b)
    ensures multiset(Collect(a, pick)) == multiset(Collect(b, pick))
    decreases |a|
  {
    if a == [] {
      assert |multiset(b)| == 0;
    } else {
      hide Collect;
      var i := TakeOne(a, b);
      CollectPermuted(a[..|a| - 1], b[..i] + b[i + 1..], pick);
      CollectInsert(b[..i], b[i], b[i + 1..], pick);
      CollectSnoc(a[..|a| - 1], a[|a| - 1], pick);
      assert a == a[..|a| - 1] + [a[|a| - 1]];
    }
  }

  lemma RepeatedPermuted(a: seq<Json>, b: seq<Json>, pick: Json -> Option<string>)
    requires multiset(a) == multiset(b)
    ensures Repeated(Collect(a, pick)) == Repeated(Collect(b, pick))
  {
    CollectPermuted(a, b, pick);
    assert forall v :: v in Collect(a, pick) <==> v in multiset(Collect(a, pick));
    assert forall v :: v in Collect(b, pick) <==> v in multiset(Collect(b, pick));
  }

  /** Reordering the branches of a batch changes neither what is decided about each nor what is consumed. */
  lemma OrderIrrelevant(digest: Digester, request: Json, reordered: Json)
    requires ValidateBatch(request).None? && ValidateBatch(reordered).None?
    requires At(reordered, "evaluatedAt") == At(request, "evaluatedAt")
    requires KnownIn(reordered) == KnownIn(request) && ConsumedIn(reordered) == ConsumedIn(request)
    requires multiset(BranchesIn(reordered)) == multiset(BranchesIn(request))
    ensures ContextOf(digest, reordered) == ContextOf(digest, request)
    ensures Evaluated(digest, reordered).value.consumed == Evaluated(digest, request).value.consumed
  {
    hide Outcomes, Spent, Repeated, Collect, CountAccepted, KnownIn, ConsumedIn, ExactIn;
    var a, b := BranchesIn(request), BranchesIn(reordered);
    RepeatedPermuted(a, b, BranchIdOf);
    RepeatedPermuted(a, b, OutputIdOf);
    RepeatedPermuted(a, b, EventIdOf);
    SameSpent(ContextOf(digest, request), a, b);
  }

  lemma SameSpent(c: Context, a: seq<Json>, b: seq<Json>)
    requires multiset(a) == multiset(b)
    ensures Spent(Outcomes(c, a)) == Spent(Outcomes(c, b))
  {
    SpentByBranch(c, a);
    SpentByBranch(c, b);
    hide Outcomes, Spent, EventsSpentBy;
    assert forall x :: x in a <==> x in multiset(a);
    assert forall x :: x in b <==> x in multiset(b);
    assert (set x | x in a) == (set x | x in b);
  }

  function EventsSpentBy(c: Context, branches: set<Json>): Ids {
    set x | x in branches && Decide(c, x).None? && EventIdOf(x).Some? :: EventIdOf(x).value
  }

  lemma SpentByBranch(c: Context, branches: seq<Json>)
    ensures Spent(Outcomes(c, branches)) == EventsSpentBy(c, set x | x in branches)
  {
    hide Decide;
    var outcomes := Outcomes(c, branches);
    forall e | e in Spent(outcomes) ensures e in EventsSpentBy(c, set x | x in branches) {
      var o :| o in outcomes && o.Accepted? && o.eventId == Some(e);
      var i :| 0 <= i < |branches| && outcomes[i] == o;
      assert branches[i] in branches;
    }
    forall e | e in EventsSpentBy(c, set x | x in branches) ensures e in Spent(outcomes) {
      var x :| x in branches && Decide(c, x).None? && EventIdOf(x) == Some(e);
      var i :| 0 <= i < |branches| && branches[i] == x;
      assert outcomes[i] in outcomes;
    }
  }
}
