/** What acceptance of an authority transition means, from the branch's own fields and the policy spelled out. */
module AuthorityLaw {
  import opened Authority
  import opened Json
  import opened Text

  // ---------------------------------------------------------------- the policy

  /** Transitions anyone may make on evidence. */
  predicate OpenEdge(from: Json, to: Json) {
    || (from == Str("observed_evidence") && (to == Str("engineering_fact") || to == Str("proposal")))
    || (from == Str("engineering_fact") && to == Str("derived_engineering_model"))
    || (from == Str("derived_engineering_model") && to == Str("proposal"))
  }

  /** Transitions that commit to something and need an authority event. */
  predicate ProtectedEdge(from: Json, to: Json) {
    || (from == Str("proposal") && (to == Str("adoption_decision") || to == Str("committed_engineering_plan")))
    || (from == Str("adoption_decision") && to == Str("committed_engineering_plan"))
  }

  predicate KnownActor(kind: Json) {
    kind == Str("deterministic_pipeline") || kind == Str("human") || Advisory(kind)
  }

  /** Sources that may only observe and propose. */
  predicate Advisory(kind: Json) {
    kind == Str("llm") || kind == Str("provider") || kind == Str("recommender")
  }

  /** A branch that may be accepted, apart from clashes with other branches. */
  ghost predicate Lawful(digest: Digester, branch: Json, now: nat, known: Ids, consumed: Ids) {
    && Exact(branch, {"branchId", "source", "current", "transition"}) && NonEmptyText(At(branch, "branchId"))
    && LawfulSource(At(branch, "source")) && LawfulCurrent(At(branch, "current"))
    && LawfulTransition(digest, At(At(branch, "source"), "kind"), At(At(branch, "current"), "kind"), At(branch, "transition"),
                        now, known, consumed)
  }

  ghost predicate LawfulSource(source: Json) {
    Exact(source, {"kind", "id"}) && KnownActor(At(source, "kind")) && NonEmptyText(At(source, "id"))
  }

  ghost predicate LawfulCurrent(current: Json) {
    Exact(current, {"kind", "id"}) && NonEmptyText(At(current, "id"))
  }

  ghost predicate LawfulTransition(digest: Digester, actor: Json, from: Json, transition: Json, now: nat, known: Ids, consumed: Ids) {
    var to, evidence, event := At(transition, "to"), At(transition, "evidenceIds"), Get(transition, "authorityEvent");
    && transition.Obj? && {"to", "outputId", "evidenceIds"} <= transition.fields.Keys
    && transition.fields.Keys <= {"to", "outputId", "evidenceIds", "authorityEvent"}
    && NonEmptyText(At(transition, "outputId")) && RestsOn(evidence, known, {})
    && LawfulMove(digest, actor, from, to, event, now, known, TextsOf(evidence), consumed)
  }

  /** The texts of an array of evidence. */
  ghost function TextsOf(evidence: Json): Ids {
    if evidence.Arr? then TextsIn(evidence.items) else {}
  }

  /** Along an edge of the policy, by a source that may, with an event exactly when one is needed. */
  ghost predicate LawfulMove(digest: Digester, actor: Json, from: Json, to: Json, event: Option<Json>,
                             now: nat, known: Ids, evidence: Ids, consumed: Ids)
  {
    && (OpenEdge(from, to) || ProtectedEdge(from, to))
    && (Advisory(actor) ==> to != Str("engineering_fact") && to != Str("derived_engineering_model"))
    && (event.Some? <==> ProtectedEdge(from, to))
    && (event.Some? ==> Authorises(digest, event.value, now, known, evidence) && At(event.value, "id").text !in consumed)
  }

  // ---------------------------------------------------------------- validation is the law

  lemma KindsDiffer()
    ensures OBSERVED != FACT && OBSERVED != MODEL && OBSERVED != PROPOSAL && OBSERVED != ADOPTION && OBSERVED != PLAN
    ensures FACT != MODEL && FACT != PROPOSAL && FACT != ADOPTION && FACT != PLAN
    ensures MODEL != PROPOSAL && MODEL != ADOPTION && MODEL != PLAN
    ensures PROPOSAL != ADOPTION && PROPOSAL != PLAN && ADOPTION != PLAN
  {
    assert OBSERVED[0] == 'o' && FACT[0] == 'e' && MODEL[0] == 'd' && PROPOSAL[0] == 'p' && ADOPTION[0] == 'a' && PLAN[0] == 'c';
  }

  lemma EdgesExactly(from: string, to: string)
    ensures OpenEdge(Str(from), Str(to)) <==> Edge(from, to) == Some(false)
    ensures ProtectedEdge(Str(from), Str(to)) <==> Edge(from, to) == Some(true)
    ensures Edge(from, to).Some? ==> IsKind(from) && IsKind(to)
  {
    KindsDiffer();
  }

  lemma ActorsExactly(actor: string)
    ensures KnownActor(Str(actor)) <==> IsActor(actor)
    ensures Advisory(Str(actor)) <==> Restricted(actor)
  {
  }

  lemma TargetsExactly(to: string)
    ensures IsKind(to) ==> ((to == OBSERVED || to == PROPOSAL || to == ADOPTION || to == PLAN)
                            <==> Str(to) != Str("engineering_fact") && Str(to) != Str("derived_engineering_model"))
  {
    KindsDiffer();
  }

  lemma MoveExactly(digest: Digester, actor: string, from: string, to: string, event: Option<Json>,
                    now: nat, known: Ids, evidence: Ids, consumed: Ids)
    ensures ValidateMove(digest, Some(actor), Some(from), to, event, now, known, evidence, consumed).None?
       <==> LawfulMove(digest, Str(actor), Str(from), Str(to), event, now, known, evidence, consumed)
  {
    EdgesExactly(from, to);
    ActorsExactly(actor);
    TargetsExactly(to);
    if event.Some? {
      EventAcceptedExactly(digest, event.value, now, known, evidence, consumed);
    }
    hide Edge, IsKind, Restricted, Advisory, OpenEdge, ProtectedEdge, ValidateAuthorityEvent, Authorises;
  }

  lemma SourceExactly(source: Json)
    ensures ValidateSource(source).None? <==> LawfulSource(source)
  {
    if At(source, "kind").Str? {
      ActorsExactly(At(source, "kind").text);
    }
    hide IsActor, Advisory, Restricted;
  }

  lemma TransitionExactly(digest: Digester, actor: Json, from: Json, transition: Json, now: nat, known: Ids, consumed: Ids)
    requires actor.Str? && from.Str?
    ensures ValidateTransition(digest, actor, from, transition, now, known, consumed).None?
       <==> LawfulTransition(digest, actor, from, transition, now, known, consumed)
  {
    var to, evidence, event := At(transition, "to"), At(transition, "evidenceIds"), Get(transition, "authorityEvent");
    EvidenceExactly(evidence, known, {});
    if to.Str? {
      EdgesExactly(from.text, to.text);
      MoveExactly(digest, actor.text, from.text, to.text, event, now, known, TextsOf(evidence), consumed);
    }
    EvidenceTexts(evidence);
    LawfulTargets(digest, actor, from, to, event, now, known, TextsOf(evidence), consumed);
    hide IdSet, TextsOf, Edge, IsKind, OpenEdge, ProtectedEdge, ValidateMove, LawfulMove, RestsOn, TextsIn, DistinctIds;
  }

  lemma EvidenceTexts(evidence: Json)
    ensures IdSet(evidence).Ok? ==> IdSet(evidence).value == TextsOf(evidence)
  {
    if evidence.Arr? {
      IdsExactly(evidence.items);
    }
    hide TextsIn, DistinctIds;
  }

  lemma LawfulTargets(digest: Digester, actor: Json, from: Json, to: Json, event: Option<Json>,
                      now: nat, known: Ids, evidence: Ids, consumed: Ids)
    ensures LawfulMove(digest, actor, from, to, event, now, known, evidence, consumed) ==> to.Str? && IsKind(to.text)
  {
    if from.Str? && to.Str? {
      EdgesExactly(from.text, to.text);
    }
    hide Edge, IsKind, Authorises;
  }

  lemma CurrentExactly(current: Json)
    ensures ValidateCurrent(current).None? <==> LawfulCurrent(current) && At(current, "kind").Str? && IsKind(At(current, "kind").text)
  {
    hide IsKind;
  }

  /** Validation accepts exactly the lawful branches. */
  lemma BranchExactly(digest: Digester, branch: Json, now: nat, known: Ids, consumed: Ids)
    ensures ValidateBranch(digest, branch, now, known, consumed).None? <==> Lawful(digest, branch, now, known, consumed)
  {
    var source, current, transition := At(branch, "source"), At(branch, "current"), At(branch, "transition");
    var actor, from := At(source, "kind"), At(current, "kind");
    SourceExactly(source);
    CurrentExactly(current);
    ActorIsText(source);
    FromIsKind(digest, actor, from, transition, now, known, consumed);
    if actor.Str? && from.Str? {
      TransitionExactly(digest, actor, from, transition, now, known, consumed);
    }
    hide ValidateSource, ValidateCurrent, ValidateTransition, LawfulSource, LawfulCurrent, LawfulTransition, IsKind;
  }

  lemma ActorIsText(source: Json)
    ensures LawfulSource(source) ==> At(source, "kind").Str?
  {
  }

  lemma FromIsKind(digest: Digester, actor: Json, from: Json, transition: Json, now: nat, known: Ids, consumed: Ids)
    ensures LawfulTransition(digest, actor, from, transition, now, known, consumed) ==> from.Str? && IsKind(from.text)
  {
    var to := At(transition, "to");
    if from.Str? && to.Str? {
      EdgesExactly(from.text, to.text);
    }
    hide Edge, IsKind, Authorises, RestsOn;
  }

  // ---------------------------------------------------------------- clashes within a batch

  lemma {:induction false} RepeatedIsShared(branches: seq<Json>, pick: Json -> Option<string>, v: string)
    ensures v in multiset(Collect(branches, pick)) <==> exists i :: 0 <= i < |branches| && pick(branches[i]) == Some(v)
    ensures multiset(Collect(branches, pick))[v] > 1 <==> exists i, j :: 0 <= i < j < |branches| && pick(branches[i]) == Some(v) && pick(branches[j]) == Some(v)
  {
    if branches != [] {
      var front, last := branches[..|branches| - 1], branches[|branches| - 1];
      RepeatedIsShared(front, pick, v);
      assert multiset(Collect(branches, pick)) == multiset(Collect(front, pick)) + if pick(last).Some? then multiset{pick(last).value} else multiset{};
      assert branches == front + [last];
      SharedSnoc(front, last, pick, v);
      hide Collect;
    }
  }

  lemma SharedSnoc(front: seq<Json>, last: Json, pick: Json -> Option<string>, v: string)
    ensures var branches := front + [last];
            && ((exists i :: 0 <= i < |branches| && pick(branches[i]) == Some(v))
                <==> (exists i :: 0 <= i < |front| && pick(front[i]) == Some(v)) || pick(last) == Some(v))
            && ((exists i, j :: 0 <= i < j < |branches| && pick(branches[i]) == Some(v) && pick(branches[j]) == Some(v))
                <==> || (exists i, j :: 0 <= i < j < |front| && pick(front[i]) == Some(v) && pick(front[j]) == Some(v))
                     || ((exists i :: 0 <= i < |front| && pick(front[i]) == Some(v)) && pick(last) == Some(v)))
  {
    var branches := front + [last];
    assert branches[|front|] == last && forall i :: 0 <= i < |front| ==> branches[i] == front[i];
    if i :| 0 <= i < |front| && pick(front[i]) == Some(v) && pick(last) == Some(v) {
      assert pick(branches[i]) == Some(v) && pick(branches[|front|]) == Some(v);
    }
    if i, j :| 0 <= i < j < |front| && pick(front[i]) == Some(v) && pick(front[j]) == Some(v) {
      assert pick(branches[i]) == Some(v) && pick(branches[j]) == Some(v);
    }
  }

  /** No other branch of the batch carries the same id in this place. */
  ghost predicate Alone(branches: seq<Json>, pick: Json -> Option<string>, i: nat)
    requires i < |branches|
  {
    forall j :: 0 <= j < |branches| && j != i && pick(branches[i]).Some? ==> pick(branches[j]) != pick(branches[i])
  }

  lemma AloneExactly(branches: seq<Json>, pick: Json -> Option<string>, i: nat)
    requires i < |branches| && pick(branches[i]).Some?
    ensures Alone(branches, pick, i) <==> pick(branches[i]).value !in Repeated(Collect(branches, pick))
  {
    var v := pick(branches[i]).value;
    RepeatedIsShared(branches, pick, v);
    assert v in Collect(branches, pick) <==> v in multiset(Collect(branches, pick));
    if !Alone(branches, pick, i) {
      var j :| 0 <= j < |branches| && j != i && pick(branches[j]) == pick(branches[i]);
      assert pick(branches[if i < j then i else j]) == Some(v) && pick(branches[if i < j then j else i]) == Some(v);
    }
  }

  /** A branch of a batch is accepted exactly when it is lawful and shares its branch id, output id and event id with no other. */
  lemma AcceptedExactly(digest: Digester, request: Json, i: nat)
    requires Evaluated(digest, request).Ok? && i < |BranchesIn(request)|
    ensures var result, branches := Evaluated(digest, request).value, BranchesIn(request);
            && |result.outcomes| == |branches| && KnownIn(request).Ok? && ConsumedIn(request).Ok? && At(request, "evaluatedAt").PosInt?
            && (result.outcomes[i].Accepted? <==>
                  && Lawful(digest, branches[i], At(request, "evaluatedAt").magnitude, KnownIn(request).value, ConsumedIn(request).value)
                  && Alone(branches, BranchIdOf, i) && Alone(branches, OutputIdOf, i) && Alone(branches, EventIdOf, i))
  {
    var c, branches := ContextOf(digest, request), BranchesIn(request);
    OutcomeAt(digest, request, i);
    BranchExactly(digest, branches[i], c.now, c.known, c.consumed);
    DecidesAlone(c, branches, i);
    hide *;
    BatchFields(request);
  }

  lemma BatchFields(request: Json)
    requires ValidateBatch(request).None?
    ensures KnownIn(request).Ok? && ConsumedIn(request).Ok? && At(request, "evaluatedAt").PosInt?
    ensures forall digest :: ContextOf(digest, request).now == At(request, "evaluatedAt").magnitude
                          && ContextOf(digest, request).known == KnownIn(request).value
                          && ContextOf(digest, request).consumed == ConsumedIn(request).value
                          && ContextOf(digest, request).digest == digest
  {
    hide IdSet, Repeated, Collect;
  }

  lemma OutcomeAt(digest: Digester, request: Json, i: nat)
    requires Evaluated(digest, request).Ok? && i < |BranchesIn(request)|
    ensures ValidateBatch(request).None?
    ensures var c, outcomes := ContextOf(digest, request), Evaluated(digest, request).value.outcomes;
            && |outcomes| == |BranchesIn(request)| && outcomes[i] == EvaluateBranch(c, BranchesIn(request)[i], i)
            && (outcomes[i].Accepted? <==> Decide(c, BranchesIn(request)[i]).None?)
            && c.branchIds == Repeated(Collect(BranchesIn(request), BranchIdOf))
            && c.outputIds == Repeated(Collect(BranchesIn(request), OutputIdOf))
            && c.eventIds == Repeated(Collect(BranchesIn(request), EventIdOf))
  {
    hide ValidateBatch, Decide, Repeated, Collect, BranchesIn;
  }

  /** What an outcome reports are the branch's own fields; a rejected branch yields no output and no event. */
  lemma OutcomeReports(digest: Digester, request: Json, i: nat)
    requires Evaluated(digest, request).Ok? && i < |BranchesIn(request)|
    ensures |Evaluated(digest, request).value.outcomes| == |BranchesIn(request)|
    ensures var o, branch := Evaluated(digest, request).value.outcomes[i], BranchesIn(request)[i];
            o.Accepted? ==>
              && Str(o.from) == At(At(branch, "current"), "kind") && Str(o.to) == At(At(branch, "transition"), "to")
              && Str(o.outputId) == At(At(branch, "transition"), "outputId") && o.name.Named? && Str(o.name.id) == At(branch, "branchId")
              && o.event == Get(At(branch, "transition"), "authorityEvent")
              && (if o.event.Some? then o.eventId.Some? && Str(o.eventId.value) == At(o.event.value, "id") else o.eventId.None?)
  {
    var c, branch := ContextOf(digest, request), BranchesIn(request)[i];
    OutcomeAt(digest, request, i);
    BranchExactly(digest, branch, c.now, c.known, c.consumed);
    DecidesAlone(c, BranchesIn(request), i);
    hide Evaluated, Decide, ValidateBatch, BranchesIn, Lawful;
    LawfulReports(c, branch, i);
  }

  lemma LawfulReports(c: Context, branch: Json, i: nat)
    ensures var o := EvaluateBranch(c, branch, i);
            o.Accepted? && Lawful(c.digest, branch, c.now, c.known, c.consumed) ==>
              && Str(o.from) == At(At(branch, "current"), "kind") && Str(o.to) == At(At(branch, "transition"), "to")
              && Str(o.outputId) == At(At(branch, "transition"), "outputId") && o.name.Named? && Str(o.name.id) == At(branch, "branchId")
              && o.event == Get(At(branch, "transition"), "authorityEvent")
              && (if o.event.Some? then o.eventId.Some? && Str(o.eventId.value) == At(o.event.value, "id") else o.eventId.None?)
  {
    var transition := At(branch, "transition");
    LawfulTargets(c.digest, At(At(branch, "source"), "kind"), At(At(branch, "current"), "kind"), At(transition, "to"),
                  Get(transition, "authorityEvent"), c.now, c.known, TextsOf(At(transition, "evidenceIds")), c.consumed);
    FromIsKind(c.digest, At(At(branch, "source"), "kind"), At(At(branch, "current"), "kind"), transition, c.now, c.known, c.consumed);
    hide Decide, IsKind, OpenEdge, ProtectedEdge, RestsOn, LawfulSource, LawfulCurrent;
  }

  /** The counts are of the outcomes. */
  lemma {:induction false} CountsAccepted(outcomes: seq<Outcome>)
    ensures CountAccepted(outcomes) == |set i | 0 <= i < |outcomes| && outcomes[i].Accepted?|
  {
    if outcomes != [] {
      var n := |outcomes| - 1;
      var front := outcomes[..n];
      CountsAccepted(front);
      var before, all := set i | 0 <= i < |front| && front[i].Accepted?, set i | 0 <= i < |outcomes| && outcomes[i].Accepted?;
      assert forall i :: 0 <= i < n ==> front[i] == outcomes[i];
      assert all == before + if outcomes[n].Accepted? then {n} else {};
    }
  }

  lemma DecidesAlone(c: Context, branches: seq<Json>, i: nat)
    requires i < |branches|
    requires c.branchIds == Repeated(Collect(branches, BranchIdOf)) && c.outputIds == Repeated(Collect(branches, OutputIdOf))
    requires c.eventIds == Repeated(Collect(branches, EventIdOf))
    ensures Decide(c, branches[i]).None?
       <==> && ValidateBranch(c.digest, branches[i], c.now, c.known, c.consumed).None?
            && Alone(branches, BranchIdOf, i) && Alone(branches, OutputIdOf, i) && Alone(branches, EventIdOf, i)
  {
    var branch := branches[i];
    BranchExactly(c.digest, branch, c.now, c.known, c.consumed);
    LawfulIds(c.digest, branch, c.now, c.known, c.consumed);
    if BranchIdOf(branch).Some? {
      AloneExactly(branches, BranchIdOf, i);
    }
    if OutputIdOf(branch).Some? {
      AloneExactly(branches, OutputIdOf, i);
    }
    if EventIdOf(branch).Some? {
      AloneExactly(branches, EventIdOf, i);
    }
    hide ValidateBranch, Lawful, Repeated, Collect, BranchIdOf, OutputIdOf, EventIdOf;
  }

  lemma LawfulIds(digest: Digester, branch: Json, now: nat, known: Ids, consumed: Ids)
    ensures Lawful(digest, branch, now, known, consumed) ==> BranchIdOf(branch).Some? && OutputIdOf(branch).Some?
  {
    hide LawfulMove, RestsOn, LawfulSource, LawfulCurrent;
  }

  /** A batch is evaluated exactly when it has the five fields, each of its kind, and a branch. */
  lemma BatchExactly(digest: Digester, request: Json)
    ensures Evaluated(digest, request).Ok?
       <==> && Exact(request, {"schema", "evaluatedAt", "knownEvidenceIds", "consumedAuthorityEventIds", "branches"})
            && At(request, "schema") == Str("code-intel-authority-transition-batch.v1") && At(request, "evaluatedAt").PosInt?
            && IdList(At(request, "knownEvidenceIds")) && IdList(At(request, "consumedAuthorityEventIds"))
            && At(request, "branches").Arr? && At(request, "branches").items != []
  {
    IdListExactly(At(request, "knownEvidenceIds"));
    IdListExactly(At(request, "consumedAuthorityEventIds"));
    hide ContextOf, Outcomes, CountAccepted, Spent, IdList, IdSet;
  }

  ghost predicate IdList(v: Json) {
    v.Arr? && DistinctIds(v.items)
  }

  lemma IdListExactly(v: Json)
    ensures IdSet(v).Ok? <==> IdList(v)
  {
    if v.Arr? {
      IdsExactly(v.items);
    }
    hide DistinctIds;
  }
}
