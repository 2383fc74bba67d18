/** Why the past of a run never changes, and exactly when it does while the run is forming. */
module RunPast {
  import opened Outcomes
  import opened Sequences
  import opened RunLog
  import opened RunInvariant
  import opened RunHistory
  import opened RunReplay

  // --- Later states ----------------------------------------------------------------------------------

  ghost predicate EligibleLater(length: nat, before: seq<Disclosure>, after: seq<Disclosure>)
  {
    before <= after && forall i | |before| <= i < |after| :: length < after[i].sourceRunSeq
  }

  ghost predicate ReceiptsLater(length: nat, before: seq<Receipt>, after: seq<Receipt>)
  {
    before <= after && forall i | |before| <= i < |after| :: length < after[i].base.issuedRunSeq
  }

  ghost predicate AcknowledgementsLater(length: nat, before: seq<Acknowledgement>, after: seq<Acknowledgement>)
  {
    before <= after && forall i | |before| <= i < |after| :: length < after[i].acknowledgedRunSeq
  }

  ghost predicate EventsLater(before: seq<Event>, after: seq<Event>)
  {
    before <= after && forall i | |before| <= i < |after| :: |before| < after[i].base.runSeq
  }

  ghost predicate AgentsLater(before: Run, after: Run)
  {
    && before.agents <= after.agents
    && (forall i | |before.agents| <= i < |after.agents| ::
          |before.events| < after.agents[i].joinedRunSeq && after.agents[i].id !in before.receipts)
    && before.roleAssignments <= after.roleAssignments
    && (forall i | |before.roleAssignments| <= i < |after.roleAssignments| ::
          |before.events| < after.roleAssignments[i].assignedRunSeq)
  }

  /** A run only starts; once it has, its description stays. */
  ghost predicate InfoLater(before: Run, after: Run)
  {
    && after.initial == before.initial && after.scenarioVersionHash == before.scenarioVersionHash
    && after.info.virtualTime == before.info.virtualTime
    && (before.info.state == Running ==> after.info == before.info)
  }

  ghost predicate KnowledgeLater(before: Run, after: Run)
  {
    && before.messages <= after.messages && before.artifacts <= after.artifacts
    && before.feedback <= after.feedback && before.drawn <= after.drawn
    && (forall id | id in after.feedback && id in before.drawn :: id in before.feedback)
  }

  function EligibleOf(run: Run, a: string): seq<Disclosure>
  {
    if a in run.eligible then run.eligible[a] else []
  }

  function ReceiptsOf(run: Run, a: string): seq<Receipt>
  {
    if a in run.receipts then run.receipts[a] else []
  }

  function AcknowledgementsOf(run: Run, a: string): seq<Acknowledgement>
  {
    if a in run.acknowledgements then run.acknowledgements[a] else []
  }

  ghost predicate RecordsLater(before: Run, after: Run, a: string)
  {
    && (a in before.eligible ==> a in after.eligible) && (a in before.receipts ==> a in after.receipts)
    && (a in before.acknowledgements ==> a in after.acknowledgements)
    && EligibleLater(|before.events|, EligibleOf(before, a), EligibleOf(after, a))
    && ReceiptsLater(|before.events|, ReceiptsOf(before, a), ReceiptsOf(after, a))
    && AcknowledgementsLater(|before.events|, AcknowledgementsOf(before, a), AcknowledgementsOf(after, a))
  }

  /** `after` adds to `before` only what happened later: events, agents, and what agents may receive, have
      received and have acknowledged. */
  ghost predicate Later(before: Run, after: Run)
  {
    && InfoLater(before, after) && AgentsLater(before, after) && KnowledgeLater(before, after)
    && EventsLater(before.events, after.events)
    && forall a :: RecordsLater(before, after, a)
  }

  lemma RecordsLaterTransitive(a: Run, b: Run, c: Run, x: string)
    requires RecordsLater(a, b, x) && RecordsLater(b, c, x) && EventsLater(a.events, b.events)
    ensures RecordsLater(a, c, x)
  {
  }

  lemma AgentsLaterTransitive(a: Run, b: Run, c: Run)
    requires AgentsLater(a, b) && AgentsLater(b, c) && EventsLater(a.events, b.events)
    requires forall x | x in a.receipts :: x in b.receipts
    ensures AgentsLater(a, c)
  {
  }

  lemma LaterTransitive(a: Run, b: Run, c: Run)
    requires Later(a, b) && Later(b, c)
    ensures Later(a, c)
  {
    forall x | x in a.receipts ensures x in b.receipts { assert RecordsLater(a, b, x); }
    AgentsLaterTransitive(a, b, c);
    hide AgentsLater;
    forall x ensures RecordsLater(a, c, x) {
      assert RecordsLater(a, b, x) && RecordsLater(b, c, x);
      RecordsLaterTransitive(a, b, c, x);
    }
    hide RecordsLater;
  }

  lemma SameIsLater(run: Run)
    ensures Later(run, run)
  {
  }

  lemma AppendIsLater(h: Hashing, run: Run, input: EventInput, draw: Draw)
    ensures Later(run, AppendRunEvent(h, run, input, draw))
  {
  }

  lemma AddEligibleIsLater(run: Run, appended: Run, agent: string, d: Disclosure)
    requires Later(run, appended) && |run.events| < d.sourceRunSeq
    ensures Later(run, AddEligible(appended, agent, d))
  {
    var after := AddEligible(appended, agent, d);
    forall a ensures RecordsLater(run, after, a) {
      assert RecordsLater(run, appended, a);
    }
  }

  lemma {:induction false} PublishToIsLater(run: Run, appended: Run, recipients: seq<string>, d: Disclosure)
    requires Later(run, appended) && |run.events| < d.sourceRunSeq
    ensures Later(run, AddEligibleToAll(appended, recipients, d))
  {
    hide Later;
    if recipients != [] {
      var init, last := recipients[..|recipients| - 1], recipients[|recipients| - 1];
      PublishToIsLater(run, appended, init, d);
      AddEligibleIsLater(run, AddEligibleToAll(appended, init, d), last, d);
    }
  }

  lemma SubmissionsDoNotMatter(before: Run, after: Run, submissions: map<string, Submission>)
    requires Later(before, after)
    ensures Later(before, after.(submissions := submissions))
  {
    var filed := after.(submissions := submissions);
    forall a ensures RecordsLater(before, filed, a) {
      assert RecordsLater(before, after, a);
    }
  }

  lemma PublishIsLater(h: Hashing, run: Run, input: EventInput, resource: Resource, recipients: seq<string>, draw: Draw)
    requires run.feedback <= run.drawn && NewResource(run, resource)
    ensures Later(run, Publish(h, run, input, resource, recipients, draw))
  {
    var registered := Register(AppendRunEvent(h, run, input, draw), resource);
    assert Later(run, registered);
    PublishToIsLater(run, registered, recipients, DisclosureOf(h, resource, NewEvent(h, run, input, draw)));
  }

  lemma {:induction false} IssueUpToIsLater(h: Hashing, run: Run, agent: string, selected: seq<Disclosure>, n: nat,
                                            draws: SyncDraws)
    requires agent in run.receipts && n <= |selected|
    ensures Later(run, IssueUpTo(h, run, agent, selected, n, draws))
  {
    if n > 0 {
      IssueUpToIsLater(h, run, agent, selected, n - 1, draws);
      var before := IssueUpTo(h, run, agent, selected, n - 1, draws);
      IssueOneIsLater(h, before, agent, selected[n - 1], draws.deliveryBatchId, draws.receiptIds(n - 1),
                      draws.issuances(n - 1), draws.issuedAt(n - 1));
      LaterTransitive(run, before, IssueUpTo(h, run, agent, selected, n, draws));
    } else {
      SameIsLater(run);
    }
  }

  lemma IssueOneIsLater(h: Hashing, run: Run, agent: string, d: Disclosure, batchId: string, receiptId: string, draw: Draw,
                        issuedAt: int)
    requires agent in run.receipts
    ensures Later(run, IssueOne(h, run, agent, d, batchId, receiptId, draw, issuedAt))
  {
  }

  lemma AcknowledgeIsLater(h: Hashing, run: Run, agent: string, ack: Ack, draw: Draw)
    requires HasRecord(run, agent) && Acknowledge(h, run, agent, ack, draw).Ok?
    ensures Later(run, Acknowledge(h, run, agent, ack, draw).value)
  {
  }

  lemma TakeIdIsLater(run: Run, id: string)
    ensures Later(run, run.(drawn := run.drawn + {id}))
  {
  }

  lemma SyncIsLater(h: Hashing, run: Run, agent: string, after: nat, ack: Option<Ack>, maxItems: nat, draws: SyncDraws)
    requires HasRecord(run, agent) && Sync(h, run, agent, after, ack, maxItems, draws).Ok?
    ensures Later(run, Sync(h, run, agent, after, ack, maxItems, draws).value.0)
  {
    hide Later, Pending, IssueUpTo, Acknowledge;
    var acknowledged := if ack.Some? then Acknowledge(h, run, agent, ack.value, draws.ack).value else run;
    if ack.Some? { AcknowledgeIsLater(h, run, agent, ack.value, draws.ack); } else { SameIsLater(run); }
    var selected := Selected(Pending(acknowledged, agent), maxItems);
    IssueUpToIsLater(h, acknowledged, agent, selected, |selected|, draws);
    LaterTransitive(run, acknowledged, IssuePending(h, acknowledged, agent, maxItems, draws));
  }

  lemma JoinIsLater(h: Hashing, run: Run, op: Op)
    requires AgentsConsistent(h, run) && op.Join? && op.slotId !in run.eligible
    ensures Later(run, Apply(h, run, op))
  {
    hide AgentConsistent;
    var after := Apply(h, run, op);
    forall a ensures RecordsLater(run, after, a) {
    }
  }

  lemma StartIsLater(h: Hashing, run: Run, op: Op)
    requires op.Start? && run.info.state == Forming
    ensures Later(run, Apply(h, run, op))
  {
  }

  /** Every legal command, joining and starting included, only adds what happens later. */
  lemma ApplyIsLater(h: Hashing, run: Run, op: Op)
    requires Consistent(h, run) && Legal(run, op)
    ensures Later(run, Apply(h, run, op))
  {
    hide AgentsConsistent, SubmissionsConsistent, EventsChained, StreamKnown, Sync, Publish, NewResource, ReferencesHold, Later;
    SameIsLater(run);
    match op
    case Join(_, _, _, _, _) => JoinIsLater(h, run, op);
    case Start(_, _) => StartIsLater(h, run, op);
    case TakeId(id) => TakeIdIsLater(run, id);
    case Emit(input, draw) => AppendIsLater(h, run, input, draw);
    case PublishResource(input, resource, recipients, draw) => PublishIsLater(h, run, input, resource, recipients, draw);
    case Submit(agent, id, revisionNo, body, _, _, recipients, draw) =>
      var input, resource := SubmissionInput(agent, id, body), SubmissionResource(id, revisionNo, body);
      PublishIsLater(h, run, input, resource, [agent] + recipients, draw);
      SubmissionsDoNotMatter(run, Publish(h, run, input, resource, [agent] + recipients, draw), Apply(h, run, op).submissions);
    case Synchronise(agent, after, ack, maxItems, draws) =>
      if HasRecord(run, agent) && Sync(h, run, agent, after, ack, maxItems, draws).Ok? {
        SyncIsLater(h, run, agent, after, ack, maxItems, draws);
      }
  }

  lemma {:induction false} HistoryIsLater(h: Hashing, run: Run, ops: seq<Op>)
    requires Consistent(h, run) && AllLegal(h, run, ops)
    ensures Later(run, ApplyAll(h, run, ops))
    decreases |ops|
  {
    hide Consistent, Legal, Apply, Later;
    if ops == [] {
      SameIsLater(run);
    } else {
      var next := Apply(h, run, ops[0]);
      ApplyKeeps(h, run, ops[0]);
      ApplyIsLater(h, run, ops[0]);
      HistoryIsLater(h, next, ops[1..]);
      LaterTransitive(run, next, ApplyAll(h, run, ops));
    }
  }

  // --- The past never changes --------------------------------------------------------------------------

  lemma EventsAtStable(before: Run, after: Run, r: nat)
    requires EventsLater(before.events, after.events) && r <= |before.events|
    ensures EventsAt(after, r) == EventsAt(before, r)
  {
    var past := (e: Event) => e.base.runSeq <= |before.events|;
    KeepOfGrown(past, (e: Event) => e.base.runSeq <= r, before.events, after.events);
  }

  lemma EligibleByStable(length: nat, before: seq<Disclosure>, after: seq<Disclosure>, r: nat)
    requires EligibleLater(length, before, after) && r <= length
    ensures EligibleBy(after, r) == EligibleBy(before, r)
  {
    KeepOfGrown((d: Disclosure) => d.sourceRunSeq <= length, (d: Disclosure) => d.sourceRunSeq <= r, before, after);
  }

  lemma AcknowledgedThroughStable(length: nat, before: seq<Acknowledgement>, after: seq<Acknowledgement>, r: nat)
    requires AcknowledgementsLater(length, before, after) && r <= length
    ensures AcknowledgedThrough(after, r) == AcknowledgedThrough(before, r)
  {
    KeepOfGrown((a: Acknowledgement) => a.acknowledgedRunSeq <= length, (a: Acknowledgement) => a.acknowledgedRunSeq <= r,
                before, after);
  }

  /** Filters of receipts that look only at those issued by `r` do not see later ones. */
  lemma ReceiptFilterStable(length: nat, before: seq<Receipt>, after: seq<Receipt>, p: Receipt -> bool, r: nat)
    requires ReceiptsLater(length, before, after) && r <= length
    requires forall i | 0 <= i < |after| && p(after[i]) :: after[i].base.issuedRunSeq <= r
    ensures Keep(p, after) == Keep(p, before)
  {
    KeepOfGrown((x: Receipt) => x.base.issuedRunSeq <= length, p, before, after);
  }

  /** Whoever may receive something has a record of what it has received and acknowledged. */
  ghost predicate SameKeys(run: Run)
  {
    run.eligible.Keys == run.receipts.Keys == run.acknowledgements.Keys
  }

  lemma AgentReceiptsStable(before: Run, after: Run, q: Query, agent: string, r: nat)
    requires RecordsLater(before, after, agent) && SameKeys(before) && r <= |before.events|
    ensures AgentReceiptsAt(after, q, agent, r) == AgentReceiptsAt(before, q, agent, r)
  {
    hide Keep, AcknowledgedThrough;
    AcknowledgedThroughStable(|before.events|, AcknowledgementsOf(before, agent), AcknowledgementsOf(after, agent), r);
    var through := AcknowledgedThrough(AcknowledgementsOf(before, agent), r);
    var shown := (x: Receipt) => x.base.issuedRunSeq <= r
                                 && (q.semantics.AcknowledgedView? ==> x.base.agentReceiptSeq <= through);
    ReceiptFilterStable(|before.events|, ReceiptsOf(before, agent), ReceiptsOf(after, agent), shown, r);
    KeepNone(shown, []);
  }

  lemma {:induction false} VisibleReceiptsStable(before: Run, after: Run, q: Query, agents: seq<string>, r: nat)
    requires Later(before, after) && SameKeys(before) && r <= |before.events|
    ensures VisibleReceipts(after, q, agents, r) == VisibleReceipts(before, q, agents, r)
  {
    hide AgentReceiptsAt, RecordsLater;
    if agents != [] {
      VisibleReceiptsStable(before, after, q, agents[..|agents| - 1], r);
      AgentReceiptsStable(before, after, q, agents[|agents| - 1], r);
    }
  }

  lemma {:induction false} ReceiptsAtStable(before: Run, after: Run, agents: seq<string>, r: nat)
    requires Later(before, after) && r <= |before.events|
    ensures ReceiptsAt(after, agents, r) == ReceiptsAt(before, agents, r)
  {
    hide Keep;
    if agents != [] {
      ReceiptsAtStable(before, after, agents[..|agents| - 1], r);
      var last := agents[|agents| - 1];
      assert RecordsLater(before, after, last);
      var past := (x: Receipt) => x.base.issuedRunSeq <= r;
      ReceiptFilterStable(|before.events|, ReceiptsOf(before, last), ReceiptsOf(after, last), past, r);
      KeepNone(past, []);
    }
  }

  /** Agents without receipts add none. */
  lemma {:induction false} StrangersHaveNoReceipts(run: Run, agents: seq<string>, others: seq<string>, r: nat)
    requires forall i | 0 <= i < |others| :: others[i] !in run.receipts
    ensures ReceiptsAt(run, agents + others, r) == ReceiptsAt(run, agents, r)
  {
    if others == [] {
      assert agents + others == agents;
    } else {
      var init := others[..|others| - 1];
      StrangersHaveNoReceipts(run, agents, init, r);
      var all := agents + others;
      assert all[..|all| - 1] == agents + init && all[|all| - 1] == others[|others| - 1];
    }
  }

  lemma NewAgentsHaveNoReceipts(before: Run, after: Run)
    requires Later(before, after)
    ensures |before.agents| <= |after.agents|
    ensures var more := SlotIds(after.agents)[|before.agents|..];
            && SlotIds(after.agents) == SlotIds(before.agents) + more
            && forall i | 0 <= i < |more| :: more[i] !in before.receipts
  {
    var more := SlotIds(after.agents)[|before.agents|..];
    forall i | 0 <= i < |more| ensures more[i] !in before.receipts {
      assert more[i] == after.agents[|before.agents| + i].id;
    }
  }

  lemma AllReceiptsStable(before: Run, after: Run, r: nat)
    requires Later(before, after) && r <= |before.events|
    ensures ReceiptsAt(after, SlotIds(after.agents), r) == ReceiptsAt(before, SlotIds(before.agents), r)
  {
    NewAgentsHaveNoReceipts(before, after);
    var more := SlotIds(after.agents)[|before.agents|..];
    hide ReceiptsAt, Later, SlotIds;
    ReceiptsAtStable(before, after, SlotIds(after.agents), r);
    StrangersHaveNoReceipts(before, SlotIds(before.agents), more, r);
  }

  lemma {:induction false} EligibleTasksStable(before: Run, after: Run, agents: seq<string>, r: nat)
    requires Later(before, after) && r <= |before.events|
    ensures EligibleTasks(after, agents, r) == EligibleTasks(before, agents, r)
  {
    hide EligibleBy;
    if agents != [] {
      EligibleTasksStable(before, after, agents[..|agents| - 1], r);
      var last := agents[|agents| - 1];
      assert RecordsLater(before, after, last);
      EligibleByStable(|before.events|, EligibleOf(before, last), EligibleOf(after, last), r);
      NothingEligible(r);
    }
  }

  lemma NothingEligible(r: nat)
    ensures EligibleBy([], r) == []
  {
  }

  lemma FirstIssuedStable(length: nat, before: seq<Receipt>, after: seq<Receipt>, resourceId: string, r: nat)
    requires ReceiptsLater(length, before, after) && r <= length
    ensures FirstIssued(after, resourceId, r) == FirstIssued(before, resourceId, r)
  {
    ReceiptFilterStable(length, before, after,
                        (x: Receipt) => x.base.disclosed.resourceId == resourceId && x.base.issuedRunSeq <= r, r);
  }

  lemma {:induction false} EligibleItemsStable(before: Run, after: Run, agents: seq<string>, r: nat)
    requires Later(before, after) && SameKeys(before) && r <= |before.events|
    ensures EligibleItems(after, agents, r) == EligibleItems(before, agents, r)
  {
    hide EligibleBy, FirstIssued, RecordsLater, AgentsLater, KnowledgeLater;
    if agents != [] {
      EligibleItemsStable(before, after, agents[..|agents| - 1], r);
      AgentItemsStable(before, after, agents[|agents| - 1], r);
    }
  }

  /** What one agent may receive, as the projection lists it. */
  function AgentItems(run: Run, agent: string, r: nat): seq<EligibleItem>
  {
    if agent in run.eligible && agent in run.receipts then ItemsOf(run, agent, EligibleBy(run.eligible[agent], r), r) else []
  }

  lemma AgentItemsStable(before: Run, after: Run, agent: string, r: nat)
    requires RecordsLater(before, after, agent) && SameKeys(before) && r <= |before.events|
    requires after.info.virtualTime == before.info.virtualTime
    ensures AgentItems(after, agent, r) == AgentItems(before, agent, r)
  {
    hide EligibleBy, FirstIssued;
    EligibleByStable(|before.events|, EligibleOf(before, agent), EligibleOf(after, agent), r);
    NothingEligible(r);
    if agent in before.eligible {
      var disclosures := EligibleBy(before.eligible[agent], r);
      forall i | 0 <= i < |disclosures|
        ensures ItemsOf(after, agent, disclosures, r)[i] == ItemsOf(before, agent, disclosures, r)[i]
      {
        FirstIssuedStable(|before.events|, before.receipts[agent], after.receipts[agent], disclosures[i].resourceId, r);
      }
    }
  }

  /** Whether an old event shows cannot change: what it is about was stored with it, and feedback
      stored later has an identifier no old event mentions. */
  lemma EventVisibleStable(h: Hashing, before: Run, after: Run, q: Query, agents: seq<string>, receipts: seq<Receipt>, i: nat)
    requires Consistent(h, before) && Later(before, after) && i < |before.events|
    ensures EventVisible(after.messages, after.artifacts, after.feedback, q, agents, receipts, before.events[i])
         == EventVisible(before.messages, before.artifacts, before.feedback, q, agents, receipts, before.events[i])
  {
    hide AgentsConsistent, SubmissionsConsistent, EventsChained, Disclosing;
    assert StreamKnown(before.messages, before.artifacts, before.drawn, before.events[i].base.input);
  }

  lemma VisibleEventsStable(h: Hashing, before: Run, after: Run, q: Query, agents: seq<string>, receipts: seq<Receipt>, r: nat)
    requires Consistent(h, before) && Later(before, after) && r <= |before.events|
    ensures VisibleEvents(after, q, agents, receipts, r) == VisibleEvents(before, q, agents, receipts, r)
  {
    hide AgentsConsistent, SubmissionsConsistent, EventVisible, Keep, EventsAt;
    EventsAtStable(before, after, r);
    EventsAtIsPrefix(h, before, r);
    var all := EventsAt(before, r);
    var p := (e: Event) => EventVisible(after.messages, after.artifacts, after.feedback, q, agents, receipts, e);
    var p' := (e: Event) => EventVisible(before.messages, before.artifacts, before.feedback, q, agents, receipts, e);
    forall i | 0 <= i < |all| ensures p(all[i]) == p'(all[i]) {
      EventVisibleStable(h, before, after, q, agents, receipts, i);
    }
    KeepAgrees(p, p', all);
  }

  lemma HeadsStable(before: Run, after: Run, q: Query, agents: seq<string>, r: nat)
    requires Later(before, after) && SameKeys(before) && r <= |before.events|
    ensures (map a | a in agents :: HeadOf(AgentReceiptsAt(after, q, a, r)))
         == (map a | a in agents :: HeadOf(AgentReceiptsAt(before, q, a, r)))
  {
    hide AgentReceiptsAt, RecordsLater;
    forall a | a in agents ensures AgentReceiptsAt(after, q, a, r) == AgentReceiptsAt(before, q, a, r) {
      AgentReceiptsStable(before, after, q, a, r);
    }
  }

  lemma AgentsStable(before: Run, after: Run, agents: seq<string>, r: nat)
    requires AgentsLater(before, after) && r <= |before.events|
    ensures Keep((a: AgentSlot) => a.joinedRunSeq <= r && a.id in agents, after.agents)
         == Keep((a: AgentSlot) => a.joinedRunSeq <= r && a.id in agents, before.agents)
    ensures Keep((x: RoleAssignment) => x.assignedRunSeq <= r && x.runAgentId in agents, after.roleAssignments)
         == Keep((x: RoleAssignment) => x.assignedRunSeq <= r && x.runAgentId in agents, before.roleAssignments)
  {
    KeepOfGrown((a: AgentSlot) => a.joinedRunSeq <= |before.events|,
                (a: AgentSlot) => a.joinedRunSeq <= r && a.id in agents, before.agents, after.agents);
    KeepOfGrown((x: RoleAssignment) => x.assignedRunSeq <= |before.events|,
                (x: RoleAssignment) => x.assignedRunSeq <= r && x.runAgentId in agents,
                before.roleAssignments, after.roleAssignments);
  }

  /** A forming run has no record of having started. */
  ghost predicate Formed(run: Run)
  {
    run.info.state == Forming ==> !StartedBy(run.events)
  }

  lemma DescriptionStable(before: Run, after: Run, r: nat)
    requires Formed(before) && InfoLater(before, after)
    ensures (if StartedBy(EventsAt(before, r)) then after.info else after.initial)
         == (if StartedBy(EventsAt(before, r)) then before.info else before.initial)
  {
    if StartedBy(EventsAt(before, r)) {
      var i :| 0 <= i < |EventsAt(before, r)| && EventsAt(before, r)[i].base.input.eventType == "run.started";
      KeepMembers((e: Event) => e.base.runSeq <= r, before.events, EventsAt(before, r)[i]);
    }
  }

  /** What is later does not show in a projection of the past for the same visible agents. */
  lemma ReplayStable(h: Hashing, before: Run, after: Run, q: Query, r: nat)
    requires Consistent(h, before) && Formed(before) && Later(before, after) && r <= |before.events|
    requires VisibleAgents(after, q) == VisibleAgents(before, q)
    ensures ReplayAt(h, after, q, r) == ReplayAt(h, before, q, r)
  {
    hide LogConsistent, SubmissionsConsistent, AgentConsistent, EventsAt, VisibleReceipts, ReceiptsAt, EligibleTasks, EligibleItems;
    hide VisibleEvents, AgentReceiptsAt, EventsVerify, ReceiptsVerify, Latest, Keep, Listed, Snapshots, StartedBy, VisibleAgents;
    hide AgentsLater, RecordsLater, EventsLater, KnowledgeLater;
    var agents := VisibleAgents(before, q);
    EventsAtStable(before, after, r);
    DescriptionStable(before, after, r);
    AgentsStable(before, after, agents, r);
    VisibleReceiptsStable(before, after, q, agents, r);
    AllReceiptsStable(before, after, r);
    EligibleTasksStable(before, after, agents, r);
    EligibleItemsStable(before, after, agents, r);
    VisibleEventsStable(h, before, after, q, agents, VisibleReceipts(before, q, agents, r), r);
    HeadsStable(before, after, q, agents, r);
  }

  // --- Who is visible -------------------------------------------------------------------------------------

  /** Whether a command is a join that a query shows: to the operator every one, to a role that of its
      agents, to an agent its own. */
  predicate Shows(q: Query, op: Op)
  {
    op.Join?
    && match q.perspective
       case Operator => true
       case OfAgent(id) => op.slotId == id
       case OfRole(role) => op.roleSlotId == role
  }

  ghost predicate ShowsNone(q: Query, ops: seq<Op>)
  {
    forall i | 0 <= i < |ops| :: !Shows(q, ops[i])
  }

  lemma {:induction false} EligibilityKeepsAgents(run: Run, recipients: seq<string>, d: Disclosure)
    ensures AddEligibleToAll(run, recipients, d).agents == run.agents
  {
    if recipients != [] { EligibilityKeepsAgents(run, recipients[..|recipients| - 1], d); }
  }

  lemma {:induction false} IssuingKeepsAgents(h: Hashing, run: Run, agent: string, selected: seq<Disclosure>, n: nat, draws: SyncDraws)
    requires agent in run.receipts && n <= |selected|
    ensures IssueUpTo(h, run, agent, selected, n, draws).agents == run.agents
  {
    if n > 0 { IssuingKeepsAgents(h, run, agent, selected, n - 1, draws); }
  }

  lemma PublishingKeepsAgents(h: Hashing, run: Run, input: EventInput, resource: Resource, recipients: seq<string>, draw: Draw)
    ensures Publish(h, run, input, resource, recipients, draw).agents == run.agents
  {
    EligibilityKeepsAgents(Register(AppendRunEvent(h, run, input, draw), resource), recipients,
                           DisclosureOf(h, resource, NewEvent(h, run, input, draw)));
  }

  lemma SyncKeepsAgents(h: Hashing, run: Run, agent: string, after: nat, ack: Option<Ack>, maxItems: nat, draws: SyncDraws)
    requires HasRecord(run, agent) && Sync(h, run, agent, after, ack, maxItems, draws).Ok?
    ensures Sync(h, run, agent, after, ack, maxItems, draws).value.0.agents == run.agents
  {
    hide Pending, IssueUpTo;
    var acknowledged := if ack.Some? then Acknowledge(h, run, agent, ack.value, draws.ack).value else run;
    var selected := Selected(Pending(acknowledged, agent), maxItems);
    IssuingKeepsAgents(h, acknowledged, agent, selected, |selected|, draws);
  }

  /** Only joining adds agents. */
  lemma OnlyJoiningAddsAgents(h: Hashing, run: Run, op: Op)
    ensures Apply(h, run, op).agents
         == run.agents + (if op.Join? then [AgentSlot(op.slotId, op.roleSlotId, |run.events| + 1)] else [])
  {
    hide Sync, Publish, ReferencesHold;
    match op
    case PublishResource(input, resource, recipients, draw) => PublishingKeepsAgents(h, run, input, resource, recipients, draw);
    case Submit(agent, id, revisionNo, body, _, _, recipients, draw) =>
      PublishingKeepsAgents(h, run, SubmissionInput(agent, id, body), SubmissionResource(id, revisionNo, body), [agent] + recipients, draw);
    case Synchronise(agent, after, ack, maxItems, draws) =>
      if HasRecord(run, agent) && Sync(h, run, agent, after, ack, maxItems, draws).Ok? {
        SyncKeepsAgents(h, run, agent, after, ack, maxItems, draws);
      }
    case _ =>
  }

  /** A command that is not a shown join leaves the view as it is. */
  lemma ViewStays(h: Hashing, run: Run, op: Op, q: Query)
    requires !Shows(q, op)
    ensures VisibleAgents(Apply(h, run, op), q) == VisibleAgents(run, q)
    ensures SubjectKnown(Apply(h, run, op), q) == SubjectKnown(run, q)
  {
    OnlyJoiningAddsAgents(h, run, op);
    hide Apply;
    var after := Apply(h, run, op);
    if op.Join? {
      var slot := AgentSlot(op.slotId, op.roleSlotId, |run.events| + 1);
      assert SlotIds(after.agents) == SlotIds(run.agents) + [op.slotId];
      if q.perspective.OfRole? {
        var ofRole := (a: AgentSlot) => a.roleSlotId == q.perspective.roleSlotId;
        KeepAppend(ofRole, run.agents, [slot]);
        KeepNone(ofRole, [slot]);
      }
    } else {
      assert after.agents == run.agents;
    }
  }

  lemma {:induction false} HistoryKeepsView(h: Hashing, run: Run, ops: seq<Op>, q: Query)
    requires ShowsNone(q, ops)
    ensures VisibleAgents(ApplyAll(h, run, ops), q) == VisibleAgents(run, q)
    ensures SubjectKnown(ApplyAll(h, run, ops), q) == SubjectKnown(run, q)
    decreases |ops|
  {
    hide Apply, VisibleAgents, SubjectKnown, Shows;
    if ops != [] {
      ViewStays(h, run, ops[0], q);
      HistoryKeepsView(h, Apply(h, run, ops[0]), ops[1..], q);
    }
  }

  // --- What every history keeps -----------------------------------------------------------------------------

  /** Agents have joined with distinct ids, each with its own record. */
  ghost predicate JoinedOnce(run: Run)
  {
    Distinct(SlotIds(run.agents)) && forall i | 0 <= i < |run.agents| :: run.agents[i].id in run.eligible
  }

  lemma ApplyKeepsJoinedOnce(h: Hashing, run: Run, op: Op)
    requires Consistent(h, run) && JoinedOnce(run) && Legal(run, op)
    ensures JoinedOnce(Apply(h, run, op))
  {
    hide Consistent, Apply, NewResource;
    ApplyIsLater(h, run, op);
    OnlyJoiningAddsAgents(h, run, op);
    var after := Apply(h, run, op);
    forall i | 0 <= i < |run.agents| ensures run.agents[i].id in after.eligible {
      assert RecordsLater(run, after, run.agents[i].id);
    }
    hide Later;
    if op.Join? {
      JoinedHasRecord(h, run, op);
      assert SlotIds(after.agents) == SlotIds(run.agents) + [op.slotId];
      forall i | 0 <= i < |run.agents| ensures SlotIds(run.agents)[i] != op.slotId {
        assert run.agents[i].id in run.eligible;
      }
    } else {
      assert after.agents == run.agents;
    }
  }

  lemma JoinedHasRecord(h: Hashing, run: Run, op: Op)
    requires op.Join?
    ensures op.slotId in Apply(h, run, op).eligible
  {
  }

  lemma NoSyncBeforeStart(h: Hashing, run: Run, op: Op)
    requires op.Synchronise? && run.info.state != Running
    ensures Apply(h, run, op) == run
  {
  }

  lemma ApplyKeepsFormed(h: Hashing, run: Run, op: Op)
    requires Consistent(h, run) && Formed(run) && Legal(run, op)
    ensures Formed(Apply(h, run, op))
  {
    if run.info.state == Running {
      ApplyIsLater(h, run, op);
    } else if op.Synchronise? {
      NoSyncBeforeStart(h, run, op);
    }
    hide Consistent, Sync, Publish, NewResource, ReferencesHold, AgentsLater, RecordsLater, EventsLater, KnowledgeLater;
  }

  lemma {:induction false} HistoryKeepsForm(h: Hashing, run: Run, ops: seq<Op>)
    requires Consistent(h, run) && JoinedOnce(run) && Formed(run) && AllLegal(h, run, ops)
    ensures var after := ApplyAll(h, run, ops); Consistent(h, after) && JoinedOnce(after) && Formed(after)
    decreases |ops|
  {
    hide Consistent, Legal, Apply, JoinedOnce, Formed;
    if ops != [] {
      ApplyKeeps(h, run, ops[0]);
      ApplyKeepsJoinedOnce(h, run, ops[0]);
      ApplyKeepsFormed(h, run, ops[0]);
      HistoryKeepsForm(h, Apply(h, run, ops[0]), ops[1..]);
    }
  }

  /** Every replay of every reachable state is marked as verified, at every cut. */
  lemma EveryReplayVerifies(h: Hashing, run: Run, ops: seq<Op>, q: Query, r: nat)
    requires Consistent(h, run) && JoinedOnce(run) && Formed(run) && AllLegal(h, run, ops)
    requires r <= |ApplyAll(h, run, ops).events|
    ensures ReplayAt(h, ApplyAll(h, run, ops), q, r).verified
  {
    hide Consistent, AllLegal, ApplyAll, EventsVerify, ReceiptsVerify;
    HistoryKeepsForm(h, run, ops);
    EventVerifierAccepts(h, ApplyAll(h, run, ops), r);
    ReceiptVerifierAccepts(h, ApplyAll(h, run, ops), SlotIds(ApplyAll(h, run, ops).agents), r);
  }

  // --- When the past changes ----------------------------------------------------------------------------------

  /** An agent that joins is in the run from then on, and was not before. */
  lemma {:induction false} JoinedAgentStays(h: Hashing, run: Run, ops: seq<Op>, k: nat) returns (j: nat)
    requires Consistent(h, run) && AllLegal(h, run, ops) && k < |ops| && ops[k].Join?
    ensures var agents := ApplyAll(h, run, ops).agents;
      j < |agents| && agents[j].id == ops[k].slotId && agents[j].roleSlotId == ops[k].roleSlotId
    ensures ops[k].slotId !in run.eligible
    decreases |ops|
  {
    hide Consistent, Apply, Later;
    var next := Apply(h, run, ops[0]);
    ApplyKeeps(h, run, ops[0]);
    if k == 0 {
      OnlyJoiningAddsAgents(h, run, ops[0]);
      HistoryIsLater(h, next, ops[1..]);
      LaterAgents(next, ApplyAll(h, run, ops));
      j := |run.agents|;
    } else {
      hide Legal;
      j := JoinedAgentStays(h, next, ops[1..], k - 1);
      ApplyIsLater(h, run, ops[0]);
      LaterRecords(run, next, ops[k].slotId);
    }
  }

  lemma LaterAgents(before: Run, after: Run)
    requires Later(before, after)
    ensures before.agents <= after.agents
  {
  }

  lemma LaterRecords(before: Run, after: Run, a: string)
    requires Later(before, after)
    ensures a in before.eligible ==> a in after.eligible
  {
    assert RecordsLater(before, after, a);
  }

  lemma VisibleAgentsAreAgents(run: Run, q: Query, a: string)
    requires !q.perspective.OfAgent? && a in VisibleAgents(run, q)
    ensures a in SlotIds(run.agents)
  {
    if q.perspective.OfRole? {
      var ofRole := (x: AgentSlot) => x.roleSlotId == q.perspective.roleSlotId;
      var kept := Keep(ofRole, run.agents);
      var i :| 0 <= i < |kept| && kept[i].id == a;
      KeepMembers(ofRole, run.agents, kept[i]);
      var j :| 0 <= j < |run.agents| && run.agents[j] == kept[i];
      assert SlotIds(run.agents)[j] == a;
    }
  }

  lemma ShownAgentIsVisible(run: Run, q: Query, j: nat, op: Op)
    requires j < |run.agents| && Shows(q, op) && run.agents[j].id == op.slotId && run.agents[j].roleSlotId == op.roleSlotId
    ensures op.slotId in VisibleAgents(run, q) && SubjectKnown(run, q)
  {
    assert SlotIds(run.agents)[j] == op.slotId;
    if q.perspective.OfRole? {
      var ofRole := (x: AgentSlot) => x.roleSlotId == q.perspective.roleSlotId;
      KeepMembers(ofRole, run.agents, run.agents[j]);
      var kept := Keep(ofRole, run.agents);
      var i :| 0 <= i < |kept| && kept[i] == run.agents[j];
      assert SlotIds(kept)[i] == op.slotId;
    }
  }

  /** A join that the query shows changes what the query answers about every earlier moment. */
  lemma ShownJoinChangesThePast(h: Hashing, run: Run, ops: seq<Op>, k: nat, q: Query, r: nat)
    requires Consistent(h, run) && JoinedOnce(run) && AllLegal(h, run, ops) && k < |ops| && Shows(q, ops[k])
    ensures Replay(h, ApplyAll(h, run, ops), q, r) != Replay(h, run, q, r)
  {
    hide Consistent, AllLegal, ApplyAll, VisibleAgents, AgentReceiptsAt, EventsVerify, ReceiptsVerify;
    var after, slot := ApplyAll(h, run, ops), ops[k].slotId;
    var j := JoinedAgentStays(h, run, ops, k);
    ShownAgentIsVisible(after, q, j, ops[k]);
    assert slot !in SlotIds(run.agents);
    if !q.perspective.OfAgent? {
      if slot in VisibleAgents(run, q) { VisibleAgentsAreAgents(run, q, slot); }
      assert slot in ReplayAt(h, after, q, r).receiptChainHeads;
      assert slot !in ReplayAt(h, run, q, r).receiptChainHeads;
    }
  }

  /** Exactly when the past changes: the answer to a replay of any moment that a run has reached, under the
      operator, agent and role perspectives and every delivery semantics, is the same after any commands
      if and only if none of them is a join that the query shows. */
  lemma PastChangesIffShownJoin(h: Hashing, run: Run, ops: seq<Op>, q: Query, r: nat)
    requires Consistent(h, run) && JoinedOnce(run) && Formed(run) && AllLegal(h, run, ops)
    requires r <= |run.events|
    ensures Replay(h, ApplyAll(h, run, ops), q, r) == Replay(h, run, q, r) <==> ShowsNone(q, ops)
  {
    hide Consistent, AllLegal, ApplyAll, ReplayAt, Later, JoinedOnce, Formed, VisibleAgents, Shows;
    if ShowsNone(q, ops) {
      HistoryIsLater(h, run, ops);
      HistoryKeepsView(h, run, ops, q);
      ReplayStable(h, run, ApplyAll(h, run, ops), q, r);
    } else {
      var k :| 0 <= k < |ops| && Shows(q, ops[k]);
      ShownJoinChangesThePast(h, run, ops, k, q, r);
    }
  }

  lemma CreatedIsFormed(h: Hashing, id: string, scenarioVersionHash: string, info: Info, actorId: string, draw: Draw)
    ensures JoinedOnce(Created(h, id, scenarioVersionHash, info, actorId, draw))
    ensures Formed(Created(h, id, scenarioVersionHash, info, actorId, draw))
  {
  }

  /** The same for every run reachable from its creation. */
  lemma ReachablePastChangesIffShownJoin(h: Hashing, id: string, scenarioVersionHash: string, info: Info, actorId: string,
                                         draw: Draw, history: seq<Op>, ops: seq<Op>, q: Query, r: nat)
    requires var created := Created(h, id, scenarioVersionHash, info, actorId, draw);
      AllLegal(h, created, history) && AllLegal(h, ApplyAll(h, created, history), ops)
      && r <= |ApplyAll(h, created, history).events|
    ensures var run := ApplyAll(h, Created(h, id, scenarioVersionHash, info, actorId, draw), history);
      Replay(h, ApplyAll(h, run, ops), q, r) == Replay(h, run, q, r) <==> ShowsNone(q, ops)
  {
    hide Consistent, AllLegal, ApplyAll, Replay, JoinedOnce, Formed, ShowsNone;
    var created := Created(h, id, scenarioVersionHash, info, actorId, draw);
    CreatedIsConsistent(h, id, scenarioVersionHash, info, actorId, draw);
    CreatedIsFormed(h, id, scenarioVersionHash, info, actorId, draw);
    hide Created;
    HistoryKeepsForm(h, created, history);
    PastChangesIffShownJoin(h, ApplyAll(h, created, history), ops, q, r);
  }

  /** Nobody joins a started run. */
  lemma {:induction false} NoJoinOnceStarted(h: Hashing, run: Run, ops: seq<Op>)
    requires Consistent(h, run) && run.info.state == Running && AllLegal(h, run, ops)
    ensures forall i | 0 <= i < |ops| :: !ops[i].Join?
    decreases |ops|
  {
    hide Consistent, Apply, NewResource;
    if ops != [] {
      ApplyKeeps(h, run, ops[0]);
      ApplyIsLater(h, run, ops[0]);
      NoJoinOnceStarted(h, Apply(h, run, ops[0]), ops[1..]);
    }
  }

  /** So the past of a started run never changes: the replay of any moment it has reached is the same in
      every later state, whatever commands follow. */
  lemma PastNeverChanges(h: Hashing, run: Run, ops: seq<Op>, q: Query, r: nat)
    requires Consistent(h, run) && run.info.state == Running && AllLegal(h, run, ops)
    requires r <= |run.events|
    ensures Replay(h, ApplyAll(h, run, ops), q, r) == Replay(h, run, q, r)
  {
    hide Consistent, AllLegal, ApplyAll, ReplayAt, Later, VisibleAgents;
    NoJoinOnceStarted(h, run, ops);
    HistoryIsLater(h, run, ops);
    HistoryKeepsView(h, run, ops, q);
    ReplayStable(h, run, ApplyAll(h, run, ops), q, r);
  }

  /** A forming run and a join after which the operator's replay of an earlier moment is another. */
  lemma JoiningChangesTheFormingPast(h: Hashing)
    ensures var run := Created(h, "run", "hash", Info(Forming, 1, 0, None), "operator", Draw("e1", 0));
            var join := Join("agent", "role", "assignment", "operator", Draw("e2", 1));
            && Consistent(h, run) && Legal(run, join)
            && Replay(h, Apply(h, run, join), Query(Operator, IssuedView), 1)
               != Replay(h, run, Query(Operator, IssuedView), 1)
  {
    var info := Info(Forming, 1, 0, None);
    var run := Created(h, "run", "hash", info, "operator", Draw("e1", 0));
    var join := Join("agent", "role", "assignment", "operator", Draw("e2", 1));
    CreatedIsConsistent(h, "run", "hash", info, "operator", Draw("e1", 0));
    CreatedIsFormed(h, "run", "hash", info, "operator", Draw("e1", 0));
    hide Replay, Consistent;
    ShownJoinChangesThePast(h, run, [join], 0, Query(Operator, IssuedView), 1);
    assert ApplyAll(h, run, [join]) == Apply(h, run, join) by { OneCommand(h, run, join); }
  }

  lemma OneCommand(h: Hashing, run: Run, op: Op)
    ensures ApplyAll(h, run, [op]) == Apply(h, run, op)
  {
    hide Apply;
    assert [op][1..] == [];
    assert ApplyAll(h, Apply(h, run, op), []) == Apply(h, run, op);
  }
}
