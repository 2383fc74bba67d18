/** Replaying a run as of any past moment. */
module RunReplay {
  import opened Outcomes
  import opened Sequences
  import opened RunLog
  import opened RunInvariant
  import opened RunHistory
  import Order

  // --- What a replay shows -----------------------------------------------------------------------

  datatype Perspective = Operator | OfAgent(agentId: string) | OfRole(roleSlotId: string)

  datatype Semantics = EligibleView | IssuedView | AcknowledgedView

  datatype Query = Query(perspective: Perspective, semantics: Semantics)

  datatype EligibleItem = EligibleItem(agent: string, kind: Kind, resourceId: string, resourceVersion: string,
                                       sourceRunSeq: nat, availableVirtualAt: int, issuedReceiptSeq: Option<nat>)

  datatype Projection = Projection(info: Info, agents: seq<AgentSlot>, roleAssignments: seq<RoleAssignment>,
                                   tasks: seq<Task>, events: seq<Event>, receipts: seq<Receipt>,
                                   eligible: seq<EligibleItem>, atRunSeq: nat, scenarioVersionHash: string,
                                   eventChainHead: string, receiptChainHeads: map<string, string>, verified: bool)

  datatype ReplayError = RunAgentNotFound

  function SlotIds(agents: seq<AgentSlot>): seq<string>
  {
    seq(|agents|, i requires 0 <= i < |agents| => agents[i].id)
  }

  /** The agents whose view is replayed, in the order they joined. */
  function VisibleAgents(run: Run, q: Query): seq<string>
  {
    match q.perspective
    case Operator => SlotIds(run.agents)
    case OfAgent(id) => [id]
    case OfRole(role) => SlotIds(Keep((a: AgentSlot) => a.roleSlotId == role, run.agents))
  }

  /** The last receipt an agent had acknowledged by `r`. */
  function AcknowledgedThrough(acknowledgements: seq<Acknowledgement>, r: nat): nat
  {
    var past := Keep((a: Acknowledgement) => a.acknowledgedRunSeq <= r, acknowledgements);
    if past == [] then 0 else past[|past| - 1].throughReceiptSeq
  }

  function AgentReceiptsAt(run: Run, q: Query, agent: string, r: nat): seq<Receipt>
  {
    if agent !in run.receipts || agent !in run.acknowledgements then []
    else
      var through := AcknowledgedThrough(run.acknowledgements[agent], r);
      Keep((x: Receipt) => x.base.issuedRunSeq <= r
                           && (q.semantics.AcknowledgedView? ==> x.base.agentReceiptSeq <= through),
           run.receipts[agent])
  }

  function VisibleReceipts(run: Run, q: Query, agents: seq<string>, r: nat): seq<Receipt>
  {
    if agents == [] then []
    else VisibleReceipts(run, q, agents[..|agents| - 1], r) + AgentReceiptsAt(run, q, agents[|agents| - 1], r)
  }

  predicate Disclosing(receipts: seq<Receipt>, kind: Kind, eventId: string)
  {
    exists i | 0 <= i < |receipts| ::
      receipts[i].base.disclosed.kind == kind && receipts[i].base.disclosed.sourceEventId == eventId
  }

  /** Whether an event shows under the perspective, given the receipts that show. */
  predicate EventVisible(messages: set<string>, artifacts: set<string>, feedback: set<string>, q: Query,
                         agents: seq<string>, receipts: seq<Receipt>, e: Event)
  {
    var input := e.base.input;
    var own := input.actorIsRunAgent && input.actorId in agents;
    var addressed := input.payloadRunAgentId.Some? && input.payloadRunAgentId.value in agents;
    q.perspective.Operator?
    || match input.stream
       case RunStream => true
       case RunAgentStream => input.streamId in agents
       case EvaluationStream => false
       case BarrierStream => false
       case TaskStream => Disclosing(receipts, TaskKind, e.base.eventId)
       case MessageStream =>
         input.streamId in messages && (own || Disclosing(receipts, MessageKind, e.base.eventId))
       case FeedbackStream =>
         if input.streamId in feedback then Disclosing(receipts, FeedbackKind, e.base.eventId) else addressed
       case ArtifactStream =>
         input.streamId in artifacts && (own || Disclosing(receipts, ArtifactKind, e.base.eventId))
       case SubmissionStream => own || Disclosing(receipts, SubmissionKind, e.base.eventId)
       case _ => addressed || input.streamId in agents
  }

  function VisibleEvents(run: Run, q: Query, agents: seq<string>, receipts: seq<Receipt>, r: nat): seq<Event>
  {
    Keep((e: Event) => EventVisible(run.messages, run.artifacts, run.feedback, q, agents, receipts, e), EventsAt(run, r))
  }

  // --- Tasks ---------------------------------------------------------------------------------------

  /** A task snapshot and the run sequence number it is evidence of. */
  datatype TaskEvidence = TaskEvidence(task: Task, runSeq: nat)

  function DisclosedTasks(disclosures: seq<Disclosure>): seq<TaskEvidence>
  {
    if disclosures == [] then []
    else
      var d := disclosures[|disclosures| - 1];
      DisclosedTasks(disclosures[..|disclosures| - 1])
      + (if d.kind.TaskKind? && d.snapshot.TaskResource? then [TaskEvidence(d.snapshot.task, d.sourceRunSeq)] else [])
  }

  function ReceivedTasks(receipts: seq<Receipt>): seq<TaskEvidence>
  {
    if receipts == [] then []
    else
      var r := receipts[|receipts| - 1].base;
      ReceivedTasks(receipts[..|receipts| - 1])
      + (if r.disclosed.kind.TaskKind? && r.disclosed.snapshot.TaskResource?
         then [TaskEvidence(r.disclosed.snapshot.task, r.issuedRunSeq)] else [])
  }

  function EligibleTasks(run: Run, agents: seq<string>, r: nat): seq<TaskEvidence>
  {
    if agents == [] then []
    else
      var last := agents[|agents| - 1];
      EligibleTasks(run, agents[..|agents| - 1], r)
      + (if last in run.eligible then DisclosedTasks(EligibleBy(run.eligible[last], r)) else [])
  }

  function EligibleBy(disclosures: seq<Disclosure>, r: nat): seq<Disclosure>
  {
    Keep((d: Disclosure) => d.sourceRunSeq <= r, disclosures)
  }

  /** The latest snapshot of every task assigned to a visible agent; of equally late ones the first. */
  function Latest(evidence: seq<TaskEvidence>, agents: seq<string>): map<string, (Task, nat)>
  {
    if evidence == [] then map[]
    else
      var last := evidence[|evidence| - 1];
      var before := Latest(evidence[..|evidence| - 1], agents);
      if last.task.assignedRunAgentId !in agents then before
      else if last.task.id in before && last.runSeq <= before[last.task.id].1 then before
      else before[last.task.id := (last.task, last.runSeq)]
  }

  /** The tasks with a snapshot, in the order they were first met. */
  function FirstMet(evidence: seq<TaskEvidence>, agents: seq<string>): (ids: seq<string>)
    ensures forall i | 0 <= i < |ids| :: ids[i] in Latest(evidence, agents)
    ensures forall id :: id in ids <==> id in Latest(evidence, agents)
    ensures forall i, j | 0 <= i < j < |ids| :: ids[i] != ids[j]
  {
    if evidence == [] then []
    else
      var last := evidence[|evidence| - 1];
      var before := FirstMet(evidence[..|evidence| - 1], agents);
      if last.task.assignedRunAgentId in agents && last.task.id !in before then before + [last.task.id] else before
  }

  function Snapshots(evidence: seq<TaskEvidence>, agents: seq<string>): (tasks: seq<Task>)
    ensures |tasks| == |FirstMet(evidence, agents)|
    ensures forall i | 0 <= i < |tasks| :: tasks[i] == Latest(evidence, agents)[FirstMet(evidence, agents)[i]].0
  {
    var ids := FirstMet(evidence, agents);
    seq(|ids|, i requires 0 <= i < |ids| => Latest(evidence, agents)[ids[i]].0)
  }

  /** Tasks are listed by creation, then by id. */
  predicate Before(a: Task, b: Task)
  {
    a.createdRunSeq < b.createdRunSeq || (a.createdRunSeq == b.createdRunSeq && Order.Less(a.id, b.id))
  }

  function Place(t: Task, tasks: seq<Task>): seq<Task>
  {
    if tasks != [] && Before(tasks[0], t) then [tasks[0]] + Place(t, tasks[1..]) else [t] + tasks
  }

  /** The stable sort of tasks. */
  function Listed(tasks: seq<Task>): seq<Task>
  {
    if tasks == [] then [] else Place(tasks[0], Listed(tasks[1..]))
  }

  ghost predicate InOrder(tasks: seq<Task>)
  {
    forall i, j | 0 <= i < j < |tasks| :: !Before(tasks[j], tasks[i])
  }

  lemma BeforeIsTransitive(a: Task, b: Task, c: Task)
    requires Before(a, b) && !Before(c, b)
    ensures Before(a, c)
  {
    if a.createdRunSeq == b.createdRunSeq == c.createdRunSeq {
      Order.LessIsTotal(b.id, c.id);
      if Order.Less(b.id, c.id) { Order.LessIsTransitive(a.id, b.id, c.id); }
    }
  }

  lemma {:induction false} PlaceKeepsOrder(t: Task, tasks: seq<Task>)
    requires InOrder(tasks)
    ensures InOrder(Place(t, tasks)) && multiset(Place(t, tasks)) == multiset(tasks) + multiset{t}
  {
    if tasks != [] {
      assert tasks == [tasks[0]] + tasks[1..];
      if Before(tasks[0], t) {
        PlaceKeepsOrder(t, tasks[1..]);
        var rest := Place(t, tasks[1..]);
        forall j | 0 <= j < |rest| ensures !Before(rest[j], tasks[0]) {
          assert rest[j] in multiset(rest);
          assert rest[j] == t || rest[j] in tasks[1..];
          if rest[j] == t && Before(t, tasks[0]) { NotBoth(t, tasks[0]); }
        }
      } else {
        forall j | 0 <= j < |tasks| ensures !Before(tasks[j], t) {
          if Before(tasks[j], t) && j > 0 { BeforeIsTransitive(tasks[j], t, tasks[0]); }
        }
      }
    }
  }

  lemma NotBoth(a: Task, b: Task)
    ensures !(Before(a, b) && Before(b, a))
  {
    if a.createdRunSeq == b.createdRunSeq && Order.Less(a.id, b.id) { Order.LessIsAsymmetric(a.id, b.id); }
  }

  /** Listing puts the same tasks in order. */
  lemma {:induction false} ListedIsInOrder(tasks: seq<Task>)
    ensures InOrder(Listed(tasks)) && multiset(Listed(tasks)) == multiset(tasks)
  {
    if tasks != [] {
      ListedIsInOrder(tasks[1..]);
      PlaceKeepsOrder(tasks[0], Listed(tasks[1..]));
      assert tasks == [tasks[0]] + tasks[1..];
    }
  }

  function TasksAt(run: Run, q: Query, agents: seq<string>, receipts: seq<Receipt>, r: nat): seq<Task>
  {
    Listed(Snapshots(if q.perspective.Operator? then EligibleTasks(run, agents, r) else ReceivedTasks(receipts), agents))
  }

  /** The loop that gathers the latest snapshots, and their listing. */
  method ReplayTasks(evidence: seq<TaskEvidence>, agents: seq<string>) returns (tasks: seq<Task>)
    ensures tasks == Listed(Snapshots(evidence, agents))
    ensures InOrder(tasks) && multiset(tasks) == multiset(Snapshots(evidence, agents))
  {
    hide Latest, FirstMet;
    var snapshots: map<string, (Task, nat)> := map[];
    var met: seq<string> := [];
    NothingMet(agents);
    var i := 0;
    while i < |evidence|
      invariant 0 <= i <= |evidence| && snapshots == Latest(evidence[..i], agents) && met == FirstMet(evidence[..i], agents)
    {
      var parsed := evidence[i];
      assert evidence[..i + 1] == evidence[..i] + [parsed];
      MeetOne(evidence[..i], parsed, agents);
      if parsed.task.assignedRunAgentId in agents {
        if parsed.task.id !in snapshots { met := met + [parsed.task.id]; }
        if parsed.task.id !in snapshots || parsed.runSeq > snapshots[parsed.task.id].1 {
          snapshots := snapshots[parsed.task.id := (parsed.task, parsed.runSeq)];
        }
      }
      i := i + 1;
    }
    assert evidence[..i] == evidence;
    var gathered := seq(|met|, k requires 0 <= k < |met| => snapshots[met[k]].0);
    assert gathered == Snapshots(evidence, agents);
    ListedIsInOrder(gathered);
    tasks := Listed(gathered);
  }

  lemma NothingMet(agents: seq<string>)
    ensures Latest([], agents) == map[] && FirstMet([], agents) == []
  {
  }

  lemma MeetOne(evidence: seq<TaskEvidence>, last: TaskEvidence, agents: seq<string>)
    ensures var before, met := Latest(evidence, agents), FirstMet(evidence, agents);
      && Latest(evidence + [last], agents)
         == (if last.task.assignedRunAgentId !in agents || (last.task.id in before && last.runSeq <= before[last.task.id].1)
             then before else before[last.task.id := (last.task, last.runSeq)])
      && FirstMet(evidence + [last], agents)
         == (if last.task.assignedRunAgentId in agents && last.task.id !in before then met + [last.task.id] else met)
  {
    assert (evidence + [last])[..|evidence|] == evidence;
  }

  /** A replayed task is one of the snapshots, and no visible snapshot of it is later. */
  lemma {:induction false} LatestIsLatest(evidence: seq<TaskEvidence>, agents: seq<string>, id: string)
    ensures id in Latest(evidence, agents) <==>
              exists i | 0 <= i < |evidence| :: evidence[i].task.id == id && evidence[i].task.assignedRunAgentId in agents
    ensures id in Latest(evidence, agents) ==>
              && TaskEvidence(Latest(evidence, agents)[id].0, Latest(evidence, agents)[id].1) in evidence
              && Latest(evidence, agents)[id].0.id == id
              && forall i | 0 <= i < |evidence| && evidence[i].task.id == id && evidence[i].task.assignedRunAgentId in agents ::
                   evidence[i].runSeq <= Latest(evidence, agents)[id].1
  {
    if evidence != [] {
      var init := evidence[..|evidence| - 1];
      LatestIsLatest(init, agents, id);
      assert forall i | 0 <= i < |init| :: init[i] == evidence[i];
      assert evidence == init + [evidence[|evidence| - 1]];
    }
  }

  // --- Eligible resources ----------------------------------------------------------------------------

  function FirstIssued(receipts: seq<Receipt>, resourceId: string, r: nat): Option<nat>
  {
    var matching := Keep((x: Receipt) => x.base.disclosed.resourceId == resourceId && x.base.issuedRunSeq <= r, receipts);
    if matching == [] then None else Some(matching[0].base.agentReceiptSeq)
  }

  function ItemsOf(run: Run, agent: string, disclosures: seq<Disclosure>, r: nat): seq<EligibleItem>
    requires agent in run.receipts
  {
    seq(|disclosures|, i requires 0 <= i < |disclosures| =>
      var d := disclosures[i];
      EligibleItem(agent, d.kind, d.resourceId, d.resourceVersion, d.sourceRunSeq, run.info.virtualTime,
                   FirstIssued(run.receipts[agent], d.resourceId, r)))
  }

  function EligibleItems(run: Run, agents: seq<string>, r: nat): seq<EligibleItem>
  {
    if agents == [] then []
    else
      var last := agents[|agents| - 1];
      EligibleItems(run, agents[..|agents| - 1], r)
      + (if last in run.eligible && last in run.receipts then ItemsOf(run, last, EligibleBy(run.eligible[last], r), r) else [])
  }

  // --- The projection --------------------------------------------------------------------------------

  function StartedBy(events: seq<Event>): bool
  {
    exists i | 0 <= i < |events| :: events[i].base.input.eventType == "run.started"
  }

  /** The authoritative projection at run sequence number `r`. */
  ghost function ReplayAt(h: Hashing, run: Run, q: Query, r: nat): Projection
  {
    var agents := VisibleAgents(run, q);
    var all := EventsAt(run, r);
    var receipts := VisibleReceipts(run, q, agents, r);
    Projection(
      if StartedBy(all) then run.info else run.initial,
      Keep((a: AgentSlot) => a.joinedRunSeq <= r && a.id in agents, run.agents),
      Keep((x: RoleAssignment) => x.assignedRunSeq <= r && x.runAgentId in agents, run.roleAssignments),
      TasksAt(run, q, agents, receipts, r),
      VisibleEvents(run, q, agents, receipts, r),
      receipts,
      if q.semantics.EligibleView? then EligibleItems(run, agents, r) else [],
      r,
      run.scenarioVersionHash,
      if all == [] then ZERO_HASH else all[|all| - 1].eventHash,
      map a | a in agents :: HeadOf(AgentReceiptsAt(run, q, a, r)),
      EventsVerify(h, all) && ReceiptsVerify(h, ReceiptsAt(run, SlotIds(run.agents), r)))
  }

  /** Whether the perspective is that of an agent of the run, where it is an agent's. */
  predicate SubjectKnown(run: Run, q: Query)
  {
    q.perspective.OfAgent? ==> q.perspective.agentId in SlotIds(run.agents)
  }

  /** The answer to a replay query: an agent's perspective needs that agent. */
  ghost function Replay(h: Hashing, run: Run, q: Query, r: nat): Result<Projection, ReplayError>
  {
    if SubjectKnown(run, q) then Ok(ReplayAt(h, run, q, r)) else Err(RunAgentNotFound)
  }
}
