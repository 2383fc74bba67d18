/**
 The record of an EXCON v2 run: the hash-chained event log, what each agent may receive, the
 hash-chained receipts it has been given, its acknowledgements, and the replay of any past moment.

 Hashes, identifiers and clock readings are parameters. Task, barrier and grant transitions are
 not modelled: a command is the events it appends and the resources it publishes.
 */
module RunLog {
  import opened Outcomes
  import opened Sequences
  import opened Digits

  const ZERO_HASH: string :=
    "sha256:0000000000000000000000000000000000000000000000000000000000000000"

  // --- Resources and events --------------------------------------------------------------------

  datatype Kind = TaskKind | MessageKind | ArtifactKind | FeedbackKind | SubmissionKind
  {
    function Text(): string
    {
      match this
      case TaskKind => "task"
      case MessageKind => "message"
      case ArtifactKind => "artifact"
      case FeedbackKind => "feedback"
      case SubmissionKind => "submission"
    }
  }

  datatype Task = Task(id: string, assignedRunAgentId: string, lockVersion: nat, createdRunSeq: nat, body: string)

  datatype Resource =
    | TaskResource(task: Task)
    | MessageResource(messageId: string, body: string)
    | ArtifactResource(artifactId: string, versionId: string, contentHash: string, body: string)
    | FeedbackResource(feedbackId: string, body: string)
    | SubmissionResource(submissionId: string, revisionNo: nat, body: string)
  {
    function Kind(): Kind
    {
      match this
      case TaskResource(_) => TaskKind
      case MessageResource(_, _) => MessageKind
      case ArtifactResource(_, _, _, _) => ArtifactKind
      case FeedbackResource(_, _) => FeedbackKind
      case SubmissionResource(_, _, _) => SubmissionKind
    }

    function Id(): string
    {
      match this
      case TaskResource(task) => task.id
      case MessageResource(id, _) => id
      case ArtifactResource(id, _, _, _) => id
      case FeedbackResource(id, _) => id
      case SubmissionResource(id, _, _) => id
    }

    function Version(): string
    {
      match this
      case TaskResource(task) => NatText(task.lockVersion)
      case ArtifactResource(_, versionId, _, _) => versionId
      case SubmissionResource(_, revisionNo, _) => NatText(revisionNo)
      case _ => "1"
    }
  }

  datatype Stream =
    | RunStream | RunAgentStream | TaskStream | BarrierStream | MessageStream | ArtifactStream | FeedbackStream
    | SubmissionStream | EvaluationStream | EndorsementStream | ReceiptStream

  datatype EventInput = EventInput(stream: Stream, streamId: string, eventType: string, actorIsRunAgent: bool,
                                   actorId: string, payloadRunAgentId: Option<string>, body: string)

  datatype EventBase = EventBase(eventId: string, runId: string, runSeq: nat, input: EventInput, virtualTime: int,
                                 recordedAt: int, payloadHash: string, previousHash: string)

  datatype Event = Event(base: EventBase, eventHash: string)

  datatype Disclosure = Disclosure(kind: Kind, resourceId: string, resourceVersion: string, sourceEventId: string,
                                   sourceRunSeq: nat, snapshot: Resource, contentHash: string)

  datatype ReceiptBase = ReceiptBase(id: string, runId: string, runAgentId: string, agentReceiptSeq: nat,
                                     deliveryBatchId: string, disclosed: Disclosure, issuedEventId: string,
                                     issuedRunSeq: nat, issuedVirtualAt: int, issuedAt: int, previousReceiptHash: string)

  datatype Receipt = Receipt(base: ReceiptBase, receiptHash: string)

  datatype Acknowledgement = Acknowledgement(throughReceiptSeq: nat, headHash: string, acknowledgedRunSeq: nat)

  datatype ReceiptRef = ReceiptRef(receiptId: string, receiptHash: string)

  datatype ArtifactRef = ArtifactRef(artifactId: string, artifactVersionId: string, contentHash: string)

  datatype Submission = Submission(actorRunAgentId: string, receiptRefs: seq<ReceiptRef>, artifactRefs: seq<ArtifactRef>,
                                   createdRunSeq: nat)

  datatype RunState = Forming | Running

  datatype Info = Info(state: RunState, version: nat, virtualTime: int, startedAt: Option<int>)

  datatype AgentSlot = AgentSlot(id: string, roleSlotId: string, joinedRunSeq: nat)

  datatype RoleAssignment = RoleAssignment(id: string, runAgentId: string, roleSlotId: string, assignedRunSeq: nat)

  /** SHA-256 of canonical JSON, by what is hashed. */
  datatype Hashing = Hashing(payload: EventInput -> string, event: EventBase -> string, receipt: ReceiptBase -> string,
                             resource: Resource -> string)

  /** Everything a run stores. `drawn` is the set of identifiers the id factory has handed out. */
  datatype Run = Run(
    id: string, scenarioVersionHash: string, initial: Info, info: Info,
    agents: seq<AgentSlot>, roleAssignments: seq<RoleAssignment>,
    messages: set<string>, artifacts: set<string>, feedback: set<string>, submissions: map<string, Submission>,
    eligible: map<string, seq<Disclosure>>,
    receipts: map<string, seq<Receipt>>,
    acknowledgements: map<string, seq<Acknowledgement>>,
    events: seq<Event>, eventHeadHash: string, drawn: set<string>)

  // --- Appending ---------------------------------------------------------------------------------

  /** What one appended event consumes from the environment. */
  datatype Draw = Draw(eventId: string, time: int)

  function NewEvent(h: Hashing, run: Run, input: EventInput, draw: Draw): Event
  {
    var base := EventBase(draw.eventId, run.id, |run.events| + 1, input, run.info.virtualTime, draw.time,
                          h.payload(input), run.eventHeadHash);
    Event(base, h.event(base))
  }

  function AppendRunEvent(h: Hashing, run: Run, input: EventInput, draw: Draw): Run
  {
    var event := NewEvent(h, run, input, draw);
    run.(events := run.events + [event], eventHeadHash := event.eventHash)
  }

  function DisclosureOf(h: Hashing, resource: Resource, event: Event): Disclosure
  {
    Disclosure(resource.Kind(), resource.Id(), resource.Version(), event.base.eventId, event.base.runSeq, resource,
               h.resource(resource))
  }

  function AddEligible(run: Run, agent: string, d: Disclosure): Run
  {
    if agent in run.eligible then run.(eligible := run.eligible[agent := run.eligible[agent] + [d]]) else run
  }

  function AddEligibleToAll(run: Run, recipients: seq<string>, d: Disclosure): Run
  {
    if recipients == [] then run
    else AddEligible(AddEligibleToAll(run, recipients[..|recipients| - 1], d), recipients[|recipients| - 1], d)
  }

  function Register(run: Run, resource: Resource): Run
  {
    match resource
    case TaskResource(task) => run.(drawn := run.drawn + {task.id})
    case MessageResource(id, _) => run.(messages := run.messages + {id}, drawn := run.drawn + {id})
    case ArtifactResource(id, versionId, _, _) =>
      run.(artifacts := run.artifacts + {id}, drawn := run.drawn + {id, versionId})
    case FeedbackResource(id, _) => run.(feedback := run.feedback + {id}, drawn := run.drawn + {id})
    case SubmissionResource(id, _, _) => run.(drawn := run.drawn + {id})
  }

  /** Appending an event about a resource, storing the resource and making it eligible. */
  function Publish(h: Hashing, run: Run, input: EventInput, resource: Resource, recipients: seq<string>, draw: Draw): Run
  {
    AddEligibleToAll(Register(AppendRunEvent(h, run, input, draw), resource), recipients,
                     DisclosureOf(h, resource, NewEvent(h, run, input, draw)))
  }

  // --- Synchronisation -----------------------------------------------------------------------------

  function Key(d: Disclosure): string
  {
    d.kind.Text() + ":" + d.resourceId + ":" + d.resourceVersion
  }

  datatype SyncError = StateConflict | CursorConflict | ChainConflict

  datatype Batch = Batch(deliveryBatchId: string, fromReceiptSeq: Option<nat>, throughReceiptSeq: nat,
                         receiptHeadHash: string, runCursor: nat, hasMore: bool, receipts: seq<Receipt>)

  datatype Ack = Ack(throughReceiptSeq: nat, headHash: string)

  /** What a synchronisation consumes from the environment. */
  datatype SyncDraws = SyncDraws(ack: Draw, deliveryBatchId: string, receiptIds: nat -> string, issuances: nat -> Draw,
                                 issuedAt: nat -> int)

  function HeadOf(receipts: seq<Receipt>): string
  {
    if receipts == [] then ZERO_HASH else receipts[|receipts| - 1].receiptHash
  }

  function AckInput(agent: string, ack: Ack): EventInput
  {
    EventInput(ReceiptStream, agent, "receipt.acknowledged", true, agent, None, ack.headHash)
  }

  function IssueInput(agent: string, receiptId: string, d: Disclosure): EventInput
  {
    EventInput(ReceiptStream, receiptId, "receipt.issued", false, "excon", Some(agent), d.kind.Text() + d.resourceId)
  }

  function Acknowledge(h: Hashing, run: Run, agent: string, ack: Ack, draw: Draw): (r: Result<Run, SyncError>)
    requires agent in run.receipts && agent in run.acknowledgements
    ensures r.Ok? ==> r.value.receipts == run.receipts && r.value.eligible == run.eligible
  {
    var receipts := run.receipts[agent];
    var acknowledgements := run.acknowledgements[agent];
    if ack.throughReceiptSeq == 0 || ack.throughReceiptSeq > |receipts|
       || receipts[ack.throughReceiptSeq - 1].receiptHash != ack.headHash
       || ack.throughReceiptSeq != |receipts| then Err(ChainConflict)
    else if acknowledgements != []
            && acknowledgements[|acknowledgements| - 1].throughReceiptSeq == ack.throughReceiptSeq
            && acknowledgements[|acknowledgements| - 1].headHash == ack.headHash then Ok(run)
    else
      var after := AppendRunEvent(h, run, AckInput(agent, ack), draw);
      Ok(after.(acknowledgements := after.acknowledgements[
        agent := acknowledgements + [Acknowledgement(ack.throughReceiptSeq, ack.headHash, |after.events|)]]))
  }

  /** Issuing one receipt: an event, then the receipt chained to the previous one. */
  function IssueOne(h: Hashing, run: Run, agent: string, d: Disclosure, batchId: string, receiptId: string, draw: Draw,
                    issuedAt: int): Run
    requires agent in run.receipts
  {
    var receipts := run.receipts[agent];
    var input := IssueInput(agent, receiptId, d);
    var event := NewEvent(h, run, input, draw);
    var base := ReceiptBase(receiptId, run.id, agent, |receipts| + 1, batchId, d, event.base.eventId, event.base.runSeq,
                            run.info.virtualTime, issuedAt, HeadOf(receipts));
    AppendRunEvent(h, run, input, draw).(receipts := run.receipts[agent := receipts + [Receipt(base, h.receipt(base))]])
  }

  /** Issuing the first `n` of the selected disclosures. */
  function IssueUpTo(h: Hashing, run: Run, agent: string, selected: seq<Disclosure>, n: nat, draws: SyncDraws): (after: Run)
    requires agent in run.receipts && n <= |selected|
    ensures agent in after.receipts && |after.receipts[agent]| == |run.receipts[agent]| + n
    ensures run.receipts[agent] <= after.receipts[agent]
  {
    if n == 0 then run
    else IssueOne(h, IssueUpTo(h, run, agent, selected, n - 1, draws), agent, selected[n - 1], draws.deliveryBatchId,
                  draws.receiptIds(n - 1), draws.issuances(n - 1), draws.issuedAt(n - 1))
  }

  predicate WasIssued(receipts: seq<Receipt>, key: string)
  {
    exists j | 0 <= j < |receipts| :: Key(receipts[j].base.disclosed) == key
  }

  function NotIssued(receipts: seq<Receipt>): Disclosure -> bool
  {
    (d: Disclosure) => !WasIssued(receipts, Key(d))
  }

  /** The eligible disclosures whose keys have not been issued. */
  function Pending(run: Run, agent: string): seq<Disclosure>
    requires agent in run.receipts && agent in run.eligible
  {
    Keep(NotIssued(run.receipts[agent]), run.eligible[agent])
  }

  predicate HasRecord(run: Run, agent: string)
  {
    agent in run.eligible && agent in run.receipts && agent in run.acknowledgements
  }

  function Sync(h: Hashing, run: Run, agent: string, after: nat, ack: Option<Ack>, maxItems: nat, draws: SyncDraws)
    : Result<(Run, Batch), SyncError>
    requires HasRecord(run, agent)
  {
    if run.info.state != Running then Err(StateConflict)
    else if after != |run.receipts[agent]| then Err(CursorConflict)
    else
      match (if ack.Some? then Acknowledge(h, run, agent, ack.value, draws.ack) else Ok(run))
      case Err(e) => Err(e)
      case Ok(acknowledged) =>
        var done := IssuePending(h, acknowledged, agent, maxItems, draws);
        var receipts := done.receipts[agent];
        Ok((done, Batch(draws.deliveryBatchId, if |receipts| == after then None else Some(after + 1), |receipts|,
                        HeadOf(receipts), |done.events|, maxItems < |Pending(acknowledged, agent)|, receipts[after..])))
  }

  /** Issuing the pending entries, at most `maxItems` of them. */
  function IssuePending(h: Hashing, run: Run, agent: string, maxItems: nat, draws: SyncDraws): (after: Run)
    requires agent in run.receipts && agent in run.eligible
    ensures agent in after.receipts && run.receipts[agent] <= after.receipts[agent]
  {
    var selected := Selected(Pending(run, agent), maxItems);
    IssueUpTo(h, run, agent, selected, |selected|, draws)
  }

  function Selected(pending: seq<Disclosure>, maxItems: nat): seq<Disclosure>
  {
    if |pending| <= maxItems then pending else pending[..maxItems]
  }

  // --- Submissions ---------------------------------------------------------------------------------

  /** The first receipt with the cited id has the cited hash. */
  predicate ReceiptRefHolds(receipts: seq<Receipt>, ref: ReceiptRef)
  {
    var matching := Keep((r: Receipt) => r.base.id == ref.receiptId, receipts);
    matching != [] && matching[0].receiptHash == ref.receiptHash
  }

  /** The first receipt for the cited artifact version carries the cited content. */
  predicate ArtifactRefHolds(receipts: seq<Receipt>, ref: ArtifactRef)
  {
    var matching := Keep((r: Receipt) => r.base.disclosed.kind == ArtifactKind
                                         && r.base.disclosed.resourceId == ref.artifactId
                                         && r.base.disclosed.resourceVersion == ref.artifactVersionId, receipts);
    && matching != []
    && matching[0].base.disclosed.snapshot.ArtifactResource?
    && matching[0].base.disclosed.snapshot.contentHash == ref.contentHash
  }

  predicate ReferencesHold(receipts: seq<Receipt>, receiptRefs: seq<ReceiptRef>, artifactRefs: seq<ArtifactRef>)
  {
    && (forall i | 0 <= i < |receiptRefs| :: ReceiptRefHolds(receipts, receiptRefs[i]))
    && (forall i | 0 <= i < |artifactRefs| :: ArtifactRefHolds(receipts, artifactRefs[i]))
  }

  // --- Commands ------------------------------------------------------------------------------------

  /** The building blocks of every command on a run. */
  datatype Op =
    | Join(slotId: string, roleSlotId: string, assignmentId: string, actorId: string, joinDraw: Draw)
    | Start(actorId: string, startDraw: Draw)
    | TakeId(id: string)
    | Emit(input: EventInput, emitDraw: Draw)
    | PublishResource(input: EventInput, resource: Resource, recipients: seq<string>, publishDraw: Draw)
    | Submit(agent: string, submissionId: string, revisionNo: nat, body: string, receiptRefs: seq<ReceiptRef>,
             artifactRefs: seq<ArtifactRef>, recipients: seq<string>, submitDraw: Draw)
    | Synchronise(agent: string, after: nat, ack: Option<Ack>, maxItems: nat, draws: SyncDraws)

  function SubmissionInput(agent: string, id: string, body: string): EventInput
  {
    EventInput(SubmissionStream, id, "submission.created", true, agent, Some(agent), body)
  }

  /** The joined agent: its slot, its role, and its empty lists. */
  function Seated(run: Run, slotId: string, roleSlotId: string, assignmentId: string, runSeq: nat): Run
  {
    run.(agents := run.agents + [AgentSlot(slotId, roleSlotId, runSeq)],
         roleAssignments := run.roleAssignments + [RoleAssignment(assignmentId, slotId, roleSlotId, runSeq)],
         eligible := run.eligible[slotId := []], receipts := run.receipts[slotId := []],
         acknowledgements := run.acknowledgements[slotId := []], drawn := run.drawn + {slotId, assignmentId})
  }

  function Apply(h: Hashing, run: Run, op: Op): Run
  {
    match op
    case Join(slotId, roleSlotId, assignmentId, actorId, draw) =>
      var joined := AppendRunEvent(h, run, EventInput(RunAgentStream, slotId, "run-agent.joined", false, actorId, None,
                                                      roleSlotId), draw);
      Seated(joined, slotId, roleSlotId, assignmentId, |joined.events|)
    case Start(actorId, draw) =>
      var started := run.(info := run.info.(state := Running, version := run.info.version + 1, startedAt := Some(draw.time)));
      AppendRunEvent(h, started, EventInput(RunStream, run.id, "run.started", false, actorId, None, ""), draw)
    case TakeId(id) => run.(drawn := run.drawn + {id})
    case Emit(input, draw) => AppendRunEvent(h, run, input, draw)
    case PublishResource(input, resource, recipients, draw) => Publish(h, run, input, resource, recipients, draw)
    case Submit(agent, id, revisionNo, body, receiptRefs, artifactRefs, recipients, draw) =>
      if agent !in run.receipts || !ReferencesHold(run.receipts[agent], receiptRefs, artifactRefs) then run
      else
        var published := Publish(h, run, SubmissionInput(agent, id, body), SubmissionResource(id, revisionNo, body),
                                 [agent] + recipients, draw);
        published.(submissions := published.submissions[
          id := Submission(agent, receiptRefs, artifactRefs, |run.events| + 1)])
    case Synchronise(agent, after, ack, maxItems, draws) =>
      if !HasRecord(run, agent) then run
      else match Sync(h, run, agent, after, ack, maxItems, draws)
        case Err(_) => run
        case Ok(done) => done.0
  }

  /** A new run: nothing but its creation event. */
  function Created(h: Hashing, id: string, scenarioVersionHash: string, info: Info, actorId: string, draw: Draw): Run
  {
    AppendRunEvent(h, Run(id, scenarioVersionHash, info, info, [], [], {}, {}, {}, map[], map[], map[], map[], [], ZERO_HASH, {}),
                   EventInput(RunStream, id, "run.created", false, actorId, None, ""), draw)
  }

  ghost predicate Distinct(xs: seq<string>)
  {
    forall i, j | 0 <= i < j < |xs| :: xs[i] != xs[j]
  }

  ghost predicate NoColon(id: string)
  {
    ':' !in id
  }

  function StreamOf(kind: Kind): Stream
  {
    match kind
    case TaskKind => TaskStream
    case MessageKind => MessageStream
    case ArtifactKind => ArtifactStream
    case FeedbackKind => FeedbackStream
    case SubmissionKind => SubmissionStream
  }

  /** A resource no agent has been offered under the same key: fresh identifiers, or a task version
      above every version offered before. */
  ghost predicate NewResource(run: Run, resource: Resource)
  {
    && NoColon(resource.Id())
    && match resource
       case TaskResource(task) =>
         forall a, i | a in run.eligible && 0 <= i < |run.eligible[a]| ::
           run.eligible[a][i].snapshot.TaskResource? && run.eligible[a][i].snapshot.task.id == task.id ==>
             run.eligible[a][i].snapshot.task.lockVersion < task.lockVersion
       case ArtifactResource(id, versionId, _, _) =>
         versionId !in run.drawn && versionId != id && (id !in run.drawn || id in run.artifacts)
       case _ => resource.Id() !in run.drawn
  }

  /** What the commands guarantee about their building blocks: fresh ids from the id factory, unique
      and joined recipients, rising task versions, and events about stored resources. */
  ghost predicate Legal(run: Run, op: Op)
  {
    match op
    case Join(slotId, _, assignmentId, _, _) =>
      && run.info.state == Forming && slotId !in run.drawn && slotId !in run.eligible
      && assignmentId !in run.drawn && assignmentId != slotId
    case Start(_, _) => run.info.state == Forming
    case TakeId(id) => id !in run.drawn
    case Emit(input, _) =>
      && run.info.state == Running && !input.stream.MessageStream? && !input.stream.ArtifactStream?
      && input.eventType != "run.started"
      && (input.stream.FeedbackStream? ==> input.streamId in run.drawn)
    case PublishResource(input, resource, recipients, _) =>
      && run.info.state == Running && input.stream == StreamOf(resource.Kind()) && input.streamId == resource.Id()
      && input.eventType != "run.started"
      && NewResource(run, resource) && Distinct(recipients) && forall a | a in recipients :: a in run.eligible
    case Submit(agent, id, revisionNo, body, _, _, recipients, _) =>
      && run.info.state == Running && NewResource(run, SubmissionResource(id, revisionNo, body))
      && Distinct([agent] + recipients) && agent in run.eligible && forall a | a in recipients :: a in run.eligible
    case Synchronise(_, _, _, _, _) => true
  }

  ghost predicate AllLegal(h: Hashing, run: Run, ops: seq<Op>)
    decreases |ops|
  {
    ops != [] ==> Legal(run, ops[0]) && AllLegal(h, Apply(h, run, ops[0]), ops[1..])
  }

  function ApplyAll(h: Hashing, run: Run, ops: seq<Op>): Run
    decreases |ops|
  {
    if ops == [] then run else ApplyAll(h, Apply(h, run, ops[0]), ops[1..])
  }
}
