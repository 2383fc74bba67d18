/** The stored run as the service updates it in place, each method proved against RunLog. */
module RunService {
  import opened Outcomes
  import opened Sequences
  import opened RunLog

  datatype JoinRefusal = NotForming | NotARole | RoleTaken

  ghost function JoinRefused(run: Run, roleSlotId: string, requiredRoles: seq<string>): Option<JoinRefusal>
  {
    if run.info.state != Forming then Some(NotForming)
    else if roleSlotId !in requiredRoles then Some(NotARole)
    else if exists i | 0 <= i < |run.roleAssignments| :: run.roleAssignments[i].roleSlotId == roleSlotId then Some(RoleTaken)
    else None
  }

  class StoredRun {
    const id: string
    const scenarioVersionHash: string
    const initial: Info
    const h: Hashing
    var info: Info
    var agents: seq<AgentSlot>
    var roleAssignments: seq<RoleAssignment>
    var messages: set<string>
    var artifacts: set<string>
    var feedback: set<string>
    var submissions: map<string, Submission>
    var eligible: map<string, seq<Disclosure>>
    var receipts: map<string, seq<Receipt>>
    var acknowledgements: map<string, seq<Acknowledgement>>
    var events: seq<Event>
    var eventHeadHash: string
    var drawn: set<string>

    ghost function Abstract(): Run
      reads this
    {
      Run(id, scenarioVersionHash, initial, info, agents, roleAssignments, messages, artifacts, feedback, submissions,
          eligible, receipts, acknowledgements, events, eventHeadHash, drawn)
    }

    constructor (h: Hashing, id: string, scenarioVersionHash: string, info: Info, actorId: string, draw: Draw)
      ensures this.h == h && Abstract() == Created(h, id, scenarioVersionHash, info, actorId, draw)
    {
      this.h := h;
      this.id := id;
      this.scenarioVersionHash := scenarioVersionHash;
      initial := info;
      this.info := info;
      agents, roleAssignments := [], [];
      messages, artifacts, feedback, submissions := {}, {}, {}, map[];
      eligible, receipts, acknowledgements := map[], map[], map[];
      events, eventHeadHash, drawn := [], ZERO_HASH, {};
      new;
      var _ := AppendEvent(EventInput(RunStream, id, "run.created", false, actorId, None, ""), draw);
    }

    method AppendEvent(input: EventInput, draw: Draw) returns (event: Event)
      modifies this`events, this`eventHeadHash
      ensures event == NewEvent(h, old(Abstract()), input, draw)
      ensures Abstract() == AppendRunEvent(h, old(Abstract()), input, draw)
    {
      var base := EventBase(draw.eventId, id, |events| + 1, input, info.virtualTime, draw.time, h.payload(input),
                            eventHeadHash);
      event := Event(base, h.event(base));
      events := events + [event];
      eventHeadHash := event.eventHash;
    }

    /** Joining: only a forming run takes an agent, and only into a required role that nobody has. */
    method JoinRun(slotId: string, roleSlotId: string, requiredRoles: seq<string>, assignmentId: string, actorId: string,
                   draw: Draw)
      returns (refusal: Option<JoinRefusal>)
      modifies this`agents, this`roleAssignments, this`eligible, this`receipts, this`acknowledgements, this`drawn,
               this`events, this`eventHeadHash
      ensures refusal == JoinRefused(old(Abstract()), roleSlotId, requiredRoles)
      ensures Abstract() == if refusal.Some? then old(Abstract())
                            else Apply(h, old(Abstract()), Join(slotId, roleSlotId, assignmentId, actorId, draw))
    {
      hide Publish, Sync, Register, ReferencesHold, HasRecord, Seated;
      if info.state != Forming { return Some(NotForming); }
      if roleSlotId !in requiredRoles { return Some(NotARole); }
      if exists i | 0 <= i < |roleAssignments| :: roleAssignments[i].roleSlotId == roleSlotId { return Some(RoleTaken); }
      var joined := AppendEvent(EventInput(RunAgentStream, slotId, "run-agent.joined", false, actorId, None, roleSlotId), draw);
      Seat(slotId, roleSlotId, assignmentId, joined.base.runSeq);
      return None;
    }

    method Seat(slotId: string, roleSlotId: string, assignmentId: string, runSeq: nat)
      modifies this`agents, this`roleAssignments, this`eligible, this`receipts, this`acknowledgements, this`drawn
      ensures Abstract() == Seated(old(Abstract()), slotId, roleSlotId, assignmentId, runSeq)
    {
      agents := agents + [AgentSlot(slotId, roleSlotId, runSeq)];
      roleAssignments := roleAssignments + [RoleAssignment(assignmentId, slotId, roleSlotId, runSeq)];
      eligible := eligible[slotId := []];
      receipts := receipts[slotId := []];
      acknowledgements := acknowledgements[slotId := []];
      drawn := drawn + {slotId, assignmentId};
    }

    method MakeEligible(agent: string, resource: Resource, source: Event)
      requires agent in eligible
      modifies this`eligible
      ensures Abstract() == AddEligible(old(Abstract()), agent, DisclosureOf(h, resource, source))
    {
      eligible := eligible[agent := eligible[agent]
        + [Disclosure(resource.Kind(), resource.Id(), resource.Version(), source.base.eventId, source.base.runSeq, resource,
                      h.resource(resource))]];
    }

    method Store(resource: Resource)
      modifies this`messages, this`artifacts, this`feedback, this`drawn
      ensures Abstract() == Register(old(Abstract()), resource)
    {
      match resource {
        case TaskResource(task) => drawn := drawn + {task.id};
        case MessageResource(messageId, _) => messages, drawn := messages + {messageId}, drawn + {messageId};
        case ArtifactResource(artifactId, versionId, _, _) =>
          artifacts, drawn := artifacts + {artifactId}, drawn + {artifactId, versionId};
        case FeedbackResource(feedbackId, _) => feedback, drawn := feedback + {feedbackId}, drawn + {feedbackId};
        case SubmissionResource(submissionId, _, _) => drawn := drawn + {submissionId};
      }
    }

    method PublishTo(input: EventInput, resource: Resource, recipients: seq<string>, draw: Draw)
      requires forall a | a in recipients :: a in eligible
      modifies this
      ensures Abstract() == Publish(h, old(Abstract()), input, resource, recipients, draw)
    {
      hide Register, AppendRunEvent;
      var event := AppendEvent(input, draw);
      ghost var appended := Abstract();
      assert eligible == old(eligible) by { AppendFrame(old(Abstract()), input, draw); }
      Store(resource);
      ghost var registered := Abstract();
      var i := 0;
      while i < |recipients|
        invariant 0 <= i <= |recipients| && eligible.Keys == old(eligible).Keys
        invariant Abstract() == AddEligibleToAll(registered, recipients[..i], DisclosureOf(h, resource, event))
      {
        assert recipients[..i + 1][..i] == recipients[..i];
        MakeEligible(recipients[i], resource, event);
        i := i + 1;
      }
      assert recipients[..i] == recipients;
    }

    lemma AppendFrame(run: Run, input: EventInput, draw: Draw)
      ensures AppendRunEvent(h, run, input, draw).eligible == run.eligible
    {
    }

    method AcknowledgeReceipts(agent: string, ack: Ack, draw: Draw) returns (failure: Option<SyncError>)
      requires agent in receipts && agent in acknowledgements
      modifies this`events, this`eventHeadHash, this`acknowledgements
      ensures match Acknowledge(h, old(Abstract()), agent, ack, draw)
              case Ok(run) => failure == None && Abstract() == run
              case Err(e) => failure == Some(e) && Abstract() == old(Abstract())
    {
      var issued := receipts[agent];
      if ack.throughReceiptSeq == 0 || ack.throughReceiptSeq > |issued|
         || issued[ack.throughReceiptSeq - 1].receiptHash != ack.headHash || ack.throughReceiptSeq != |issued| {
        return Some(ChainConflict);
      }
      var earlier := acknowledgements[agent];
      if earlier != [] && earlier[|earlier| - 1].throughReceiptSeq == ack.throughReceiptSeq
         && earlier[|earlier| - 1].headHash == ack.headHash {
        return None;
      }
      var event := AppendEvent(AckInput(agent, ack), draw);
      acknowledgements := acknowledgements[
        agent := earlier + [Acknowledgement(ack.throughReceiptSeq, ack.headHash, event.base.runSeq)]];
      return None;
    }

    /** The eligible entries whose keys no receipt carries. */
    method PendingOf(agent: string) returns (pending: seq<Disclosure>)
      requires agent in receipts && agent in eligible
      ensures pending == Pending(Abstract(), agent)
    {
      hide Key;
      var issued := receipts[agent];
      var issuedIds: set<string> := {};
      var i := 0;
      while i < |issued|
        invariant 0 <= i <= |issued|
        invariant forall key :: key in issuedIds <==> WasIssued(issued[..i], key)
      {
        forall key { IssuedOneMore(issued, i, key); }
        issuedIds := issuedIds + {Key(issued[i].base.disclosed)};
        i := i + 1;
      }
      assert issued[..i] == issued;
      pending := [];
      i := 0;
      var open := NotIssued(issued);
      while i < |eligible[agent]|
        invariant 0 <= i <= |eligible[agent]| && pending == Keep(open, eligible[agent][..i])
      {
        assert eligible[agent][..i + 1][..i] == eligible[agent][..i];
        if Key(eligible[agent][i]) !in issuedIds { pending := pending + [eligible[agent][i]]; }
        i := i + 1;
      }
      assert eligible[agent][..i] == eligible[agent];
    }

    lemma IssuedOneMore(issued: seq<Receipt>, i: nat, key: string)
      requires i < |issued|
      ensures WasIssued(issued[..i + 1], key) <==> WasIssued(issued[..i], key) || key == Key(issued[i].base.disclosed)
    {
      hide Key;
      assert issued[..i + 1] == issued[..i] + [issued[i]];
      assert (issued[..i] + [issued[i]])[i] == issued[i];
      if WasIssued(issued[..i], key) {
        var j :| 0 <= j < i && Key(issued[..i][j].base.disclosed) == key;
        assert issued[..i + 1][j] == issued[..i][j];
      }
    }

    /** Issuing one receipt after `prior`: the event now, the receipt to be stored by the caller. */
    method IssueNext(agent: string, prior: seq<Receipt>, d: Disclosure, batchId: string, receiptId: string, draw: Draw,
                     issuedAt: int) returns (receipt: Receipt)
      requires agent in receipts
      modifies this`events, this`eventHeadHash
      ensures WithReceipts(agent, prior + [receipt])
           == IssueOne(h, old(WithReceipts(agent, prior)), agent, d, batchId, receiptId, draw, issuedAt)
    {
      var event := AppendEvent(IssueInput(agent, receiptId, d), draw);
      var base := ReceiptBase(receiptId, id, agent, |prior| + 1, batchId, d, event.base.eventId, event.base.runSeq,
                              info.virtualTime, issuedAt, HeadOf(prior));
      receipt := Receipt(base, h.receipt(base));
    }

    ghost function WithReceipts(agent: string, held: seq<Receipt>): Run
      reads this
    {
      Abstract().(receipts := receipts[agent := held])
    }

    /** Issuing the selected entries in order; the receipts are stored together at the end. */
    method IssueSelected(agent: string, selected: seq<Disclosure>, draws: SyncDraws) returns (issued: seq<Receipt>)
      requires agent in receipts
      modifies this`events, this`eventHeadHash, this`receipts
      ensures Abstract() == IssueUpTo(h, old(Abstract()), agent, selected, |selected|, draws)
      ensures agent in receipts && receipts[agent] == old(receipts[agent]) + issued && |issued| == |selected|
    {
      hide IssueUpTo;
      issued := IssueAll(agent, selected, draws);
      receipts := receipts[agent := receipts[agent] + issued];
    }

    lemma IssueUpToSteps(run: Run, agent: string, selected: seq<Disclosure>, i: nat, draws: SyncDraws)
      requires agent in run.receipts && i <= |selected|
      ensures IssueUpTo(h, run, agent, selected, 0, draws) == run
      ensures i < |selected| ==>
        var before := IssueUpTo(h, run, agent, selected, i, draws);
        IssueUpTo(h, run, agent, selected, i + 1, draws)
        == IssueOne(h, before, agent, selected[i], draws.deliveryBatchId, draws.receiptIds(i), draws.issuances(i), draws.issuedAt(i))
    {
      hide IssueOne;
    }

    /** The receipts to store, one after the other, while their events are appended. */
    method IssueAll(agent: string, selected: seq<Disclosure>, draws: SyncDraws) returns (issued: seq<Receipt>)
      requires agent in receipts
      modifies this`events, this`eventHeadHash
      ensures WithReceipts(agent, receipts[agent] + issued) == IssueUpTo(h, old(Abstract()), agent, selected, |selected|, draws)
      ensures |issued| == |selected|
    {
      hide IssueOne, IssueUpTo;
      var before := receipts[agent];
      ghost var start := Abstract();
      issued := [];
      IssueUpToSteps(start, agent, selected, 0, draws);
      assert before + issued == before && receipts[agent := before] == receipts;
      var i := 0;
      while i < |selected|
        invariant 0 <= i <= |selected| && |issued| == i
        invariant WithReceipts(agent, before + issued) == IssueUpTo(h, start, agent, selected, i, draws)
      {
        IssueUpToSteps(start, agent, selected, i, draws);
        var receipt := IssueNext(agent, before + issued, selected[i], draws.deliveryBatchId, draws.receiptIds(i),
                                 draws.issuances(i), draws.issuedAt(i));
        assert before + (issued + [receipt]) == (before + issued) + [receipt];
        issued := issued + [receipt];
        i := i + 1;
      }
    }

    /** Issuing what an agent may receive next, after acknowledging what it has. */
    method SyncAgent(agent: string, after: nat, ack: Option<Ack>, maxItems: nat, draws: SyncDraws)
      returns (r: Result<Batch, SyncError>)
      requires HasRecord(Abstract(), agent)
      modifies this`events, this`eventHeadHash, this`acknowledgements, this`receipts
      ensures match Sync(h, old(Abstract()), agent, after, ack, maxItems, draws)
              case Err(e) => r == Err(e) && Abstract() == old(Abstract())
              case Ok(done) => r == Ok(done.1) && Abstract() == done.0
    {
      hide Acknowledge, Pending, IssueUpTo;
      if info.state != Running { return Err(StateConflict); }
      if after != |receipts[agent]| { return Err(CursorConflict); }
      if ack.Some? {
        var failure := AcknowledgeReceipts(agent, ack.value, draws.ack);
        if failure.Some? { return Err(failure.value); }
      }
      var before := receipts[agent];
      var pending := PendingOf(agent);
      var selected := if |pending| <= maxItems then pending else pending[..maxItems];
      var issued := IssueSelected(agent, selected, draws);
      assert (before + issued)[after..] == issued;
      r := Ok(Batch(draws.deliveryBatchId, if |issued| == 0 then None else Some(after + 1), |receipts[agent]|,
                    HeadOf(receipts[agent]), |events|, |selected| < |pending|, issued));
    }

    /** Whether every reference of a submission is to a receipt its author holds. */
    method AssertSubmissionReferences(agent: string, receiptRefs: seq<ReceiptRef>, artifactRefs: seq<ArtifactRef>)
      returns (ok: bool)
      requires agent in receipts
      ensures ok == ReferencesHold(receipts[agent], receiptRefs, artifactRefs)
    {
      var i := 0;
      while i < |receiptRefs|
        invariant 0 <= i <= |receiptRefs|
        invariant forall k | 0 <= k < i :: ReceiptRefHolds(receipts[agent], receiptRefs[k])
      {
        if !ReceiptRefHolds(receipts[agent], receiptRefs[i]) { return false; }
        i := i + 1;
      }
      i := 0;
      while i < |artifactRefs|
        invariant 0 <= i <= |artifactRefs|
        invariant forall k | 0 <= k < i :: ArtifactRefHolds(receipts[agent], artifactRefs[k])
      {
        if !ArtifactRefHolds(receipts[agent], artifactRefs[i]) { return false; }
        i := i + 1;
      }
      return true;
    }
  }
}
