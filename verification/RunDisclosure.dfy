/** Who gets to see a publication: what an agent is offered, receives and is shown stems from publications
    made to it, in every later state. */
module RunDisclosure {
  import opened Outcomes
  import opened Sequences
  import opened RunLog
  import opened RunInvariant
  import opened RunHistory
  import opened RunReplay
  import opened RunPast
  import opened RunShown

  // --- Offering ------------------------------------------------------------------------------------------------

  lemma {:induction false} OfferedToAll(run: Run, recipients: seq<string>, d: Disclosure)
    requires Distinct(recipients) && forall i | 0 <= i < |recipients| :: recipients[i] in run.eligible
    ensures var after := AddEligibleToAll(run, recipients, d);
      && after == run.(eligible := after.eligible) && after.eligible.Keys == run.eligible.Keys
      && forall a | a in run.eligible :: after.eligible[a] == run.eligible[a] + (if a in recipients then [d] else [])
  {
    if recipients != [] {
      var init, last := recipients[..|recipients| - 1], recipients[|recipients| - 1];
      OfferedToAll(run, init, d);
      assert recipients == init + [last];
      assert last !in init;
    }
  }

  /** The entry that a publication makes, as its event and its resource tell. */
  ghost predicate EntryFor(h: Hashing, e: Event, resource: Resource, d: Disclosure)
  {
    && d.sourceEventId == e.base.eventId && d.sourceRunSeq == e.base.runSeq && d.snapshot == resource
    && d.contentHash == h.resource(resource)
    && match resource
       case TaskResource(task) => d.kind == TaskKind && d.resourceId == task.id
       case MessageResource(id, _) => d.kind == MessageKind && d.resourceId == id && d.resourceVersion == "1"
       case ArtifactResource(id, versionId, _, _) =>
         d.kind == ArtifactKind && d.resourceId == id && d.resourceVersion == versionId
       case FeedbackResource(id, _) => d.kind == FeedbackKind && d.resourceId == id && d.resourceVersion == "1"
       case SubmissionResource(id, _, _) => d.kind == SubmissionKind && d.resourceId == id
  }

  /** One new event, numbered, stamped and chained. */
  ghost predicate NextEvent(h: Hashing, run: Run, input: EventInput, draw: Draw, e: Event)
  {
    && e.base.eventId == draw.eventId && e.base.runId == run.id && e.base.runSeq == |run.events| + 1 && e.base.input == input
    && e.base.virtualTime == run.info.virtualTime && e.base.recordedAt == draw.time
    && e.base.payloadHash == h.payload(input) && e.base.previousHash == run.eventHeadHash && e.eventHash == h.event(e.base)
  }

  /** A publication appends its event and offers its resource to exactly its recipients. */
  lemma PublicationOffers(h: Hashing, run: Run, input: EventInput, resource: Resource, recipients: seq<string>, draw: Draw)
    returns (d: Disclosure)
    requires Distinct(recipients) && forall a | a in recipients :: a in run.eligible
    ensures var after := Publish(h, run, input, resource, recipients, draw);
      && |after.events| == |run.events| + 1 && after.events[..|run.events|] == run.events
      && NextEvent(h, run, input, draw, after.events[|run.events|]) && after.eventHeadHash == after.events[|run.events|].eventHash
      && EntryFor(h, after.events[|run.events|], resource, d)
      && after.eligible.Keys == run.eligible.Keys && after.receipts == run.receipts
      && after.acknowledgements == run.acknowledgements
      && forall a | a in run.eligible :: after.eligible[a] == run.eligible[a] + (if a in recipients then [d] else [])
  {
    var stored := Register(AppendRunEvent(h, run, input, draw), resource);
    d := DisclosureOf(h, resource, NewEvent(h, run, input, draw));
    OfferedToAll(stored, recipients, d);
  }

  // --- Where entries come from --------------------------------------------------------------------------------------

  /** An entry stems from the event it names, an event about that very resource. */
  ghost predicate StemsFrom(events: seq<Event>, d: Disclosure)
  {
    && 1 <= d.sourceRunSeq <= |events|
    && events[d.sourceRunSeq - 1].base.eventId == d.sourceEventId
    && events[d.sourceRunSeq - 1].base.input.streamId == d.resourceId
    && events[d.sourceRunSeq - 1].base.input.stream
       == (match d.kind
           case TaskKind => TaskStream
           case MessageKind => MessageStream
           case ArtifactKind => ArtifactStream
           case FeedbackKind => FeedbackStream
           case SubmissionKind => SubmissionStream)
  }

  ghost predicate Sourced(run: Run)
  {
    forall a, i | a in run.eligible && 0 <= i < |run.eligible[a]| :: StemsFrom(run.events, run.eligible[a][i])
  }

  lemma StemsFromLonger(events: seq<Event>, more: seq<Event>, d: Disclosure)
    requires StemsFrom(events, d) && events <= more
    ensures StemsFrom(more, d)
  {
  }

  lemma SourcedLater(run: Run, after: Run)
    requires Sourced(run) && run.events <= after.events
    requires forall a | a in after.eligible && a in run.eligible :: after.eligible[a] == run.eligible[a]
    requires forall a | a in after.eligible && a !in run.eligible :: after.eligible[a] == []
    ensures Sourced(after)
  {
    hide StemsFrom;
    forall a, i | a in after.eligible && 0 <= i < |after.eligible[a]| ensures StemsFrom(after.events, after.eligible[a][i]) {
      StemsFromLonger(run.events, after.events, run.eligible[a][i]);
    }
  }

  lemma PublishKeepsSourced(h: Hashing, run: Run, input: EventInput, resource: Resource, recipients: seq<string>, draw: Draw)
    requires Sourced(run) && Distinct(recipients) && forall a | a in recipients :: a in run.eligible
    requires input.stream == StreamOf(resource.Kind()) && input.streamId == resource.Id()
    ensures Sourced(Publish(h, run, input, resource, recipients, draw))
  {
    var after := Publish(h, run, input, resource, recipients, draw);
    var d := PublicationOffers(h, run, input, resource, recipients, draw);
    assert StemsFrom(after.events, d);
    hide StemsFrom, Publish, EntryFor;
    forall a, i | a in after.eligible && 0 <= i < |after.eligible[a]| ensures StemsFrom(after.events, after.eligible[a][i]) {
      if i < |run.eligible[a]| { StemsFromLonger(run.events, after.events, run.eligible[a][i]); }
    }
  }

  lemma IssueOneKeepsEligible(h: Hashing, run: Run, agent: string, d: Disclosure, batchId: string, receiptId: string, draw: Draw,
                              issuedAt: int)
    requires agent in run.receipts
    ensures var after := IssueOne(h, run, agent, d, batchId, receiptId, draw, issuedAt);
      after.eligible == run.eligible && run.events <= after.events
  {
  }

  lemma {:induction false} IssuingKeepsEligible(h: Hashing, run: Run, agent: string, selected: seq<Disclosure>, n: nat, draws: SyncDraws)
    requires agent in run.receipts && n <= |selected|
    ensures var after := IssueUpTo(h, run, agent, selected, n, draws);
      after.eligible == run.eligible && run.events <= after.events
  {
    hide IssueOne;
    if n > 0 {
      IssuingKeepsEligible(h, run, agent, selected, n - 1, draws);
      IssueOneKeepsEligible(h, IssueUpTo(h, run, agent, selected, n - 1, draws), agent, selected[n - 1], draws.deliveryBatchId,
                            draws.receiptIds(n - 1), draws.issuances(n - 1), draws.issuedAt(n - 1));
    }
  }

  lemma SyncKeepsEligible(h: Hashing, run: Run, agent: string, after: nat, ack: Option<Ack>, maxItems: nat, draws: SyncDraws)
    requires HasRecord(run, agent) && Sync(h, run, agent, after, ack, maxItems, draws).Ok?
    ensures var done := Sync(h, run, agent, after, ack, maxItems, draws).value.0;
      done.eligible == run.eligible && run.events <= done.events
  {
    var acknowledged := if ack.Some? then Acknowledge(h, run, agent, ack.value, draws.ack) else Ok(run);
    var selected := Selected(Pending(acknowledged.value, agent), maxItems);
    IssuingKeepsEligible(h, acknowledged.value, agent, selected, |selected|, draws);
    hide IssueUpTo;
  }

  lemma ApplyKeepsSourced(h: Hashing, run: Run, op: Op)
    requires Sourced(run) && Legal(run, op)
    ensures Sourced(Apply(h, run, op))
  {
    hide Sourced, Publish, Sync, NewResource, StreamOf;
    var after := Apply(h, run, op);
    match op
    case PublishResource(input, resource, recipients, draw) => PublishKeepsSourced(h, run, input, resource, recipients, draw);
    case Submit(agent, id, revisionNo, body, _, _, recipients, draw) =>
      if after != run {
        SubmissionIsSubmission(id, revisionNo, body);
        var published := Publish(h, run, SubmissionInput(agent, id, body), SubmissionResource(id, revisionNo, body),
                                 [agent] + recipients, draw);
        PublishKeepsSourced(h, run, SubmissionInput(agent, id, body), SubmissionResource(id, revisionNo, body),
                            [agent] + recipients, draw);
        SourcedLater(published, after);
      }
    case Synchronise(agent, from, ack, maxItems, draws) =>
      if after != run { SyncKeepsEligible(h, run, agent, from, ack, maxItems, draws); }
      SourcedLater(run, after);
    case _ => SourcedLater(run, after);
  }

  lemma SubmissionIsSubmission(id: string, revisionNo: nat, body: string)
    ensures var resource := SubmissionResource(id, revisionNo, body);
      StreamOf(resource.Kind()) == SubmissionStream && resource.Id() == id
  {
  }

  /** In every reachable state, whatever an agent has been offered stems from the event it names, and that
      event is about the offered resource. */
  lemma {:induction false} HistoryKeepsSourced(h: Hashing, run: Run, ops: seq<Op>)
    requires Sourced(run) && AllLegal(h, run, ops)
    ensures Sourced(ApplyAll(h, run, ops))
    decreases |ops|
  {
    hide Sourced, Apply, Legal;
    if ops != [] {
      ApplyKeepsSourced(h, run, ops[0]);
      HistoryKeepsSourced(h, Apply(h, run, ops[0]), ops[1..]);
    }
  }

  lemma CreatedIsSourced(h: Hashing, id: string, scenarioVersionHash: string, info: Info, actorId: string, draw: Draw)
    ensures Sourced(Created(h, id, scenarioVersionHash, info, actorId, draw))
  {
  }

  // --- Who is offered a publication --------------------------------------------------------------------------------------

  /** The resources agent `a` has been offered by the event numbered `n`. */
  ghost predicate OfferedBy(run: Run, a: string, n: nat)
  {
    a in run.eligible && exists i | 0 <= i < |run.eligible[a]| :: run.eligible[a][i].sourceRunSeq == n
  }

  lemma EarlierEntries(h: Hashing, run: Run, a: string)
    requires Consistent(h, run) && a in run.eligible
    ensures forall i | 0 <= i < |run.eligible[a]| :: run.eligible[a][i].sourceRunSeq <= |run.events|
  {
    hide LogConsistent, SubmissionsConsistent, Receipted, Acknowledged;
    assert AgentConsistent(h, run.drawn, |run.events|, a, run.eligible[a], run.receipts[a], run.acknowledgements[a]);
  }

  lemma OffersLater(before: Run, after: Run, a: string, n: nat)
    requires Later(before, after) && a in before.eligible && n <= |before.events|
    ensures OfferedBy(after, a, n) <==> OfferedBy(before, a, n)
  {
    assert RecordsLater(before, after, a);
    hide Later;
    if i :| 0 <= i < |before.eligible[a]| && before.eligible[a][i].sourceRunSeq == n {
      assert after.eligible[a][i] == before.eligible[a][i];
    }
    if i :| a in after.eligible && 0 <= i < |after.eligible[a]| && after.eligible[a][i].sourceRunSeq == n {
      assert i < |before.eligible[a]| && before.eligible[a][i] == after.eligible[a][i];
    }
  }

  /** Whatever happens later, an agent of the run is offered a publication exactly if it was among the
      recipients when it was made. */
  lemma OfferedIffRecipient(h: Hashing, run: Run, op: Op, ops: seq<Op>, a: string)
    requires Consistent(h, run) && op.PublishResource? && Legal(run, op) && AllLegal(h, Apply(h, run, op), ops)
    requires a in run.eligible
    ensures OfferedBy(ApplyAll(h, Apply(h, run, op), ops), a, |run.events| + 1) <==> a in op.recipients
  {
    hide Consistent, AllLegal, ApplyAll, Publish, Later, NewResource, Sync, Seated, NextEvent, StreamOf;
    var published := Apply(h, run, op);
    var d := PublicationOffers(h, run, op.input, op.resource, op.recipients, op.publishDraw);
    ApplyKeeps(h, run, op);
    EarlierEntries(h, run, a);
    HistoryIsLater(h, published, ops);
    OffersLater(published, ApplyAll(h, published, ops), a, |run.events| + 1);
    var before := run.eligible[a];
    if a in op.recipients {
      assert published.eligible[a][|before|] == d;
    } else {
      assert published.eligible[a] == before;
    }
  }

  ghost predicate DistinctEventIds(events: seq<Event>)
  {
    forall i, j | 0 <= i < j < |events| :: events[i].base.eventId != events[j].base.eventId
  }

  /** Some receipt of the agent for the event numbered `n` shows at the cut. */
  ghost predicate ReceiptFor(run: Run, q: Query, a: string, n: nat, r: nat)
    requires a in run.receipts && a in run.acknowledgements
  {
    exists j: nat | j < |run.receipts[a]| :: run.receipts[a][j].base.disclosed.sourceRunSeq == n && ReceiptShows(run, q, a, j, r)
  }

  /** In the replay of an agent's view, a publication shows if and only if the agent made it itself (a message,
      an artifact or a submission) or a receipt of it shows; so it never shows to an agent that neither made
      it nor was among its recipients, at any cut of any later state. */
  lemma PublicationShowsIff(h: Hashing, run: Run, op: Op, ops: seq<Op>, a: string, semantics: Semantics, r: nat)
    requires Consistent(h, run) && Sourced(run) && op.PublishResource? && Legal(run, op) && AllLegal(h, Apply(h, run, op), ops)
    requires a in run.eligible
    requires var after := ApplyAll(h, Apply(h, run, op), ops);
             DistinctEventIds(after.events) && |run.events| < r <= |after.events|
    ensures var after, q := ApplyAll(h, Apply(h, run, op), ops), Query(OfAgent(a), semantics);
      var mine := op.input.actorIsRunAgent && op.input.actorId == a
                  && (op.resource.MessageResource? || op.resource.ArtifactResource? || op.resource.SubmissionResource?);
      && |run.events| < |after.events| && a in after.receipts && a in after.acknowledgements
      && (after.events[|run.events|] in ReplayAt(h, after, q, r).events <==> mine || ReceiptFor(after, q, a, |run.events| + 1, r))
      && (after.events[|run.events|] in ReplayAt(h, after, q, r).events ==> mine || a in op.recipients)
  {
    hide Consistent, AllLegal, ApplyAll, Later, Sourced, ReplayAt, Publish, OfferedBy, NewResource, DistinctEventIds, ReceiptFor;
    hide Sync, Seated;
    var published := Apply(h, run, op);
    var after, q, n := ApplyAll(h, published, ops), Query(OfAgent(a), semantics), |run.events|;
    var d := PublicationOffers(h, run, op.input, op.resource, op.recipients, op.publishDraw);
    ApplyKeeps(h, run, op);
    HistoryIsConsistent(h, published, ops);
    ApplyKeepsSourced(h, run, op);
    HistoryKeepsSourced(h, published, ops);
    HistoryIsLater(h, published, ops);
    StaysInLog(published, after, n, a);
    PublishedFeedback(h, run, op, after);
    OfferedIffRecipient(h, run, op, ops, a);
    RecordsOf(h, after, a);
    ShowsInView(h, after, q, a, n, r, op.resource.Kind());
    if ReceiptFor(after, q, a, n + 1, r) { ReceivedWasOffered(h, after, q, a, n + 1, r); }
  }

  lemma RecordsOf(h: Hashing, run: Run, a: string)
    requires Consistent(h, run) && a in run.eligible
    ensures a in run.receipts && a in run.acknowledgements
  {
  }

  lemma StaysInLog(before: Run, after: Run, n: nat, a: string)
    requires Later(before, after) && n < |before.events| && a in before.eligible
    ensures n < |after.events| && after.events[n] == before.events[n] && a in after.eligible
    ensures before.feedback <= after.feedback
  {
    assert RecordsLater(before, after, a);
  }

  lemma PublishedFeedback(h: Hashing, run: Run, op: Op, after: Run)
    requires op.PublishResource? && Apply(h, run, op).feedback <= after.feedback
    requires Distinct(op.recipients) && forall a | a in op.recipients :: a in run.eligible
    ensures op.resource.FeedbackResource? ==> op.resource.Id() in after.feedback
  {
    OfferedToAll(Register(AppendRunEvent(h, run, op.input, op.publishDraw), op.resource), op.recipients,
                 DisclosureOf(h, op.resource, NewEvent(h, run, op.input, op.publishDraw)));
  }

  lemma ReceivedWasOffered(h: Hashing, run: Run, q: Query, a: string, n: nat, r: nat)
    requires Consistent(h, run) && a in run.receipts && a in run.acknowledgements && ReceiptFor(run, q, a, n, r)
    ensures OfferedBy(run, a, n)
  {
    var j: nat :| j < |run.receipts[a]| && run.receipts[a][j].base.disclosed.sourceRunSeq == n && ReceiptShows(run, q, a, j, r);
    ReceiptNumbers(h, run, a, j);
  }

  /** A receipt that shows discloses a resource of the event's kind that stems from the event exactly if it is
      for that event. */
  lemma StemsIffReceiptFor(h: Hashing, run: Run, q: Query, a: string, n: nat, r: nat, kind: Kind)
    requires Consistent(h, run) && Sourced(run) && DistinctEventIds(run.events) && q.perspective == OfAgent(a)
    requires a in run.receipts && a in run.acknowledgements && n < |run.events|
    requires run.events[n].base.input.stream == StreamOf(kind)
    ensures ShownToStemFrom(ReplayAt(h, run, q, r), kind, run.events[n].base.eventId) <==> ReceiptFor(run, q, a, n + 1, r)
  {
    hide ReplayAt, Consistent, ReceiptShows, Watches, Sourced, DistinctEventIds, StreamOf;
    var p, id := ReplayAt(h, run, q, r), run.events[n].base.eventId;
    if x :| x in p.receipts && x.base.disclosed.kind == kind && x.base.disclosed.sourceEventId == id {
      ShownReceipts(h, run, q, r, x);
      var b, j: nat :| Watches(run, q, b) && b in run.receipts && b in run.acknowledgements && j < |run.receipts[b]|
                       && run.receipts[b][j] == x && ReceiptShows(run, q, b, j, r);
      OnlyItself(run, q, a, b);
      EntryIsForEvent(h, run, a, j, n, kind);
    }
    if j: nat :| j < |run.receipts[a]| && run.receipts[a][j].base.disclosed.sourceRunSeq == n + 1 && ReceiptShows(run, q, a, j, r) {
      EntryIsForEvent(h, run, a, j, n, kind);
      OnlyItself(run, q, a, a);
      ShownReceipts(h, run, q, r, run.receipts[a][j]);
      assert run.receipts[a][j] in p.receipts;
    }
  }

  lemma OnlyItself(run: Run, q: Query, a: string, b: string)
    requires q.perspective == OfAgent(a)
    ensures Watches(run, q, b) <==> a == b
  {
  }

  lemma EntryIsForEvent(h: Hashing, run: Run, a: string, j: nat, n: nat, kind: Kind)
    requires Consistent(h, run) && Sourced(run) && DistinctEventIds(run.events) && n < |run.events|
    requires a in run.receipts && j < |run.receipts[a]| && run.events[n].base.input.stream == StreamOf(kind)
    ensures var d := run.receipts[a][j].base.disclosed;
      d.kind == kind && d.sourceEventId == run.events[n].base.eventId <==> d.sourceRunSeq == n + 1
  {
    hide Consistent;
    ReceiptNumbers(h, run, a, j);
    assert StemsFrom(run.events, run.eligible[a][j]);
  }

  lemma ShowsInView(h: Hashing, run: Run, q: Query, a: string, n: nat, r: nat, kind: Kind)
    requires Consistent(h, run) && Sourced(run) && DistinctEventIds(run.events) && q.perspective == OfAgent(a)
    requires a in run.receipts && a in run.acknowledgements && n < r <= |run.events|
    requires run.events[n].base.input.stream == StreamOf(kind)
    requires kind == FeedbackKind ==> run.events[n].base.input.streamId in run.feedback
    ensures var input := run.events[n].base.input;
      run.events[n] in ReplayAt(h, run, q, r).events
      <==> (kind in {MessageKind, ArtifactKind, SubmissionKind} && input.actorIsRunAgent && input.actorId == a)
           || ReceiptFor(run, q, a, n + 1, r)
  {
    hide ReplayAt, Consistent, ReceiptFor, ShownToStemFrom, Sourced, Watches, Picked, EventShows, EventsChained;
    var p, e := ReplayAt(h, run, q, r), run.events[n];
    var at := ShownEvents(h, run, q, r);
    ConsistentLog(h, run);
    InPickedIffAt(h, run, p.events, at, n, r);
    StemsIffReceiptFor(h, run, q, a, n, r, kind);
    PublicationShows(run, q, p, e, a, kind);
  }

  lemma PublicationShows(run: Run, q: Query, p: Projection, e: Event, a: string, kind: Kind)
    requires q.perspective == OfAgent(a) && e.base.input.stream == StreamOf(kind)
    requires kind == FeedbackKind ==> e.base.input.streamId in run.feedback
    ensures EventShows(run, q, p, e)
       <==> (kind in {MessageKind, ArtifactKind, SubmissionKind} && e.base.input.actorIsRunAgent && e.base.input.actorId == a)
            || ShownToStemFrom(p, kind, e.base.eventId)
  {
    hide ShownToStemFrom;
  }

  lemma InPickedIffAt(h: Hashing, run: Run, part: seq<Event>, at: seq<nat>, n: nat, r: nat)
    requires EventsChained(h, run.events) && n < r <= |run.events| && Picked(part, run.events[..r], at)
    ensures run.events[n] in part <==> n in at
  {
    if i :| 0 <= i < |part| && part[i] == run.events[n] {
      assert ChainedAt(h, run.events, at[i]) && ChainedAt(h, run.events, n);
      assert at[i] == n;
    }
    if i :| 0 <= i < |at| && at[i] == n { assert part[i] == run.events[n]; }
  }
}
