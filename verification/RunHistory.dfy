/** Whole histories of a run: consistency, exactly-once delivery and the two chain verifiers. */
module RunHistory {
  import opened Outcomes
  import opened Sequences
  import opened RunLog
  import opened RunInvariant

  // --- Every history is consistent -----------------------------------------------------------------

  lemma CreatedIsConsistent(h: Hashing, id: string, scenarioVersionHash: string, info: Info, actorId: string, draw: Draw)
    ensures Consistent(h, Created(h, id, scenarioVersionHash, info, actorId, draw))
  {
  }

  lemma JoinKeeps(h: Hashing, run: Run, slotId: string, roleSlotId: string, assignmentId: string, actorId: string, draw: Draw)
    requires Consistent(h, run) && slotId !in run.eligible
    ensures Consistent(h, Apply(h, run, Join(slotId, roleSlotId, assignmentId, actorId, draw)))
  {
    hide EventsChained, CitedBefore, AgentConsistent;
    var input := EventInput(RunAgentStream, slotId, "run-agent.joined", false, actorId, None, roleSlotId);
    var appended := AppendRunEvent(h, run, input, draw);
    AppendRunEventKeeps(h, run, input, draw);
    var after := Apply(h, run, Join(slotId, roleSlotId, assignmentId, actorId, draw));
    NewAgentIsConsistent(h, after.drawn, |after.events|, slotId);
    forall a | a in after.eligible
      ensures AgentConsistent(h, after.drawn, |after.events|, a, after.eligible[a], after.receipts[a], after.acknowledgements[a])
    {
      if a != slotId {
        AgentConsistentLater(h, appended.drawn, after.drawn, |after.events|, |after.events|, a, appended.eligible[a],
                             appended.receipts[a], appended.acknowledgements[a]);
      }
    }
    SubmissionsConsistentLater(appended, after);
  }

  lemma NewAgentIsConsistent(h: Hashing, drawn: set<string>, length: nat, agent: string)
    ensures AgentConsistent(h, drawn, length, agent, [], [], [])
  {
  }

  lemma TakeIdKeeps(h: Hashing, run: Run, id: string)
    requires Consistent(h, run)
    ensures Consistent(h, run.(drawn := run.drawn + {id}))
  {
    hide EventsChained, CitedBefore, AgentConsistent;
    var after := run.(drawn := run.drawn + {id});
    AgentsConsistentLater(h, run, after);
    SubmissionsConsistentLater(run, after);
    forall i | 0 <= i < |after.events|
      ensures StreamKnown(after.messages, after.artifacts, after.drawn, after.events[i].base.input)
    {
      assert StreamKnown(run.messages, run.artifacts, run.drawn, run.events[i].base.input);
    }
  }

  lemma InfoDoesNotMatter(h: Hashing, run: Run, info: Info)
    requires Consistent(h, run)
    ensures Consistent(h, run.(info := info))
  {
    hide EventsChained, CitedBefore, AgentConsistent, StreamKnown;
    var after := run.(info := info);
    assert LogConsistent(h, after);
    assert AgentsConsistent(h, after);
    assert SubmissionsConsistent(after);
  }

  /** References that hold are to receipts issued before the event that follows. */
  lemma HeldReferencesAreCitedBefore(h: Hashing, run: Run, agent: string, s: Submission)
    requires Consistent(h, run) && agent in run.eligible
    requires ReferencesHold(run.receipts[agent], s.receiptRefs, s.artifactRefs)
    requires s.createdRunSeq == |run.events| + 1
    ensures CitedBefore(run.receipts[agent], |run.events| + 1, s)
  {
    var receipts := run.receipts[agent];
    ReceiptsIssuedWithinLog(h, run, agent);
    forall i | 0 <= i < |s.receiptRefs| ensures ReceiptCited(receipts, s.receiptRefs[i], s.createdRunSeq) {
      assert ReceiptRefHolds(receipts, s.receiptRefs[i]);
      ReceiptRefIsCited(receipts, s.receiptRefs[i], s.createdRunSeq);
    }
    forall i | 0 <= i < |s.artifactRefs| ensures ArtifactCited(receipts, s.artifactRefs[i], s.createdRunSeq) {
      assert ArtifactRefHolds(receipts, s.artifactRefs[i]);
      ArtifactRefIsCited(receipts, s.artifactRefs[i], s.createdRunSeq);
    }
  }

  lemma ReceiptsIssuedWithinLog(h: Hashing, run: Run, agent: string)
    requires Consistent(h, run) && agent in run.eligible
    ensures forall j | 0 <= j < |run.receipts[agent]| :: run.receipts[agent][j].base.issuedRunSeq <= |run.events|
  {
    hide LogConsistent, SubmissionsConsistent, Acknowledged, DistinctKeys, Described;
    assert AgentConsistent(h, run.drawn, |run.events|, agent, run.eligible[agent], run.receipts[agent],
                           run.acknowledgements[agent]);
  }

  lemma ReceiptRefIsCited(receipts: seq<Receipt>, ref: ReceiptRef, createdRunSeq: nat)
    requires ReceiptRefHolds(receipts, ref)
    requires forall j | 0 <= j < |receipts| :: receipts[j].base.issuedRunSeq < createdRunSeq
    ensures ReceiptCited(receipts, ref, createdRunSeq)
  {
    var p := (r: Receipt) => r.base.id == ref.receiptId;
    var first := Keep(p, receipts)[0];
    KeepMembers(p, receipts, first);
    var j :| 0 <= j < |receipts| && receipts[j] == first;
    assert CitesReceipt(receipts[j], ref, createdRunSeq);
  }

  lemma ArtifactRefIsCited(receipts: seq<Receipt>, ref: ArtifactRef, createdRunSeq: nat)
    requires ArtifactRefHolds(receipts, ref)
    requires forall j | 0 <= j < |receipts| :: receipts[j].base.issuedRunSeq < createdRunSeq
    ensures ArtifactCited(receipts, ref, createdRunSeq)
  {
    var p := (r: Receipt) => r.base.disclosed.kind == ArtifactKind
                             && r.base.disclosed.resourceId == ref.artifactId
                             && r.base.disclosed.resourceVersion == ref.artifactVersionId;
    var first := Keep(p, receipts)[0];
    KeepMembers(p, receipts, first);
    var j :| 0 <= j < |receipts| && receipts[j] == first;
    assert CitesArtifact(receipts[j], ref, createdRunSeq);
  }

  lemma SubmitKeeps(h: Hashing, run: Run, op: Op)
    requires op.Submit? && Consistent(h, run) && Legal(run, op)
    ensures Consistent(h, Apply(h, run, op))
  {
    hide EventsChained, CitedBefore, AgentConsistent, StreamKnown, NewResource;
    ConsistentKeys(h, run);
    var after := Apply(h, run, op);
    if after != run {
      var resource := SubmissionResource(op.submissionId, op.revisionNo, op.body);
      var input := SubmissionInput(op.agent, op.submissionId, op.body);
      var recipients := [op.agent] + op.recipients;
      PublishKeeps(h, run, input, resource, recipients, op.submitDraw);
      var published := Publish(h, run, input, resource, recipients, op.submitDraw);
      HeldReferencesAreCitedBefore(h, run, op.agent, after.submissions[op.submissionId]);
      hide Publish;
      assert LogConsistent(h, after);
      assert AgentsConsistent(h, after);
    }
  }

  /** Every legal building block keeps the record consistent. */
  lemma ApplyKeeps(h: Hashing, run: Run, op: Op)
    requires Consistent(h, run) && Legal(run, op)
    ensures Consistent(h, Apply(h, run, op))
  {
    hide Consistent, NewResource, Sync, Publish;
    match op
    case Join(slotId, roleSlotId, assignmentId, actorId, draw) => JoinKeeps(h, run, slotId, roleSlotId, assignmentId, actorId, draw);
    case Start(actorId, draw) =>
      var started := run.(info := run.info.(state := Running, version := run.info.version + 1, startedAt := Some(draw.time)));
      InfoDoesNotMatter(h, run, started.info);
      AppendRunEventKeeps(h, started, EventInput(RunStream, run.id, "run.started", false, actorId, None, ""), draw);
    case TakeId(id) => TakeIdKeeps(h, run, id);
    case Emit(input, draw) =>
      OtherStreamKnown(run, input);
      AppendRunEventKeeps(h, run, input, draw);
    case PublishResource(input, resource, recipients, draw) => PublishKeeps(h, run, input, resource, recipients, draw);
    case Submit(_, _, _, _, _, _, _, _) => SubmitKeeps(h, run, op);
    case Synchronise(agent, after, ack, maxItems, draws) =>
      if HasRecord(run, agent) && Sync(h, run, agent, after, ack, maxItems, draws).Ok? {
        SyncKeeps(h, run, agent, after, ack, maxItems, draws);
      }
  }

  /** Over every legal history of commands, from any consistent run and so from its creation. */
  lemma {:induction false} HistoryIsConsistent(h: Hashing, run: Run, ops: seq<Op>)
    requires Consistent(h, run) && AllLegal(h, run, ops)
    ensures Consistent(h, ApplyAll(h, run, ops))
    decreases |ops|
  {
    hide Consistent, Legal, Apply;
    if ops != [] {
      ApplyKeeps(h, run, ops[0]);
      HistoryIsConsistent(h, Apply(h, run, ops[0]), ops[1..]);
    }
  }

  // --- Exactly-once, in-order delivery -----------------------------------------------------------------

  function Least(a: int, b: int): int
  {
    if a <= b then a else b
  }

  function Disclosed(receipts: seq<Receipt>): seq<Disclosure>
  {
    seq(|receipts|, i requires 0 <= i < |receipts| => receipts[i].base.disclosed)
  }

  /** In every reachable state an agent has received exactly a prefix of what it may receive, in order
      and each entry once. */
  lemma ReceiptsAreAPrefix(h: Hashing, run: Run, ops: seq<Op>, agent: string)
    requires Consistent(h, run) && AllLegal(h, run, ops) && agent in ApplyAll(h, run, ops).eligible
    ensures var after := ApplyAll(h, run, ops);
            && agent in after.receipts
            && Disclosed(after.receipts[agent]) <= after.eligible[agent]
            && DistinctKeys(after.eligible[agent])
  {
    hide Consistent, AllLegal, ApplyAll;
    HistoryIsConsistent(h, run, ops);
    var after := ApplyAll(h, run, ops);
    ConsistentAgent(h, after, agent);
  }

  lemma ConsistentAgent(h: Hashing, run: Run, agent: string)
    requires Consistent(h, run) && agent in run.eligible
    ensures HasRecord(run, agent)
    ensures AgentConsistent(h, run.drawn, |run.events|, agent, run.eligible[agent], run.receipts[agent],
                            run.acknowledgements[agent])
  {
    hide LogConsistent, SubmissionsConsistent, AgentConsistent;
  }

  lemma AcknowledgeFrame(h: Hashing, run: Run, agent: string, ack: Ack, draw: Draw)
    requires HasRecord(run, agent) && Acknowledge(h, run, agent, ack, draw).Ok?
    ensures Acknowledge(h, run, agent, ack, draw).value.eligible == run.eligible
    ensures Acknowledge(h, run, agent, ack, draw).value.info == run.info
  {
  }

  lemma IssuePendingDelivers(h: Hashing, run: Run, agent: string, maxItems: nat, draws: SyncDraws)
    requires Consistent(h, run) && HasRecord(run, agent)
    ensures |run.receipts[agent]| <= |run.eligible[agent]|
    ensures var done := IssuePending(h, run, agent, maxItems, draws);
            var (n, c) := (|run.eligible[agent]|, |run.receipts[agent]|);
            && done.eligible == run.eligible && done.info == run.info
            && |done.receipts[agent]| == c + Least(n - c, maxItems)
            && |Pending(run, agent)| == n - c
            && Disclosed(done.receipts[agent]) == run.eligible[agent][..|done.receipts[agent]|]
  {
    hide Consistent, AgentsConsistent, IssueUpTo, Pending, Disclosed;
    ConsistentAgents(h, run);
    PendingIsASuffix(h, run, agent);
    var selected := Selected(Pending(run, agent), maxItems);
    IssueUpToKeeps(h, run, agent, selected, |selected|, draws);
    var done := IssuePending(h, run, agent, maxItems, draws);
    ReceiptedPrefix(h, done, agent);
  }

  /** What a synchronisation at cursor `after` is to deliver and to report. */
  ghost predicate Delivers(run: Run, agent: string, after: nat, maxItems: nat, done: Run, batch: Batch)
    requires HasRecord(run, agent)
  {
    var n := |run.eligible[agent]|;
    && done.eligible == run.eligible && done.info == run.info
    && after == |run.receipts[agent]| <= n
    && agent in done.receipts
    && |done.receipts[agent]| == after + Least(n - after, maxItems)
    && run.receipts[agent] + batch.receipts == done.receipts[agent]
    && Disclosed(batch.receipts) == run.eligible[agent][after..after + |batch.receipts|]
    && (batch.hasMore <==> |done.receipts[agent]| < n)
    && batch.throughReceiptSeq == |done.receipts[agent]| && batch.runCursor == |done.events|
    && batch.receiptHeadHash == HeadOf(done.receipts[agent])
    && (batch.fromReceiptSeq == if batch.receipts == [] then None else Some(after + 1))
  }

  /** One synchronisation delivers the next entries in order, as many as allowed or as there are, and
      reports more exactly when some remain. */
  lemma SyncDelivers(h: Hashing, run: Run, agent: string, after: nat, ack: Option<Ack>, maxItems: nat, draws: SyncDraws)
    requires Consistent(h, run) && HasRecord(run, agent)
    requires Sync(h, run, agent, after, ack, maxItems, draws).Ok?
    ensures var (done, batch) := Sync(h, run, agent, after, ack, maxItems, draws).value;
            Delivers(run, agent, after, maxItems, done, batch)
  {
    hide Consistent, IssuePending, Acknowledge, Pending;
    var acknowledged := if ack.Some? then Acknowledge(h, run, agent, ack.value, draws.ack).value else run;
    if ack.Some? {
      AcknowledgeKeeps(h, run, agent, ack.value, draws.ack);
      AcknowledgeFrame(h, run, agent, ack.value, draws.ack);
    }
    ConsistentKeys(h, acknowledged);
    IssuePendingDelivers(h, acknowledged, agent, maxItems, draws);
    var done := IssuePending(h, acknowledged, agent, maxItems, draws);
    var batch := done.receipts[agent][after..];
    assert Disclosed(batch) == Disclosed(done.receipts[agent])[after..];
  }

  lemma ReceiptedPrefix(h: Hashing, run: Run, agent: string)
    requires Consistent(h, run) && agent in run.eligible
    ensures agent in run.receipts && |run.receipts[agent]| <= |run.eligible[agent]|
    ensures Disclosed(run.receipts[agent]) == run.eligible[agent][..|run.receipts[agent]|]
  {
    hide Consistent, Acknowledged, DistinctKeys, Described;
    ConsistentAgent(h, run, agent);
  }

  /** `k` synchronisations of at most `m` entries each, at the cursor the service reported. */
  function SyncTimes(h: Hashing, run: Run, agent: string, m: nat, k: nat, draws: nat -> SyncDraws): Run
  {
    if k == 0 then run
    else
      var before := SyncTimes(h, run, agent, m, k - 1, draws);
      if !HasRecord(before, agent) then before
      else match Sync(h, before, agent, |before.receipts[agent]|, None, m, draws(k - 1))
        case Err(_) => before
        case Ok(done) => done.0
  }

  /** Draining: `k` synchronisations of size `m` deliver min(n, k·m) of `n` pending entries. */
  lemma {:induction false} DrainDeliversAll(h: Hashing, run: Run, agent: string, m: nat, k: nat, draws: nat -> SyncDraws)
    requires Consistent(h, run) && agent in run.eligible && run.info.state == Running
    ensures Drained(h, run, SyncTimes(h, run, agent, m, k, draws), agent, k * m)
  {
    hide Consistent, Sync, Drained;
    if k == 0 {
      NothingDrained(h, run, agent);
    } else {
      DrainDeliversAll(h, run, agent, m, k - 1, draws);
      var before := SyncTimes(h, run, agent, m, k - 1, draws);
      DrainedIsKnown(h, run, before, agent, (k - 1) * m);
      SyncAtCursorSucceeds(h, before, agent, m, draws(k - 1));
      ProductNotNegative(k - 1, m);
      SyncDrainsMore(h, run, before, agent, (k - 1) * m, m, draws(k - 1));
      assert k * m == (k - 1) * m + m;
    }
  }

  lemma ProductNotNegative(a: nat, b: nat)
    ensures a * b >= 0
  {
  }

  lemma NothingDrained(h: Hashing, run: Run, agent: string)
    requires Consistent(h, run) && agent in run.eligible
    ensures Drained(h, run, run, agent, 0)
  {
    hide Consistent;
    ConsistentKeys(h, run);
  }

  lemma DrainedIsKnown(h: Hashing, run: Run, before: Run, agent: string, most: int)
    requires Drained(h, run, before, agent, most)
    ensures HasRecord(before, agent) && before.info == run.info
  {
    hide Consistent;
    ConsistentKeys(h, before);
  }

  lemma SyncDrainsMore(h: Hashing, run: Run, before: Run, agent: string, most: int, m: nat, draws: SyncDraws)
    requires most >= 0 && Drained(h, run, before, agent, most) && HasRecord(before, agent)
    requires Sync(h, before, agent, |before.receipts[agent]|, None, m, draws).Ok?
    ensures Drained(h, run, Sync(h, before, agent, |before.receipts[agent]|, None, m, draws).value.0, agent, most + m)
  {
    hide Consistent, Sync, Disclosed;
    SyncKeeps(h, before, agent, |before.receipts[agent]|, None, m, draws);
    SyncDelivers(h, before, agent, |before.receipts[agent]|, None, m, draws);
  }

  /** From `run` to `after`, the agent received `most` pending entries or all there were. */
  ghost predicate Drained(h: Hashing, run: Run, after: Run, agent: string, most: int)
  {
    && Consistent(h, after) && after.eligible == run.eligible && after.info == run.info
    && agent in run.eligible && agent in run.receipts && agent in after.receipts
    && |run.receipts[agent]| <= |run.eligible[agent]|
    && |after.receipts[agent]| == |run.receipts[agent]| + Least(|run.eligible[agent]| - |run.receipts[agent]|, most)
  }

  lemma SyncAtCursorSucceeds(h: Hashing, run: Run, agent: string, m: nat, draws: SyncDraws)
    requires HasRecord(run, agent) && run.info.state == Running
    ensures Sync(h, run, agent, |run.receipts[agent]|, None, m, draws).Ok?
  {
  }

  // --- The event-chain verifier ----------------------------------------------------------------------------

  /** What the event verifier checks: previous hashes link up and every hash is right. */
  ghost predicate EventsVerify(h: Hashing, events: seq<Event>)
  {
    forall i | 0 <= i < |events| :: EventVerifies(h, events, i)
  }

  ghost predicate EventVerifies(h: Hashing, events: seq<Event>, i: nat)
    requires i < |events|
  {
    events[i].base.previousHash == PreviousHash(events, i) && h.event(events[i].base) == events[i].eventHash
  }

  method VerifyEventChain(h: Hashing, events: seq<Event>) returns (verified: bool)
    ensures verified <==> EventsVerify(h, events)
  {
    var previousHash := ZERO_HASH;
    var i := 0;
    while i < |events|
      invariant 0 <= i <= |events|
      invariant previousHash == PreviousHash(events, i)
      invariant forall j | 0 <= j < i :: EventVerifies(h, events, j)
    {
      var event := events[i];
      assert EventVerifies(h, events, i) <==> event.base.previousHash == previousHash && h.event(event.base) == event.eventHash;
      if event.base.previousHash != previousHash { return false; }
      if h.event(event.base) != event.eventHash { return false; }
      previousHash := event.eventHash;
      i := i + 1;
    }
    return true;
  }

  /** The log up to run sequence number `r`. */
  function EventsAt(run: Run, r: nat): seq<Event>
  {
    Keep((e: Event) => e.base.runSeq <= r, run.events)
  }

  lemma EventsAtIsPrefix(h: Hashing, run: Run, r: nat)
    requires EventsChained(h, run.events) && r <= |run.events|
    ensures EventsAt(run, r) == run.events[..r]
  {
    hide Keep;
    var p := (e: Event) => e.base.runSeq <= r;
    var before, after := run.events[..r], run.events[r..];
    assert run.events == before + after;
    KeepAppend(p, before, after);
    forall i | 0 <= i < |before| ensures p(before[i]) { assert ChainedAt(h, run.events, i); }
    forall i | 0 <= i < |after| ensures !p(after[i]) { assert ChainedAt(h, run.events, r + i); }
    KeepAll(p, before);
    KeepNone(p, after);
  }

  /** The event verifier accepts every cut of every consistent run. */
  lemma EventVerifierAccepts(h: Hashing, run: Run, r: nat)
    requires Consistent(h, run) && r <= |run.events|
    ensures EventsVerify(h, EventsAt(run, r))
  {
    EventsAtIsPrefix(h, run, r);
    var cut := run.events[..r];
    forall i | 0 <= i < |cut| ensures EventVerifies(h, cut, i) {
      assert ChainedAt(h, run.events, i);
    }
  }

  /** At no position do the two logs hold different events with the same hash. */
  ghost predicate NoCollision(h: Hashing, a: seq<Event>, b: seq<Event>)
    requires |a| == |b|
  {
    forall i | 0 <= i < |a| && h.event(a[i].base) == h.event(b[i].base) :: a[i].base == b[i].base
  }

  /** Two verified logs of the same length with the same head are the same log if and only if there is no
      collision of the hash among their own events, position by position: the head commits to the log. */
  lemma {:induction false} HeadCommitsToLog(h: Hashing, a: seq<Event>, b: seq<Event>)
    requires EventsVerify(h, a) && EventsVerify(h, b) && |a| == |b|
    requires PreviousHash(a, |a|) == PreviousHash(b, |b|)
    ensures a == b <==> NoCollision(h, a, b)
    decreases |a|
  {
    if a != [] && NoCollision(h, a, b) {
      var n := |a| - 1;
      assert EventVerifies(h, a, n) && EventVerifies(h, b, n);
      forall i | 0 <= i < n ensures EventVerifies(h, a[..n], i) && EventVerifies(h, b[..n], i) {
        assert EventVerifies(h, a, i) && EventVerifies(h, b, i);
      }
      assert a[n].base == b[n].base;
      HeadCommitsToLog(h, a[..n], b[..n]);
      assert a == a[..n] + [a[n]] && b == b[..n] + [b[n]];
    }
  }

  // --- The receipt-chain verifier --------------------------------------------------------------------------

  /** What the receipt verifier checks of one agent's receipts, sorted by sequence number. */
  ghost predicate ReceiptVerifies(h: Hashing, scoped: seq<Receipt>, i: nat)
    requires i < |scoped|
  {
    && scoped[i].base.agentReceiptSeq == i + 1
    && scoped[i].base.previousReceiptHash == HeadOf(scoped[..i])
    && h.receipt(scoped[i].base) == scoped[i].receiptHash
  }

  ghost predicate ChainVerifies(h: Hashing, scoped: seq<Receipt>)
  {
    forall i | 0 <= i < |scoped| :: ReceiptVerifies(h, scoped, i)
  }

  function InsertBySequence(r: Receipt, sorted: seq<Receipt>): seq<Receipt>
  {
    if sorted == [] || r.base.agentReceiptSeq <= sorted[0].base.agentReceiptSeq then [r] + sorted
    else [sorted[0]] + InsertBySequence(r, sorted[1..])
  }

  /** The stable sort by receipt sequence number. */
  function BySequence(receipts: seq<Receipt>): seq<Receipt>
  {
    if receipts == [] then [] else InsertBySequence(receipts[0], BySequence(receipts[1..]))
  }

  lemma {:induction false} SortedStays(receipts: seq<Receipt>)
    requires forall i, j | 0 <= i < j < |receipts| :: receipts[i].base.agentReceiptSeq < receipts[j].base.agentReceiptSeq
    ensures BySequence(receipts) == receipts
  {
    if receipts != [] {
      SortedStays(receipts[1..]);
      assert receipts == [receipts[0]] + receipts[1..];
    }
  }

  function Of(agent: string): Receipt -> bool
  {
    (r: Receipt) => r.base.runAgentId == agent
  }

  ghost predicate ReceiptsVerify(h: Hashing, receipts: seq<Receipt>)
  {
    forall agent: string :: ChainVerifies(h, BySequence(Keep(Of(agent), receipts)))
  }

  method VerifyOneChain(h: Hashing, scoped: seq<Receipt>) returns (verified: bool)
    ensures verified <==> ChainVerifies(h, scoped)
  {
    var previousHash := ZERO_HASH;
    var expectedSequence := 1;
    var i := 0;
    while i < |scoped|
      invariant 0 <= i <= |scoped| && expectedSequence == i + 1
      invariant previousHash == HeadOf(scoped[..i])
      invariant forall j | 0 <= j < i :: ReceiptVerifies(h, scoped, j)
    {
      var receipt := scoped[i];
      if receipt.base.agentReceiptSeq != expectedSequence || receipt.base.previousReceiptHash != previousHash {
        assert !ReceiptVerifies(h, scoped, i);
        return false;
      }
      if h.receipt(receipt.base) != receipt.receiptHash {
        assert !ReceiptVerifies(h, scoped, i);
        return false;
      }
      assert ReceiptVerifies(h, scoped, i);
      previousHash := receipt.receiptHash;
      expectedSequence := expectedSequence + 1;
      i := i + 1;
      assert scoped[..i][i - 1] == receipt;
    }
    return true;
  }

  /** Receipts grouped by agent, each group sorted and checked. */
  method VerifyReceiptChains(h: Hashing, receipts: seq<Receipt>) returns (verified: bool)
    ensures verified <==> ReceiptsVerify(h, receipts)
  {
    hide ChainVerifies, Keep, BySequence;
    var byAgent: map<string, seq<Receipt>> := map[];
    var i := 0;
    GroupNothing();
    while i < |receipts|
      invariant 0 <= i <= |receipts|
      invariant Grouped(receipts[..i], byAgent)
    {
      var receipt := receipts[i];
      var agent := receipt.base.runAgentId;
      GroupOneMore(receipts, i, byAgent);
      byAgent := byAgent[agent := (if agent in byAgent then byAgent[agent] else []) + [receipt]];
      i := i + 1;
    }
    assert receipts[..i] == receipts;
    var remaining := byAgent.Keys;
    while remaining != {}
      invariant remaining <= byAgent.Keys
      invariant forall a | a in byAgent.Keys - remaining :: ChainVerifies(h, BySequence(byAgent[a]))
      decreases |remaining|
    {
      var agent :| agent in remaining;
      var ok := VerifyOneChain(h, BySequence(byAgent[agent]));
      if !ok { return false; }
      remaining := remaining - {agent};
    }
    forall agent ensures ChainVerifies(h, BySequence(Keep(Of(agent), receipts))) {
      if agent !in byAgent { NothingVerifies(h, receipts, agent); }
    }
    return true;
  }

  ghost predicate Grouped(receipts: seq<Receipt>, byAgent: map<string, seq<Receipt>>)
  {
    forall agent :: if agent in byAgent then byAgent[agent] == Keep(Of(agent), receipts) else Keep(Of(agent), receipts) == []
  }

  lemma GroupNothing()
    ensures Grouped([], map[])
  {
  }

  lemma GroupOneMore(receipts: seq<Receipt>, i: nat, byAgent: map<string, seq<Receipt>>)
    requires i < |receipts| && Grouped(receipts[..i], byAgent)
    ensures var agent := receipts[i].base.runAgentId;
            Grouped(receipts[..i + 1], byAgent[agent := (if agent in byAgent then byAgent[agent] else []) + [receipts[i]]])
  {
    assert receipts[..i + 1][..i] == receipts[..i];
  }

  lemma NothingVerifies(h: Hashing, receipts: seq<Receipt>, agent: string)
    requires Keep(Of(agent), receipts) == []
    ensures ChainVerifies(h, BySequence(Keep(Of(agent), receipts)))
  {
  }

  /** An agent's receipts issued up to run sequence number `r`. */
  function IssuedAt(receipts: seq<Receipt>, r: nat): seq<Receipt>
  {
    Keep((x: Receipt) => x.base.issuedRunSeq <= r, receipts)
  }

  ghost predicate IssuedInOrder(receipts: seq<Receipt>)
  {
    forall i, j | 0 <= i < j < |receipts| :: receipts[i].base.issuedRunSeq < receipts[j].base.issuedRunSeq
  }

  /** The cut of an agent's receipts is a prefix of them. */
  lemma {:induction false} IssuedAtIsPrefix(receipts: seq<Receipt>, r: nat) returns (c: nat)
    requires IssuedInOrder(receipts)
    ensures c <= |receipts| && IssuedAt(receipts, r) == receipts[..c]
    ensures c < |receipts| ==> r < receipts[c].base.issuedRunSeq
    decreases |receipts|
  {
    if receipts == [] {
      c := 0;
    } else {
      var n := |receipts| - 1;
      var init := receipts[..n];
      c := IssuedAtIsPrefix(init, r);
      IssuedAtLast(receipts, r);
      hide IssuedAt;
      assert receipts == init + [receipts[n]];
      if receipts[n].base.issuedRunSeq <= r {
        assert c == n;
        c := n + 1;
        assert receipts[..c] == receipts;
      } else {
        assert init[..c] == receipts[..c];
      }
    }
  }

  lemma IssuedAtLast(receipts: seq<Receipt>, r: nat)
    requires receipts != []
    ensures var init, last := receipts[..|receipts| - 1], receipts[|receipts| - 1];
      IssuedAt(receipts, r) == IssuedAt(init, r) + (if last.base.issuedRunSeq <= r then [last] else [])
  {
  }

  /** All receipts of the listed agents up to `r`, one agent after the other. */
  function ReceiptsAt(run: Run, agents: seq<string>, r: nat): seq<Receipt>
  {
    if agents == [] then []
    else
      var last := agents[|agents| - 1];
      ReceiptsAt(run, agents[..|agents| - 1], r) + (if last in run.receipts then IssuedAt(run.receipts[last], r) else [])
  }

  lemma {:induction false} ReceiptsOfOneAgent(h: Hashing, run: Run, agents: seq<string>, r: nat, agent: string)
    requires Consistent(h, run) && Distinct(agents)
    ensures Keep(Of(agent), ReceiptsAt(run, agents, r))
         == if agent in agents && agent in run.receipts then IssuedAt(run.receipts[agent], r) else []
    decreases |agents|
  {
    hide Consistent, Keep, IssuedAt;
    if agents == [] {
      KeepNone(Of(agent), ReceiptsAt(run, agents, r));
    } else {
      var init, last := agents[..|agents| - 1], agents[|agents| - 1];
      ReceiptsOfOneAgent(h, run, init, r, agent);
      assert agents == init + [last];
      assert last !in init;
      var more := if last in run.receipts then IssuedAt(run.receipts[last], r) else [];
      KeepAppend(Of(agent), ReceiptsAt(run, init, r), more);
      KeptOfAgent(h, run, last, r, agent);
      hide ReceiptsAt;
    }
  }

  lemma KeptOfAgent(h: Hashing, run: Run, last: string, r: nat, agent: string)
    requires Consistent(h, run)
    ensures var more := if last in run.receipts then IssuedAt(run.receipts[last], r) else [];
            Keep(Of(agent), more) == if last == agent then more else []
  {
    hide Consistent, Keep, IssuedAt;
    var more := if last in run.receipts then IssuedAt(run.receipts[last], r) else [];
    if last in run.receipts { IssuedAtBelongsTo(h, run, last, r); }
    if last == agent { KeepAll(Of(agent), more); } else { KeepNone(Of(agent), more); }
  }

  lemma IssuedAtBelongsTo(h: Hashing, run: Run, agent: string, r: nat)
    requires Consistent(h, run) && agent in run.receipts
    ensures forall i | 0 <= i < |IssuedAt(run.receipts[agent], r)| :: IssuedAt(run.receipts[agent], r)[i].base.runAgentId == agent
  {
    hide LogConsistent, SubmissionsConsistent, Acknowledged, DistinctKeys, Described, Keep;
    var receipts := run.receipts[agent];
    assert AgentConsistent(h, run.drawn, |run.events|, agent, run.eligible[agent], receipts, run.acknowledgements[agent]);
    var c := IssuedAtIsPrefix(receipts, r);
  }

  lemma AgentChainVerifiesAt(h: Hashing, run: Run, agent: string, r: nat)
    requires Consistent(h, run) && agent in run.receipts
    ensures ChainVerifies(h, BySequence(IssuedAt(run.receipts[agent], r)))
  {
    hide LogConsistent, SubmissionsConsistent, Acknowledged, DistinctKeys, Described, Keep, BySequence;
    var receipts := run.receipts[agent];
    assert AgentConsistent(h, run.drawn, |run.events|, agent, run.eligible[agent], receipts, run.acknowledgements[agent]);
    var c := IssuedAtIsPrefix(receipts, r);
    var cut := receipts[..c];
    SortedStays(cut);
    forall i | 0 <= i < |cut| ensures ReceiptVerifies(h, cut, i) {
      assert cut[..i] == receipts[..i];
    }
  }

  /** The receipt verifier accepts every cut of every consistent run, across all its agents. */
  lemma ReceiptVerifierAccepts(h: Hashing, run: Run, agents: seq<string>, r: nat)
    requires Consistent(h, run) && Distinct(agents)
    ensures ReceiptsVerify(h, ReceiptsAt(run, agents, r))
  {
    hide Consistent, ChainVerifies, BySequence, Keep;
    forall agent: string ensures ChainVerifies(h, BySequence(Keep(Of(agent), ReceiptsAt(run, agents, r)))) {
      ReceiptsOfOneAgent(h, run, agents, r, agent);
      if agent in agents && agent in run.receipts {
        AgentChainVerifiesAt(h, run, agent, r);
      } else {
        NothingVerifies(h, ReceiptsAt(run, agents, r), agent);
      }
    }
  }

  /** Source, issue and acknowledgement happen in this order; acknowledgements strictly increase; and a
      submission cites only receipts its author had been issued before it. */
  lemma OrderOfEvidence(h: Hashing, run: Run, ops: seq<Op>, agent: string, k: nat, j: nat)
    requires Consistent(h, run) && AllLegal(h, run, ops)
    requires agent in ApplyAll(h, run, ops).acknowledgements && k < |ApplyAll(h, run, ops).acknowledgements[agent]|
    requires j < ApplyAll(h, run, ops).acknowledgements[agent][k].throughReceiptSeq
    ensures var after := ApplyAll(h, run, ops);
            var acknowledgements := after.acknowledgements[agent];
            && agent in after.receipts && j < |after.receipts[agent]|
            && var r := after.receipts[agent][j].base;
            && r.disclosed.sourceRunSeq < r.issuedRunSeq < acknowledgements[k].acknowledgedRunSeq <= |after.events|
            && (k > 0 ==> acknowledgements[k - 1].throughReceiptSeq < acknowledgements[k].throughReceiptSeq)
  {
    hide Consistent, AllLegal, ApplyAll, DistinctKeys, Described;
    HistoryIsConsistent(h, run, ops);
    var after := ApplyAll(h, run, ops);
    ConsistentKeys(h, after);
    ConsistentAgent(h, after, agent);
    var through := after.acknowledgements[agent][k].throughReceiptSeq;
    assert j == through - 1 || after.receipts[agent][j].base.issuedRunSeq < after.receipts[agent][through - 1].base.issuedRunSeq;
  }

  lemma SubmissionsCiteEarlierReceipts(h: Hashing, run: Run, ops: seq<Op>, id: string)
    requires Consistent(h, run) && AllLegal(h, run, ops) && id in ApplyAll(h, run, ops).submissions
    ensures var after := ApplyAll(h, run, ops);
            var s := after.submissions[id];
            s.actorRunAgentId in after.receipts && CitedBefore(after.receipts[s.actorRunAgentId], |after.events|, s)
  {
    hide AllLegal, ApplyAll, CitedBefore, LogConsistent, AgentsConsistent;
    HistoryIsConsistent(h, run, ops);
  }
}
