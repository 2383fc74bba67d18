/** What every command keeps true of a run's record, and what follows for chains and delivery. */
module RunInvariant {
  import opened Outcomes
  import opened Sequences
  import opened Digits
  import opened RunLog

  // --- The invariant -----------------------------------------------------------------------------

  function PreviousHash(events: seq<Event>, i: nat): string
    requires i <= |events|
  {
    if i == 0 then ZERO_HASH else events[i - 1].eventHash
  }

  ghost predicate ChainedAt(h: Hashing, events: seq<Event>, i: nat)
    requires i < |events|
  {
    && events[i].base.runSeq == i + 1
    && events[i].base.previousHash == PreviousHash(events, i)
    && events[i].eventHash == h.event(events[i].base)
  }

  ghost predicate EventsChained(h: Hashing, events: seq<Event>)
  {
    forall i | 0 <= i < |events| :: ChainedAt(h, events, i)
  }

  /** An eligible entry describes its snapshot and stems from an event already in the log. */
  ghost predicate Described(drawn: set<string>, length: nat, d: Disclosure)
  {
    && d.kind == d.snapshot.Kind() && d.resourceId == d.snapshot.Id() && d.resourceVersion == d.snapshot.Version()
    && NoColon(d.resourceId)
    && 1 <= d.sourceRunSeq <= length
    && match d.kind
       case TaskKind => true
       case ArtifactKind => d.resourceVersion in drawn
       case _ => d.resourceId in drawn
  }

  ghost predicate DistinctKeys(eligible: seq<Disclosure>)
  {
    forall i, j | 0 <= i < j < |eligible| :: Key(eligible[i]) != Key(eligible[j])
  }

  /** The receipts are the image of a prefix of the eligible entries, chained and in rising order. */
  ghost predicate Receipted(h: Hashing, agent: string, length: nat, eligible: seq<Disclosure>, receipts: seq<Receipt>)
  {
    && |receipts| <= |eligible|
    && (forall j | 0 <= j < |receipts| ::
          var r := receipts[j];
          && r.base.disclosed == eligible[j]
          && r.base.runAgentId == agent && r.base.agentReceiptSeq == j + 1
          && r.base.previousReceiptHash == HeadOf(receipts[..j]) && r.receiptHash == h.receipt(r.base)
          && eligible[j].sourceRunSeq < r.base.issuedRunSeq <= length)
    && (forall i, j | 0 <= i < j < |receipts| :: receipts[i].base.issuedRunSeq < receipts[j].base.issuedRunSeq)
  }

  /** Acknowledgements rise strictly, each covering receipts issued before it. */
  ghost predicate Acknowledged(length: nat, receipts: seq<Receipt>, acknowledgements: seq<Acknowledgement>)
  {
    && (forall k | 0 <= k < |acknowledgements| ::
          var a := acknowledgements[k];
          && 1 <= a.throughReceiptSeq <= |receipts|
          && a.headHash == receipts[a.throughReceiptSeq - 1].receiptHash
          && receipts[a.throughReceiptSeq - 1].base.issuedRunSeq < a.acknowledgedRunSeq <= length)
    && (forall i, k | 0 <= i < k < |acknowledgements| ::
          && acknowledgements[i].throughReceiptSeq < acknowledgements[k].throughReceiptSeq
          && acknowledgements[i].acknowledgedRunSeq < acknowledgements[k].acknowledgedRunSeq)
  }

  ghost predicate AgentConsistent(h: Hashing, drawn: set<string>, length: nat, agent: string, eligible: seq<Disclosure>,
                                  receipts: seq<Receipt>, acknowledgements: seq<Acknowledgement>)
  {
    && (forall i | 0 <= i < |eligible| :: Described(drawn, length, eligible[i]))
    && DistinctKeys(eligible)
    && Receipted(h, agent, length, eligible, receipts)
    && Acknowledged(length, receipts, acknowledgements)
  }

  /** Every event is about something stored; the feedback stream alone may concern grants. */
  ghost predicate StreamKnown(messages: set<string>, artifacts: set<string>, drawn: set<string>, input: EventInput)
  {
    match input.stream
    case MessageStream => input.streamId in messages
    case ArtifactStream => input.streamId in artifacts
    case FeedbackStream => input.streamId in drawn
    case _ => true
  }

  /** Every receipt a submission cites had been issued to its author before it. */
  ghost predicate CitedBefore(receipts: seq<Receipt>, length: nat, s: Submission)
  {
    && 1 <= s.createdRunSeq <= length
    && (forall i | 0 <= i < |s.receiptRefs| ::
          ReceiptCited(receipts, s.receiptRefs[i], s.createdRunSeq))
    && (forall i | 0 <= i < |s.artifactRefs| :: ArtifactCited(receipts, s.artifactRefs[i], s.createdRunSeq))
  }

  ghost predicate ReceiptCited(receipts: seq<Receipt>, ref: ReceiptRef, createdRunSeq: nat)
  {
    exists j | 0 <= j < |receipts| :: CitesReceipt(receipts[j], ref, createdRunSeq)
  }

  ghost predicate ArtifactCited(receipts: seq<Receipt>, ref: ArtifactRef, createdRunSeq: nat)
  {
    exists j | 0 <= j < |receipts| :: CitesArtifact(receipts[j], ref, createdRunSeq)
  }

  ghost predicate CitesReceipt(r: Receipt, ref: ReceiptRef, createdRunSeq: nat)
  {
    r.base.id == ref.receiptId && r.receiptHash == ref.receiptHash && r.base.issuedRunSeq < createdRunSeq
  }

  ghost predicate CitesArtifact(r: Receipt, ref: ArtifactRef, createdRunSeq: nat)
  {
    && r.base.disclosed.kind == ArtifactKind && r.base.disclosed.resourceId == ref.artifactId
    && r.base.disclosed.resourceVersion == ref.artifactVersionId
    && r.base.disclosed.snapshot.ArtifactResource? && r.base.disclosed.snapshot.contentHash == ref.contentHash
    && r.base.issuedRunSeq < createdRunSeq
  }

  ghost predicate LogConsistent(h: Hashing, run: Run)
  {
    && EventsChained(h, run.events) && run.eventHeadHash == PreviousHash(run.events, |run.events|)
    && (forall i | 0 <= i < |run.events| :: StreamKnown(run.messages, run.artifacts, run.drawn, run.events[i].base.input))
    && run.feedback <= run.drawn
  }

  ghost predicate AgentsConsistent(h: Hashing, run: Run)
  {
    && run.eligible.Keys == run.receipts.Keys == run.acknowledgements.Keys
    && forall a | a in run.eligible ::
         AgentConsistent(h, run.drawn, |run.events|, a, run.eligible[a], run.receipts[a], run.acknowledgements[a])
  }

  ghost predicate SubmissionsConsistent(run: Run)
  {
    forall id | id in run.submissions ::
      && run.submissions[id].actorRunAgentId in run.receipts
      && CitedBefore(run.receipts[run.submissions[id].actorRunAgentId], |run.events|, run.submissions[id])
  }

  ghost predicate Consistent(h: Hashing, run: Run)
  {
    LogConsistent(h, run) && AgentsConsistent(h, run) && SubmissionsConsistent(run)
  }

  // --- Growth of the parts -------------------------------------------------------------------------

  lemma AgentConsistentLater(h: Hashing, drawn: set<string>, drawn': set<string>, m: nat, n: nat, agent: string,
                             eligible: seq<Disclosure>, receipts: seq<Receipt>, acknowledgements: seq<Acknowledgement>)
    requires AgentConsistent(h, drawn, m, agent, eligible, receipts, acknowledgements) && drawn <= drawn' && m <= n
    ensures AgentConsistent(h, drawn', n, agent, eligible, receipts, acknowledgements)
  {
  }

  lemma CitedBeforeLater(receipts: seq<Receipt>, receipts': seq<Receipt>, m: nat, n: nat, s: Submission)
    requires CitedBefore(receipts, m, s) && receipts <= receipts' && m <= n
    ensures CitedBefore(receipts', n, s)
  {
    hide CitesReceipt, CitesArtifact;
    forall i | 0 <= i < |s.receiptRefs| ensures ReceiptCited(receipts', s.receiptRefs[i], s.createdRunSeq) {
      var j :| 0 <= j < |receipts| && CitesReceipt(receipts[j], s.receiptRefs[i], s.createdRunSeq);
      assert receipts'[j] == receipts[j];
    }
    forall i | 0 <= i < |s.artifactRefs| ensures ArtifactCited(receipts', s.artifactRefs[i], s.createdRunSeq) {
      var j :| 0 <= j < |receipts| && CitesArtifact(receipts[j], s.artifactRefs[i], s.createdRunSeq);
      assert receipts'[j] == receipts[j];
    }
  }

  /** The agents' records survive anything that only lengthens the log and the set of drawn ids. */
  lemma AgentsConsistentLater(h: Hashing, before: Run, after: Run)
    requires AgentsConsistent(h, before)
    requires after.eligible == before.eligible && after.receipts == before.receipts
    requires after.acknowledgements == before.acknowledgements
    requires before.drawn <= after.drawn && |before.events| <= |after.events|
    ensures AgentsConsistent(h, after)
  {
    hide AgentConsistent;
    forall a | a in after.eligible
      ensures AgentConsistent(h, after.drawn, |after.events|, a, after.eligible[a], after.receipts[a], after.acknowledgements[a])
    {
      AgentConsistentLater(h, before.drawn, after.drawn, |before.events|, |after.events|, a, before.eligible[a],
                           before.receipts[a], before.acknowledgements[a]);
    }
  }

  lemma SubmissionsConsistentLater(before: Run, after: Run)
    requires SubmissionsConsistent(before) && after.submissions == before.submissions
    requires forall a | a in before.receipts :: a in after.receipts && before.receipts[a] <= after.receipts[a]
    requires |before.events| <= |after.events|
    ensures SubmissionsConsistent(after)
  {
    hide CitedBefore;
    forall id | id in after.submissions
      ensures after.submissions[id].actorRunAgentId in after.receipts
      ensures CitedBefore(after.receipts[after.submissions[id].actorRunAgentId], |after.events|, after.submissions[id])
    {
      var s := before.submissions[id];
      CitedBeforeLater(before.receipts[s.actorRunAgentId], after.receipts[s.actorRunAgentId], |before.events|,
                       |after.events|, s);
    }
  }

  // --- Each building block keeps it ------------------------------------------------------------------

  lemma RegisterKeeps(h: Hashing, run: Run, resource: Resource)
    requires Consistent(h, run)
    ensures Consistent(h, Register(run, resource))
  {
    hide EventsChained;
    var after := Register(run, resource);
    AgentsConsistentLater(h, run, after);
    SubmissionsConsistentLater(run, after);
    forall i | 0 <= i < |after.events| ensures StreamKnown(after.messages, after.artifacts, after.drawn, after.events[i].base.input) {
      assert StreamKnown(run.messages, run.artifacts, run.drawn, run.events[i].base.input);
    }
  }

  lemma OneMoreEvent(h: Hashing, events: seq<Event>, e: Event)
    requires EventsChained(h, events)
    requires e.base.runSeq == |events| + 1 && e.base.previousHash == PreviousHash(events, |events|)
    requires e.eventHash == h.event(e.base)
    ensures EventsChained(h, events + [e])
  {
    var after := events + [e];
    forall i | 0 <= i < |after| ensures ChainedAt(h, after, i) {
      if i < |events| { assert ChainedAt(h, events, i); }
    }
  }

  lemma AppendRunEventKeeps(h: Hashing, run: Run, input: EventInput, draw: Draw)
    requires Consistent(h, run) && StreamKnown(run.messages, run.artifacts, run.drawn, input)
    ensures Consistent(h, AppendRunEvent(h, run, input, draw))
  {
    hide EventsChained, AgentConsistent, CitedBefore;
    var after := AppendRunEvent(h, run, input, draw);
    OneMoreEvent(h, run.events, NewEvent(h, run, input, draw));
    AgentsConsistentLater(h, run, after);
    SubmissionsConsistentLater(run, after);
    forall i | 0 <= i < |after.events| ensures StreamKnown(after.messages, after.artifacts, after.drawn, after.events[i].base.input) {
      if i < |run.events| { assert StreamKnown(run.messages, run.artifacts, run.drawn, run.events[i].base.input); }
    }
  }

  lemma KindTextIsInjective(a: Kind, b: Kind)
    ensures NoColon(a.Text())
    ensures a.Text() == b.Text() ==> a == b
  {
    if a.Text() == b.Text() { assert a.Text()[0] == b.Text()[0]; }
  }

  lemma KeyParts(d: Disclosure)
    ensures Key(d) == d.kind.Text() + ":" + (d.resourceId + ":" + d.resourceVersion)
  {
    hide Kind.Text;
  }

  /** The key of a resource tells its kind, its id and its version. */
  lemma KeyIsInjective(a: Disclosure, b: Disclosure)
    requires NoColon(a.resourceId) && NoColon(b.resourceId) && Key(a) == Key(b)
    ensures a.kind == b.kind && a.resourceId == b.resourceId && a.resourceVersion == b.resourceVersion
  {
    hide Key, Kind.Text;
    var x, y := a.resourceId + ":" + a.resourceVersion, b.resourceId + ":" + b.resourceVersion;
    KeyParts(a);
    KeyParts(b);
    KindTextIsInjective(a.kind, b.kind);
    KindTextIsInjective(b.kind, a.kind);
    SplitAtColon(a.kind.Text(), x, b.kind.Text(), y);
    SplitAtColon(a.resourceId, a.resourceVersion, b.resourceId, b.resourceVersion);
  }

  /** A new resource has a key that none of an agent's eligible entries has. */
  lemma NewResourceHasNewKey(h: Hashing, run: Run, resource: Resource, agent: string, i: nat, d: Disclosure)
    requires NewResource(run, resource) && agent in run.eligible && i < |run.eligible[agent]|
    requires Described(run.drawn, |run.events|, run.eligible[agent][i])
    requires d.kind == resource.Kind() && d.resourceId == resource.Id() && d.resourceVersion == resource.Version()
    ensures Key(run.eligible[agent][i]) != Key(d)
  {
    var e := run.eligible[agent][i];
    if Key(e) == Key(d) {
      KeyIsInjective(e, d);
      if resource.TaskResource? {
        NatTextIsInjective(e.snapshot.task.lockVersion, resource.task.lockVersion);
      }
    }
  }

  // --- Publishing ------------------------------------------------------------------------------------

  lemma OneMoreEligible(h: Hashing, drawn: set<string>, length: nat, agent: string, eligible: seq<Disclosure>,
                        receipts: seq<Receipt>, acknowledgements: seq<Acknowledgement>, d: Disclosure)
    requires AgentConsistent(h, drawn, length, agent, eligible, receipts, acknowledgements)
    requires Described(drawn, length, d)
    requires forall i | 0 <= i < |eligible| :: Key(eligible[i]) != Key(d)
    ensures AgentConsistent(h, drawn, length, agent, eligible + [d], receipts, acknowledgements)
  {
    hide Key, Described, Acknowledged;
  }

  lemma AddEligibleKeeps(h: Hashing, run: Run, agent: string, d: Disclosure)
    requires Consistent(h, run) && agent in run.eligible
    requires Described(run.drawn, |run.events|, d)
    requires forall i | 0 <= i < |run.eligible[agent]| :: Key(run.eligible[agent][i]) != Key(d)
    ensures Consistent(h, AddEligible(run, agent, d))
  {
    hide EventsChained, StreamKnown, CitedBefore, Key, Described, AgentConsistent;
    var after := AddEligible(run, agent, d);
    OneMoreEligible(h, run.drawn, |run.events|, agent, run.eligible[agent], run.receipts[agent],
                    run.acknowledgements[agent], d);
    assert LogConsistent(h, after);
    assert SubmissionsConsistent(after);
    assert AgentsConsistent(h, after);
  }

  /** Making one new resource eligible to several distinct agents. */
  lemma {:induction false} AddEligibleToAllKeeps(h: Hashing, run: Run, recipients: seq<string>, d: Disclosure)
    requires Consistent(h, run) && Described(run.drawn, |run.events|, d)
    requires Distinct(recipients) && forall a | a in recipients :: a in run.eligible
    requires forall a, i | a in recipients && 0 <= i < |run.eligible[a]| :: Key(run.eligible[a][i]) != Key(d)
    ensures var after := AddEligibleToAll(run, recipients, d);
            && Consistent(h, after)
            && after == run.(eligible := after.eligible)
            && after.eligible.Keys == run.eligible.Keys
            && forall a | a in run.eligible ::
                 after.eligible[a] == if a in recipients then run.eligible[a] + [d] else run.eligible[a]
    decreases |recipients|
  {
    hide Consistent, Described, Key;
    if recipients != [] {
      var init, last := recipients[..|recipients| - 1], recipients[|recipients| - 1];
      AddEligibleToAllKeeps(h, run, init, d);
      var before := AddEligibleToAll(run, init, d);
      assert last !in init;
      assert recipients == init + [last];
      AddEligibleKeeps(h, before, last, d);
    }
  }

  lemma RegisterAndAppendCommute(h: Hashing, run: Run, input: EventInput, resource: Resource, draw: Draw)
    ensures Register(AppendRunEvent(h, run, input, draw), resource) == AppendRunEvent(h, Register(run, resource), input, draw)
  {
  }

  lemma EntryDescribed(h: Hashing, run: Run, agent: string, i: nat)
    requires Consistent(h, run) && agent in run.eligible && i < |run.eligible[agent]|
    ensures Described(run.drawn, |run.events|, run.eligible[agent][i])
  {
    hide LogConsistent, SubmissionsConsistent, Receipted, Acknowledged, DistinctKeys, Described;
    assert AgentConsistent(h, run.drawn, |run.events|, agent, run.eligible[agent], run.receipts[agent],
                           run.acknowledgements[agent]);
  }

  lemma NewResourceIsDescribed(run: Run, resource: Resource, appended: Run, d: Disclosure)
    requires NewResource(run, resource) && Register(run, resource).drawn <= appended.drawn
    requires d.snapshot == resource && d.kind == resource.Kind() && d.resourceId == resource.Id()
    requires d.resourceVersion == resource.Version() && d.sourceRunSeq == |appended.events| >= 1
    ensures Described(appended.drawn, |appended.events|, d)
  {
  }

  lemma PublishKeeps(h: Hashing, run: Run, input: EventInput, resource: Resource, recipients: seq<string>, draw: Draw)
    requires Consistent(h, run) && NewResource(run, resource)
    requires input.stream == StreamOf(resource.Kind()) && input.streamId == resource.Id()
    requires Distinct(recipients) && forall a | a in recipients :: a in run.eligible
    ensures Consistent(h, Publish(h, run, input, resource, recipients, draw))
    ensures Publish(h, run, input, resource, recipients, draw).receipts == run.receipts
    ensures |Publish(h, run, input, resource, recipients, draw).events| == |run.events| + 1
  {
    hide EventsChained, CitedBefore, Receipted, Acknowledged, DistinctKeys, NewResource, Key;
    var registered := Register(run, resource);
    var d := DisclosureOf(h, resource, NewEvent(h, run, input, draw));
    RegisterAndAppendCommute(h, run, input, resource, draw);
    RegisterKeeps(h, run, resource);
    AppendRunEventKeeps(h, registered, input, draw);
    var appended := AppendRunEvent(h, registered, input, draw);
    forall a, i | a in recipients && 0 <= i < |appended.eligible[a]| ensures Key(appended.eligible[a][i]) != Key(d) {
      EntryDescribed(h, run, a, i);
      NewResourceHasNewKey(h, run, resource, a, i, d);
    }
    NewResourceIsDescribed(run, resource, appended, d);
    hide Consistent;
    AddEligibleToAllKeeps(h, appended, recipients, d);
  }

  // --- Synchronising ---------------------------------------------------------------------------------

  ghost predicate ImageOfPrefix(eligible: seq<Disclosure>, receipts: seq<Receipt>)
  {
    |receipts| <= |eligible| && forall j | 0 <= j < |receipts| :: receipts[j].base.disclosed == eligible[j]
  }

  lemma IssuedWithinPrefix(eligible: seq<Disclosure>, receipts: seq<Receipt>, i: nat)
    requires ImageOfPrefix(eligible, receipts) && DistinctKeys(eligible) && i < |eligible|
    ensures WasIssued(receipts, Key(eligible[i])) <==> i < |receipts|
  {
    hide Key;
    if i < |receipts| {
      assert receipts[i].base.disclosed == eligible[i];
    }
  }

  lemma UnissuedSuffix(eligible: seq<Disclosure>, receipts: seq<Receipt>)
    requires ImageOfPrefix(eligible, receipts) && DistinctKeys(eligible)
    ensures Keep(NotIssued(receipts), eligible) == eligible[|receipts|..]
  {
    hide Key, WasIssued, DistinctKeys, Keep;
    var n := |receipts|;
    var open := NotIssued(receipts);
    var before, after := eligible[..n], eligible[n..];
    assert eligible == before + after;
    KeepAppend(open, before, after);
    forall i | 0 <= i < |before| ensures !open(before[i]) { IssuedWithinPrefix(eligible, receipts, i); }
    forall i | 0 <= i < |after| ensures open(after[i]) { IssuedWithinPrefix(eligible, receipts, n + i); }
    KeepNone(open, before);
    KeepAll(open, after);
  }

  /** Filtering out what was issued is the same as skipping as many entries as there are receipts. */
  lemma PendingIsASuffix(h: Hashing, run: Run, agent: string)
    requires AgentsConsistent(h, run) && agent in run.eligible
    ensures |run.receipts[agent]| <= |run.eligible[agent]|
    ensures Pending(run, agent) == run.eligible[agent][|run.receipts[agent]|..]
  {
    hide Acknowledged, Described, DistinctKeys, NotIssued, Keep;
    assert AgentConsistent(h, run.drawn, |run.events|, agent, run.eligible[agent], run.receipts[agent],
                           run.acknowledgements[agent]);
    UnissuedSuffix(run.eligible[agent], run.receipts[agent]);
  }

  lemma OneMoreReceipt(h: Hashing, agent: string, length: nat, eligible: seq<Disclosure>, receipts: seq<Receipt>, r: Receipt)
    requires Receipted(h, agent, length, eligible, receipts) && |receipts| < |eligible|
    requires r.base.disclosed == eligible[|receipts|] && r.base.runAgentId == agent
    requires r.base.agentReceiptSeq == |receipts| + 1 && r.base.previousReceiptHash == HeadOf(receipts)
    requires r.receiptHash == h.receipt(r.base)
    requires eligible[|receipts|].sourceRunSeq <= length && r.base.issuedRunSeq == length + 1
    ensures Receipted(h, agent, length + 1, eligible, receipts + [r])
  {
    var after := receipts + [r];
    forall j | 0 <= j < |after| ensures after[j].base.previousReceiptHash == HeadOf(after[..j]) {
      assert after[..j] == receipts[..j];
      if j == |receipts| { assert receipts[..j] == receipts; }
    }
  }

  lemma AcknowledgedMoreReceipts(m: nat, n: nat, receipts: seq<Receipt>, receipts': seq<Receipt>,
                                 acknowledgements: seq<Acknowledgement>)
    requires Acknowledged(m, receipts, acknowledgements) && m <= n && receipts <= receipts'
    ensures Acknowledged(n, receipts', acknowledgements)
  {
    assert forall j | 0 <= j < |receipts| :: receipts'[j] == receipts[j];
  }

  lemma AgentAfterIssue(h: Hashing, drawn: set<string>, length: nat, agent: string, eligible: seq<Disclosure>,
                        receipts: seq<Receipt>, acknowledgements: seq<Acknowledgement>, r: Receipt)
    requires AgentConsistent(h, drawn, length, agent, eligible, receipts, acknowledgements)
    requires |receipts| < |eligible| && r.base.disclosed == eligible[|receipts|] && r.base.runAgentId == agent
    requires r.base.agentReceiptSeq == |receipts| + 1 && r.base.previousReceiptHash == HeadOf(receipts)
    requires r.receiptHash == h.receipt(r.base) && r.base.issuedRunSeq == length + 1
    ensures AgentConsistent(h, drawn, length + 1, agent, eligible, receipts + [r], acknowledgements)
  {
    hide Receipted, Acknowledged, DistinctKeys;
    assert Described(drawn, length, eligible[|receipts|]);
    OneMoreReceipt(h, agent, length, eligible, receipts, r);
    AcknowledgedMoreReceipts(length, length + 1, receipts, receipts + [r], acknowledgements);
  }

  lemma IssueOneKeeps(h: Hashing, run: Run, agent: string, d: Disclosure, batchId: string, receiptId: string, draw: Draw,
                      issuedAt: int)
    requires Consistent(h, run) && agent in run.eligible
    requires var n := |run.receipts[agent]|; n < |run.eligible[agent]| && run.eligible[agent][n] == d
    ensures Consistent(h, IssueOne(h, run, agent, d, batchId, receiptId, draw, issuedAt))
  {
    hide EventsChained, StreamKnown, CitedBefore, AgentConsistent;
    var input := IssueInput(agent, receiptId, d);
    var appended := AppendRunEvent(h, run, input, draw);
    assert StreamKnown(run.messages, run.artifacts, run.drawn, input) by { OtherStreamKnown(run, input); }
    AppendRunEventKeeps(h, run, input, draw);
    var after := IssueOne(h, run, agent, d, batchId, receiptId, draw, issuedAt);
    var r := after.receipts[agent][|run.receipts[agent]|];
    AgentAfterIssue(h, run.drawn, |run.events|, agent, run.eligible[agent], run.receipts[agent], run.acknowledgements[agent], r);
    SubmissionsConsistentLater(appended, after);
    assert LogConsistent(h, after);
    assert AgentsConsistent(h, after);
  }

  lemma OtherStreamKnown(run: Run, input: EventInput)
    requires !input.stream.MessageStream? && !input.stream.ArtifactStream?
    requires input.stream.FeedbackStream? ==> input.streamId in run.drawn
    ensures StreamKnown(run.messages, run.artifacts, run.drawn, input)
  {
  }

  /** Issuing a run of pending entries in order. */
  lemma {:induction false} IssueUpToKeeps(h: Hashing, run: Run, agent: string, selected: seq<Disclosure>, n: nat,
                                          draws: SyncDraws)
    requires Consistent(h, run) && agent in run.eligible && n <= |selected|
    requires var c := |run.receipts[agent]|;
             c + |selected| <= |run.eligible[agent]| && run.eligible[agent][c..c + |selected|] == selected
    ensures var after := IssueUpTo(h, run, agent, selected, n, draws);
            Consistent(h, after) && after.eligible == run.eligible && after.info == run.info
    decreases n
  {
    hide Consistent, IssueOne;
    ConsistentKeys(h, run);
    if n > 0 {
      IssueUpToKeeps(h, run, agent, selected, n - 1, draws);
      var before := IssueUpTo(h, run, agent, selected, n - 1, draws);
      var c := |run.receipts[agent]|;
      assert run.eligible[agent][c + n - 1] == run.eligible[agent][c..c + |selected|][n - 1] == selected[n - 1];
      ConsistentKeys(h, before);
      IssueOneKeeps(h, before, agent, selected[n - 1], draws.deliveryBatchId, draws.receiptIds(n - 1),
                    draws.issuances(n - 1), draws.issuedAt(n - 1));
      IssueOneFrame(h, before, agent, selected[n - 1], draws.deliveryBatchId, draws.receiptIds(n - 1),
                    draws.issuances(n - 1), draws.issuedAt(n - 1));
    }
  }

  lemma ConsistentKeys(h: Hashing, run: Run)
    requires Consistent(h, run)
    ensures run.eligible.Keys == run.receipts.Keys == run.acknowledgements.Keys
    ensures forall a | a in run.eligible :: |run.receipts[a]| <= |run.eligible[a]|
  {
    hide LogConsistent, SubmissionsConsistent;
    forall a | a in run.eligible ensures |run.receipts[a]| <= |run.eligible[a]| {
      assert AgentConsistent(h, run.drawn, |run.events|, a, run.eligible[a], run.receipts[a], run.acknowledgements[a]);
    }
  }

  lemma IssueOneFrame(h: Hashing, run: Run, agent: string, d: Disclosure, batchId: string, receiptId: string, draw: Draw,
                      issuedAt: int)
    requires agent in run.receipts
    ensures var after := IssueOne(h, run, agent, d, batchId, receiptId, draw, issuedAt);
            after.eligible == run.eligible && after.info == run.info
  {
  }

  lemma OneMoreAcknowledgement(length: nat, receipts: seq<Receipt>, acknowledgements: seq<Acknowledgement>,
                               a: Acknowledgement)
    requires Acknowledged(length, receipts, acknowledgements)
    requires a.throughReceiptSeq == |receipts| > 0 && a.headHash == receipts[|receipts| - 1].receiptHash
    requires receipts[|receipts| - 1].base.issuedRunSeq <= length && a.acknowledgedRunSeq == length + 1
    requires acknowledgements != [] ==> acknowledgements[|acknowledgements| - 1].throughReceiptSeq != |receipts|
    ensures Acknowledged(length + 1, receipts, acknowledgements + [a])
  {
    var n := |acknowledgements|;
    forall i | 0 <= i < n ensures acknowledgements[i].throughReceiptSeq < a.throughReceiptSeq {
      if i < n - 1 { assert acknowledgements[i].throughReceiptSeq < acknowledgements[n - 1].throughReceiptSeq; }
    }
  }

  lemma AgentAfterAcknowledgement(h: Hashing, drawn: set<string>, length: nat, agent: string, eligible: seq<Disclosure>,
                                  receipts: seq<Receipt>, acknowledgements: seq<Acknowledgement>, ack: Ack)
    requires AgentConsistent(h, drawn, length, agent, eligible, receipts, acknowledgements)
    requires ack.throughReceiptSeq == |receipts| > 0 && receipts[|receipts| - 1].receiptHash == ack.headHash
    requires acknowledgements != [] ==>
               !(acknowledgements[|acknowledgements| - 1].throughReceiptSeq == ack.throughReceiptSeq
                 && acknowledgements[|acknowledgements| - 1].headHash == ack.headHash)
    ensures AgentConsistent(h, drawn, length + 1, agent, eligible, receipts,
                            acknowledgements + [Acknowledgement(ack.throughReceiptSeq, ack.headHash, length + 1)])
  {
    hide DistinctKeys, Described;
    LongerLog(h, agent, length, length + 1, eligible, receipts, acknowledgements);
    OneMoreAcknowledgement(length, receipts, acknowledgements,
                           Acknowledgement(ack.throughReceiptSeq, ack.headHash, length + 1));
    AgentConsistentLater(h, drawn, drawn, length, length + 1, agent, eligible, receipts, acknowledgements);
  }

  lemma LongerLog(h: Hashing, agent: string, m: nat, n: nat, eligible: seq<Disclosure>, receipts: seq<Receipt>,
                  acknowledgements: seq<Acknowledgement>)
    requires m <= n && Receipted(h, agent, m, eligible, receipts) && Acknowledged(m, receipts, acknowledgements)
    ensures Receipted(h, agent, n, eligible, receipts) && Acknowledged(n, receipts, acknowledgements)
  {
  }

  lemma AcknowledgeKeeps(h: Hashing, run: Run, agent: string, ack: Ack, draw: Draw)
    requires Consistent(h, run) && HasRecord(run, agent)
    requires Acknowledge(h, run, agent, ack, draw).Ok?
    ensures Consistent(h, Acknowledge(h, run, agent, ack, draw).value)
  {
    hide EventsChained, StreamKnown, CitedBefore, AgentConsistent;
    var after := Acknowledge(h, run, agent, ack, draw).value;
    if after != run {
      var input := AckInput(agent, ack);
      var appended := AppendRunEvent(h, run, input, draw);
      OtherStreamKnown(run, input);
      AppendRunEventKeeps(h, run, input, draw);
      AgentAfterAcknowledgement(h, run.drawn, |run.events|, agent, run.eligible[agent], run.receipts[agent],
                                run.acknowledgements[agent], ack);
      SubmissionsConsistentLater(appended, after);
      assert LogConsistent(h, after);
      assert AgentsConsistent(h, after);
    }
  }

  lemma IssuePendingKeeps(h: Hashing, run: Run, agent: string, maxItems: nat, draws: SyncDraws)
    requires Consistent(h, run) && HasRecord(run, agent)
    ensures Consistent(h, IssuePending(h, run, agent, maxItems, draws))
  {
    hide Consistent, AgentsConsistent, IssueUpTo, Pending;
    ConsistentAgents(h, run);
    PendingIsASuffix(h, run, agent);
    var selected := Selected(Pending(run, agent), maxItems);
    IssueUpToKeeps(h, run, agent, selected, |selected|, draws);
  }

  lemma SyncKeeps(h: Hashing, run: Run, agent: string, after: nat, ack: Option<Ack>, maxItems: nat, draws: SyncDraws)
    requires Consistent(h, run) && HasRecord(run, agent)
    requires Sync(h, run, agent, after, ack, maxItems, draws).Ok?
    ensures Consistent(h, Sync(h, run, agent, after, ack, maxItems, draws).value.0)
  {
    hide Consistent, IssuePending, Acknowledge, Pending;
    var acknowledged := if ack.Some? then Acknowledge(h, run, agent, ack.value, draws.ack).value else run;
    if ack.Some? { AcknowledgeKeeps(h, run, agent, ack.value, draws.ack); }
    ConsistentKeys(h, acknowledged);
    IssuePendingKeeps(h, acknowledged, agent, maxItems, draws);
  }

  lemma ConsistentAgents(h: Hashing, run: Run)
    requires Consistent(h, run)
    ensures AgentsConsistent(h, run)
  {
  }
}
