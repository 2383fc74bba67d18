/** What a replay shows, told in terms of the run's own record: its log, its agents, what each agent was
    offered, issued and acknowledged. */
module RunShown {
  import opened Outcomes
  import opened Sequences
  import opened RunLog
  import opened RunInvariant
  import opened RunHistory
  import opened RunReplay
  import opened RunPast
  import Order

  // --- Whose view it is ------------------------------------------------------------------------------------

  /** Whether a query looks through the eyes of an agent. */
  ghost predicate Watches(run: Run, q: Query, a: string)
  {
    match q.perspective
    case Operator => exists i | 0 <= i < |run.agents| :: run.agents[i].id == a
    case OfAgent(id) => a == id
    case OfRole(role) => exists i | 0 <= i < |run.agents| :: run.agents[i].id == a && run.agents[i].roleSlotId == role
  }

  lemma VisibleIffWatched(run: Run, q: Query, a: string)
    ensures a in VisibleAgents(run, q) <==> Watches(run, q, a)
  {
    match q.perspective {
      case Operator => SlotIdOf(run.agents, a);
      case OfAgent(_) =>
      case OfRole(role) =>
        var ofRole := (x: AgentSlot) => x.roleSlotId == role;
        var kept := Keep(ofRole, run.agents);
        SlotIdOf(kept, a);
        if i :| 0 <= i < |kept| && kept[i].id == a {
          KeepMembers(ofRole, run.agents, kept[i]);
          var j :| 0 <= j < |run.agents| && run.agents[j] == kept[i];
        }
        if j :| 0 <= j < |run.agents| && run.agents[j].id == a && run.agents[j].roleSlotId == role {
          KeepMembers(ofRole, run.agents, run.agents[j]);
          var i :| 0 <= i < |kept| && kept[i] == run.agents[j];
        }
    }
  }

  lemma SlotIdOf(agents: seq<AgentSlot>, a: string)
    ensures a in SlotIds(agents) <==> exists i | 0 <= i < |agents| :: agents[i].id == a
  {
    if i :| 0 <= i < |agents| && agents[i].id == a { assert SlotIds(agents)[i] == a; }
  }

  // --- The run, its agents and its chains ----------------------------------------------------------------------

  /** The description is that of the started run if it had started by the cut, else the one it was created
      with; the chain head is that of the last event by the cut. */
  lemma ShownRun(h: Hashing, run: Run, q: Query, r: nat)
    requires Consistent(h, run) && r <= |run.events|
    ensures var p := ReplayAt(h, run, q, r);
      && p.info == (if exists i | 0 <= i < r :: run.events[i].base.input.eventType == "run.started" then run.info else run.initial)
      && p.eventChainHead == (if r == 0 then ZERO_HASH else run.events[r - 1].eventHash)
      && p.atRunSeq == r && p.scenarioVersionHash == run.scenarioVersionHash
      && (forall a :: a in p.receiptChainHeads <==> Watches(run, q, a))
  {
    hide Consistent, VisibleAgents, AgentReceiptsAt, VisibleReceipts, VisibleEvents, TasksAt, EligibleItems, Watches, Keep;
    assert EventsChained(h, run.events) by { ConsistentLog(h, run); }
    EventsAtIsPrefix(h, run, r);
    forall a ensures a in VisibleAgents(run, q) <==> Watches(run, q, a) { VisibleIffWatched(run, q, a); }
    StartedByCut(run.events, r);
  }

  lemma StartedByCut(events: seq<Event>, r: nat)
    requires r <= |events|
    ensures StartedBy(events[..r]) <==> exists i | 0 <= i < r :: events[i].base.input.eventType == "run.started"
  {
    if i :| 0 <= i < r && events[i].base.input.eventType == "run.started" {
      assert events[..r][i] == events[i];
    }
    if i :| 0 <= i < |events[..r]| && events[..r][i].base.input.eventType == "run.started" {
      assert events[i].base.input.eventType == "run.started";
    }
  }

  lemma ConsistentLog(h: Hashing, run: Run)
    requires Consistent(h, run)
    ensures LogConsistent(h, run) && EventsChained(h, run.events)
  {
  }

  /** The agents shown are the watched ones that had joined by the cut, in the order they joined; likewise
      their role assignments. */
  lemma ShownAgents(h: Hashing, run: Run, q: Query, r: nat) returns (slots: seq<nat>, roles: seq<nat>)
    ensures var p := ReplayAt(h, run, q, r);
      && Picked(p.agents, run.agents, slots) && Picked(p.roleAssignments, run.roleAssignments, roles)
      && (forall i | 0 <= i < |run.agents| ::
            i in slots <==> run.agents[i].joinedRunSeq <= r && Watches(run, q, run.agents[i].id))
      && (forall i | 0 <= i < |run.roleAssignments| ::
            i in roles <==> run.roleAssignments[i].assignedRunSeq <= r && Watches(run, q, run.roleAssignments[i].runAgentId))
  {
    hide VisibleAgents, AgentReceiptsAt, VisibleReceipts, VisibleEvents, TasksAt, EligibleItems, Watches, Keep, EventsAt;
    var agents := VisibleAgents(run, q);
    slots := KeepPicks((a: AgentSlot) => a.joinedRunSeq <= r && a.id in agents, run.agents);
    roles := KeepPicks((x: RoleAssignment) => x.assignedRunSeq <= r && x.runAgentId in agents, run.roleAssignments);
    forall a ensures a in VisibleAgents(run, q) <==> Watches(run, q, a) { VisibleIffWatched(run, q, a); }
  }

  // --- Receipts ----------------------------------------------------------------------------------------------------

  /** Whether the `j`-th receipt of an agent shows at a cut: it had been issued and, where the query asks for
      acknowledged deliveries, some acknowledgement made by the cut covers it. */
  ghost predicate ReceiptShows(run: Run, q: Query, a: string, j: nat, r: nat)
    requires a in run.receipts && a in run.acknowledgements && j < |run.receipts[a]|
  {
    && run.receipts[a][j].base.issuedRunSeq <= r
    && (q.semantics == AcknowledgedView ==>
          exists k | 0 <= k < |run.acknowledgements[a]| ::
            run.acknowledgements[a][k].acknowledgedRunSeq <= r && run.acknowledgements[a][k].throughReceiptSeq >= j + 1)
  }

  lemma {:induction false} ThroughIsGreatest(acks: seq<Acknowledgement>, r: nat, n: nat)
    requires forall i, k | 0 <= i < k < |acks| :: acks[i].throughReceiptSeq < acks[k].throughReceiptSeq
    requires n > 0
    ensures n <= AcknowledgedThrough(acks, r)
       <==> exists k | 0 <= k < |acks| :: acks[k].acknowledgedRunSeq <= r && acks[k].throughReceiptSeq >= n
  {
    if acks != [] {
      var init, last := acks[..|acks| - 1], acks[|acks| - 1];
      ThroughIsGreatest(init, r, n);
      assert forall k | 0 <= k < |init| :: init[k] == acks[k];
      ThroughOfLast(acks, r);
      hide AcknowledgedThrough;
      if last.acknowledgedRunSeq <= r {
        assert forall k | 0 <= k < |acks| :: acks[k].throughReceiptSeq <= last.throughReceiptSeq;
      }
    }
  }

  lemma ThroughOfLast(acks: seq<Acknowledgement>, r: nat)
    requires acks != []
    ensures var init, last := acks[..|acks| - 1], acks[|acks| - 1];
      AcknowledgedThrough(acks, r) == if last.acknowledgedRunSeq <= r then last.throughReceiptSeq else AcknowledgedThrough(init, r)
  {
  }

  lemma AgentReceiptsShow(h: Hashing, run: Run, q: Query, a: string, r: nat) returns (at: seq<nat>)
    requires Consistent(h, run) && a in run.receipts
    ensures a in run.acknowledgements && Picked(AgentReceiptsAt(run, q, a, r), run.receipts[a], at)
    ensures forall j | 0 <= j < |run.receipts[a]| :: j in at <==> ReceiptShows(run, q, a, j, r)
  {
    ConsistentAgent(h, run, a);
    var receipts, acks := run.receipts[a], run.acknowledgements[a];
    var through := AcknowledgedThrough(acks, r);
    at := KeepPicks((x: Receipt) => x.base.issuedRunSeq <= r
                                    && (q.semantics.AcknowledgedView? ==> x.base.agentReceiptSeq <= through), receipts);
    hide Keep, AcknowledgedThrough, Consistent;
    forall j | 0 <= j < |receipts| ensures j in at <==> ReceiptShows(run, q, a, j, r) {
      ReceiptNumbers(h, run, a, j);
      ThroughIsGreatest(acks, r, j + 1);
    }
  }

  lemma ReceiptNumbers(h: Hashing, run: Run, a: string, j: nat)
    requires Consistent(h, run) && a in run.receipts && j < |run.receipts[a]|
    ensures a in run.acknowledgements && a in run.eligible && |run.receipts[a]| <= |run.eligible[a]|
    ensures run.receipts[a][j].base.agentReceiptSeq == j + 1 && run.receipts[a][j].base.runAgentId == a
    ensures run.receipts[a][j].base.disclosed == run.eligible[a][j]
    ensures forall i, k | 0 <= i < k < |run.acknowledgements[a]| ::
              run.acknowledgements[a][i].throughReceiptSeq < run.acknowledgements[a][k].throughReceiptSeq
  {
    hide LogConsistent, SubmissionsConsistent;
    assert AgentConsistent(h, run.drawn, |run.events|, a, run.eligible[a], run.receipts[a], run.acknowledgements[a]);
  }

  lemma {:induction false} ShownOfAgents(run: Run, q: Query, agents: seq<string>, r: nat, x: Receipt)
    ensures x in VisibleReceipts(run, q, agents, r) <==> exists a | a in agents :: x in AgentReceiptsAt(run, q, a, r)
  {
    hide AgentReceiptsAt;
    if agents != [] {
      ShownOfAgents(run, q, agents[..|agents| - 1], r, x);
      assert agents == agents[..|agents| - 1] + [agents[|agents| - 1]];
    }
  }

  /** The receipts shown are exactly those of the watched agents that show at the cut. */
  lemma ShownReceipts(h: Hashing, run: Run, q: Query, r: nat, x: Receipt)
    requires Consistent(h, run)
    ensures x in ReplayAt(h, run, q, r).receipts
       <==> exists a, j: nat :: Watches(run, q, a) && a in run.receipts && a in run.acknowledgements && j < |run.receipts[a]|
                                && run.receipts[a][j] == x && ReceiptShows(run, q, a, j, r)
  {
    hide Consistent, VisibleAgents, AgentReceiptsAt, VisibleEvents, TasksAt, EligibleItems, Watches, ReceiptShows, EventsAt;
    var agents := VisibleAgents(run, q);
    ShownOfAgents(run, q, agents, r, x);
    if a :| a in agents && x in AgentReceiptsAt(run, q, a, r) {
      VisibleIffWatched(run, q, a);
      OneAgentShows(h, run, q, a, r, x);
    }
    if a, j: nat :| Watches(run, q, a) && a in run.receipts && a in run.acknowledgements && j < |run.receipts[a]|
                    && run.receipts[a][j] == x && ReceiptShows(run, q, a, j, r) {
      VisibleIffWatched(run, q, a);
      OneAgentShows(h, run, q, a, r, x);
    }
  }

  lemma OneAgentShows(h: Hashing, run: Run, q: Query, a: string, r: nat, x: Receipt)
    requires Consistent(h, run)
    ensures x in AgentReceiptsAt(run, q, a, r)
       <==> a in run.receipts && a in run.acknowledgements
            && exists j: nat :: j < |run.receipts[a]| && run.receipts[a][j] == x && ReceiptShows(run, q, a, j, r)
  {
    if a in run.receipts {
      var at := AgentReceiptsShow(h, run, q, a, r);
      hide AgentReceiptsAt, ReceiptShows, Consistent;
      var shown := AgentReceiptsAt(run, q, a, r);
      if i :| 0 <= i < |shown| && shown[i] == x { assert at[i] in at; }
      if j: nat :| j < |run.receipts[a]| && run.receipts[a][j] == x && ReceiptShows(run, q, a, j, r) {
        var i :| 0 <= i < |at| && at[i] == j;
        assert shown[i] == x;
      }
    } else {
      hide Consistent, ReceiptShows;
    }
  }

  // --- Events ------------------------------------------------------------------------------------------------------

  /** Some shown receipt discloses a resource of a kind that stems from an event. */
  ghost predicate ShownToStemFrom(p: Projection, kind: Kind, eventId: string)
  {
    exists x | x in p.receipts :: x.base.disclosed.kind == kind && x.base.disclosed.sourceEventId == eventId
  }

  /** Whether the event of a log shows to an agent or a role. */
  ghost predicate EventShows(run: Run, q: Query, p: Projection, e: Event)
  {
    var input, id := e.base.input, e.base.eventId;
    var byWatched := input.actorIsRunAgent && Watches(run, q, input.actorId);
    var aboutWatched := input.payloadRunAgentId.Some? && Watches(run, q, input.payloadRunAgentId.value);
    && (input.stream == EvaluationStream || input.stream == BarrierStream ==> false)
    && (input.stream == RunAgentStream ==> Watches(run, q, input.streamId))
    && (input.stream == TaskStream ==> ShownToStemFrom(p, TaskKind, id))
    && (input.stream == MessageStream ==> byWatched || ShownToStemFrom(p, MessageKind, id))
    && (input.stream == ArtifactStream ==> byWatched || ShownToStemFrom(p, ArtifactKind, id))
    && (input.stream == SubmissionStream ==> byWatched || ShownToStemFrom(p, SubmissionKind, id))
    && (input.stream == FeedbackStream && input.streamId in run.feedback ==> ShownToStemFrom(p, FeedbackKind, id))
    && (input.stream == FeedbackStream && input.streamId !in run.feedback ==> aboutWatched)
    && (input.stream == EndorsementStream || input.stream == ReceiptStream ==>
          aboutWatched || Watches(run, q, input.streamId))
  }

  /** The operator sees the log up to the cut. An agent or a role sees, of the same log and in its order, the
      events of the run; those about itself; publications that a shown receipt discloses, or that it made
      itself; never an evaluation or a barrier. */
  lemma ShownEvents(h: Hashing, run: Run, q: Query, r: nat) returns (at: seq<nat>)
    requires Consistent(h, run) && r <= |run.events|
    ensures var p := ReplayAt(h, run, q, r);
      if q.perspective == Operator then p.events == run.events[..r]
      else
        && Picked(p.events, run.events[..r], at)
        && forall i | 0 <= i < r :: i in at <==> EventShows(run, q, p, run.events[i])
  {
    var agents := VisibleAgents(run, q);
    var receipts := VisibleReceipts(run, q, agents, r);
    var p := ReplayAt(h, run, q, r);
    assert p.receipts == receipts && p.events == VisibleEvents(run, q, agents, receipts, r);
    ConsistentLog(h, run);
    EventsAtIsPrefix(h, run, r);
    var visible := (e: Event) => EventVisible(run.messages, run.artifacts, run.feedback, q, agents, receipts, e);
    at := KeepPicks(visible, run.events[..r]);
    hide Consistent, ReplayAt, VisibleAgents, VisibleReceipts, Keep, EventsAt;
    if q.perspective == Operator {
      KeepAll(visible, run.events[..r]);
    } else {
      forall i | 0 <= i < r ensures visible(run.events[i]) <==> EventShows(run, q, p, run.events[i]) {
        VisibleIffShows(h, run, q, agents, receipts, p, i);
      }
    }
  }

  lemma VisibleIffShows(h: Hashing, run: Run, q: Query, agents: seq<string>, receipts: seq<Receipt>, p: Projection, i: nat)
    requires LogConsistent(h, run) && i < |run.events| && agents == VisibleAgents(run, q) && q.perspective != Operator
    requires p.receipts == receipts
    ensures EventVisible(run.messages, run.artifacts, run.feedback, q, agents, receipts, run.events[i])
       <==> EventShows(run, q, p, run.events[i])
  {
    var e := run.events[i];
    assert StreamKnown(run.messages, run.artifacts, run.drawn, e.base.input);
    VisibleIffWatched(run, q, e.base.input.actorId);
    VisibleIffWatched(run, q, e.base.input.streamId);
    if e.base.input.payloadRunAgentId.Some? { VisibleIffWatched(run, q, e.base.input.payloadRunAgentId.value); }
    forall kind: Kind { DisclosingIffStems(receipts, p, kind, e.base.eventId); }
    hide VisibleAgents, Watches, Disclosing, ShownToStemFrom, LogConsistent;
  }

  lemma DisclosingIffStems(receipts: seq<Receipt>, p: Projection, kind: Kind, eventId: string)
    requires p.receipts == receipts
    ensures Disclosing(receipts, kind, eventId) <==> ShownToStemFrom(p, kind, eventId)
  {
    if x :| x in receipts && x.base.disclosed.kind == kind && x.base.disclosed.sourceEventId == eventId {
      var i :| 0 <= i < |receipts| && receipts[i] == x;
    }
  }

  // --- Tasks -------------------------------------------------------------------------------------------------------

  /** A snapshot of a task and when it became known: to the operator when it was offered to some agent, to
      others when a shown receipt was issued. */
  ghost predicate Evidence(run: Run, q: Query, p: Projection, r: nat, t: Task, n: nat)
  {
    if q.perspective == Operator then
      exists a, i | Watches(run, q, a) && a in run.eligible && 0 <= i < |run.eligible[a]| :: OffersTask(run.eligible[a][i], t, n) && n <= r
    else exists x | x in p.receipts :: x.base.issuedRunSeq == n && OffersTask(x.base.disclosed, t, x.base.disclosed.sourceRunSeq)
  }

  ghost predicate OffersTask(d: Disclosure, t: Task, n: nat)
  {
    d.kind == TaskKind && d.snapshot == TaskResource(t) && d.sourceRunSeq == n
  }

  lemma {:induction false} DisclosedTaskIs(ds: seq<Disclosure>, te: TaskEvidence)
    ensures te in DisclosedTasks(ds) <==> exists i | 0 <= i < |ds| :: OffersTask(ds[i], te.task, te.runSeq)
  {
    if ds != [] {
      DisclosedTaskIs(ds[..|ds| - 1], te);
      assert forall i | 0 <= i < |ds| - 1 :: ds[..|ds| - 1][i] == ds[i];
    }
  }

  lemma {:induction false} ReceivedTaskIs(xs: seq<Receipt>, te: TaskEvidence)
    ensures te in ReceivedTasks(xs)
       <==> exists x | x in xs :: x.base.issuedRunSeq == te.runSeq
                                  && OffersTask(x.base.disclosed, te.task, x.base.disclosed.sourceRunSeq)
  {
    if xs != [] {
      ReceivedTaskIs(xs[..|xs| - 1], te);
      assert xs == xs[..|xs| - 1] + [xs[|xs| - 1]];
    }
  }

  lemma {:induction false} EligibleTaskIs(run: Run, agents: seq<string>, r: nat, te: TaskEvidence)
    ensures te in EligibleTasks(run, agents, r)
       <==> exists a, i | a in agents && a in run.eligible && 0 <= i < |run.eligible[a]| ::
              OffersTask(run.eligible[a][i], te.task, te.runSeq) && te.runSeq <= r
  {
    if agents != [] {
      var init, last := agents[..|agents| - 1], agents[|agents| - 1];
      EligibleTaskIs(run, init, r, te);
      assert agents == init + [last];
      if last in run.eligible { OfferedByIs(run.eligible[last], r, te); }
      hide OffersTask, DisclosedTasks, EligibleBy;
    }
  }

  lemma OfferedByIs(ds: seq<Disclosure>, r: nat, te: TaskEvidence)
    ensures te in DisclosedTasks(EligibleBy(ds, r))
       <==> exists i | 0 <= i < |ds| :: OffersTask(ds[i], te.task, te.runSeq) && te.runSeq <= r
  {
    var offered := (d: Disclosure) => d.sourceRunSeq <= r;
    var kept := EligibleBy(ds, r);
    DisclosedTaskIs(kept, te);
    if i :| 0 <= i < |kept| && OffersTask(kept[i], te.task, te.runSeq) {
      KeepMembers(offered, ds, kept[i]);
      var j :| 0 <= j < |ds| && ds[j] == kept[i];
    }
    if j :| 0 <= j < |ds| && OffersTask(ds[j], te.task, te.runSeq) && te.runSeq <= r {
      KeepMembers(offered, ds, ds[j]);
      var i :| 0 <= i < |kept| && kept[i] == ds[j];
    }
  }

  ghost function EvidenceFor(run: Run, q: Query, receipts: seq<Receipt>, r: nat): seq<TaskEvidence>
  {
    if q.perspective.Operator? then EligibleTasks(run, VisibleAgents(run, q), r) else ReceivedTasks(receipts)
  }

  lemma EvidenceIs(run: Run, q: Query, p: Projection, r: nat, t: Task, n: nat)
    ensures TaskEvidence(t, n) in EvidenceFor(run, q, p.receipts, r) <==> Evidence(run, q, p, r, t, n)
  {
    var te := TaskEvidence(t, n);
    if q.perspective.Operator? {
      EligibleTaskIs(run, VisibleAgents(run, q), r, te);
      forall a ensures a in VisibleAgents(run, q) <==> Watches(run, q, a) { VisibleIffWatched(run, q, a); }
      hide VisibleAgents, Watches, OffersTask, EligibleTasks;
    } else {
      ReceivedTaskIs(p.receipts, te);
    }
  }

  /** Among the snapshots, those of tasks assigned to a watched agent. */
  ghost predicate Counts(run: Run, q: Query, p: Projection, r: nat, t: Task, n: nat)
  {
    Evidence(run, q, p, r, t, n) && Watches(run, q, t.assignedRunAgentId)
  }

  ghost predicate IsLatest(run: Run, q: Query, p: Projection, r: nat, t: Task)
  {
    exists n :: Counts(run, q, p, r, t, n)
                && forall t', n' | Counts(run, q, p, r, t', n') && t'.id == t.id :: n' <= n
  }

  /** A task shown is the latest snapshot that counts; every task with a snapshot that counts is shown, once;
      and the tasks are listed by creation, then by id. */
  lemma ShownTasks(h: Hashing, run: Run, q: Query, r: nat)
    ensures var p := ReplayAt(h, run, q, r);
      && (forall i | 0 <= i < |p.tasks| :: IsLatest(run, q, p, r, p.tasks[i]))
      && (forall t, n | Counts(run, q, p, r, t, n) :: exists i | 0 <= i < |p.tasks| :: p.tasks[i].id == t.id)
      && (forall i, j | 0 <= i < j < |p.tasks| ::
            && p.tasks[i].id != p.tasks[j].id
            && (p.tasks[i].createdRunSeq < p.tasks[j].createdRunSeq
                || (p.tasks[i].createdRunSeq == p.tasks[j].createdRunSeq && Order.Less(p.tasks[i].id, p.tasks[j].id))))
  {
    var agents, p := VisibleAgents(run, q), ReplayAt(h, run, q, r);
    var evidence := EvidenceFor(run, q, p.receipts, r);
    var tasks := Snapshots(evidence, agents);
    assert p.tasks == Listed(tasks);
    hide ReplayAt, EvidenceFor, VisibleAgents, Latest, FirstMet, Snapshots, Listed, Counts;
    ListedIsInOrder(tasks);
    SnapshotsOnce(evidence, agents);
    ListedOnce(tasks, p.tasks);
    forall i | 0 <= i < |p.tasks| ensures IsLatest(run, q, p, r, p.tasks[i]) {
      assert p.tasks[i] in multiset(tasks);
      var k :| 0 <= k < |tasks| && tasks[k] == p.tasks[i];
      SnapshotIsLatest(run, q, p, r, k);
    }
    forall t, n | Counts(run, q, p, r, t, n) ensures exists i | 0 <= i < |p.tasks| :: p.tasks[i].id == t.id {
      var k := CountedIsMet(run, q, p, r, t, n);
      assert tasks[k] in multiset(p.tasks);
      var i :| 0 <= i < |p.tasks| && p.tasks[i] == tasks[k];
    }
  }

  lemma SnapshotsOnce(evidence: seq<TaskEvidence>, agents: seq<string>)
    ensures forall i, j | 0 <= i < j < |Snapshots(evidence, agents)| :: Snapshots(evidence, agents)[i].id != Snapshots(evidence, agents)[j].id
  {
    var ids := FirstMet(evidence, agents);
    forall i | 0 <= i < |ids| ensures Snapshots(evidence, agents)[i].id == ids[i] {
      LatestIsLatest(evidence, agents, ids[i]);
    }
  }

  lemma {:induction false} NoneTwice(tasks: seq<Task>, t: Task)
    requires forall i, j | 0 <= i < j < |tasks| :: tasks[i].id != tasks[j].id
    ensures multiset(tasks)[t] <= 1
  {
    if tasks != [] {
      var init, last := tasks[..|tasks| - 1], tasks[|tasks| - 1];
      assert tasks == init + [last];
      NoneTwice(init, t);
      if t == last { assert t !in init; }
    }
  }

  lemma Twice(tasks: seq<Task>, i: nat, j: nat)
    requires i < j < |tasks| && tasks[i] == tasks[j]
    ensures multiset(tasks)[tasks[i]] >= 2
  {
    assert tasks == tasks[..j] + tasks[j..];
    assert tasks[i] in tasks[..j] && tasks[j] in tasks[j..] by { assert tasks[..j][i] == tasks[i] && tasks[j..][0] == tasks[j]; }
    assert multiset(tasks) == multiset(tasks[..j]) + multiset(tasks[j..]);
  }

  lemma ListedOnce(tasks: seq<Task>, listed: seq<Task>)
    requires forall i, j | 0 <= i < j < |tasks| :: tasks[i].id != tasks[j].id
    requires InOrder(listed) && multiset(listed) == multiset(tasks)
    ensures forall i, j | 0 <= i < j < |listed| :: listed[i].id != listed[j].id && Before(listed[i], listed[j])
  {
    forall i, j | 0 <= i < j < |listed| ensures listed[i].id != listed[j].id && Before(listed[i], listed[j]) {
      if listed[i] == listed[j] {
        Twice(listed, i, j);
        NoneTwice(tasks, listed[i]);
      }
      assert listed[i] in multiset(tasks) && listed[j] in multiset(tasks);
      var k :| 0 <= k < |tasks| && tasks[k] == listed[i];
      var l :| 0 <= l < |tasks| && tasks[l] == listed[j];
      assert k != l;
      Order.LessIsTotal(listed[i].id, listed[j].id);
    }
  }

  lemma SnapshotIsLatest(run: Run, q: Query, p: Projection, r: nat, k: nat)
    requires k < |Snapshots(EvidenceFor(run, q, p.receipts, r), VisibleAgents(run, q))|
    ensures IsLatest(run, q, p, r, Snapshots(EvidenceFor(run, q, p.receipts, r), VisibleAgents(run, q))[k])
  {
    var agents, evidence := VisibleAgents(run, q), EvidenceFor(run, q, p.receipts, r);
    var id := FirstMet(evidence, agents)[k];
    LatestIsLatest(evidence, agents, id);
    var (t, n) := Latest(evidence, agents)[id];
    LatestIsVisible(evidence, agents, id);
    hide VisibleAgents, EvidenceFor, Latest, FirstMet, Watches, Evidence;
    EvidenceIs(run, q, p, r, t, n);
    VisibleIffWatched(run, q, t.assignedRunAgentId);
    forall t', n' | Counts(run, q, p, r, t', n') && t'.id == t.id ensures n' <= n {
      EvidenceIs(run, q, p, r, t', n');
      VisibleIffWatched(run, q, t'.assignedRunAgentId);
      var i :| 0 <= i < |evidence| && evidence[i] == TaskEvidence(t', n');
    }
    assert Counts(run, q, p, r, t, n);
  }

  lemma {:induction false} LatestIsVisible(evidence: seq<TaskEvidence>, agents: seq<string>, id: string)
    requires id in Latest(evidence, agents)
    ensures Latest(evidence, agents)[id].0.assignedRunAgentId in agents
  {
    if evidence != [] && id in Latest(evidence[..|evidence| - 1], agents) {
      LatestIsVisible(evidence[..|evidence| - 1], agents, id);
    }
  }

  lemma CountedIsMet(run: Run, q: Query, p: Projection, r: nat, t: Task, n: nat) returns (k: nat)
    requires Counts(run, q, p, r, t, n)
    ensures k < |Snapshots(EvidenceFor(run, q, p.receipts, r), VisibleAgents(run, q))|
    ensures Snapshots(EvidenceFor(run, q, p.receipts, r), VisibleAgents(run, q))[k].id == t.id
  {
    var agents, evidence := VisibleAgents(run, q), EvidenceFor(run, q, p.receipts, r);
    EvidenceIs(run, q, p, r, t, n);
    VisibleIffWatched(run, q, t.assignedRunAgentId);
    hide VisibleAgents, EvidenceFor, Watches, Evidence;
    var i :| 0 <= i < |evidence| && evidence[i] == TaskEvidence(t, n);
    LatestIsLatest(evidence, agents, t.id);
    k :| 0 <= k < |FirstMet(evidence, agents)| && FirstMet(evidence, agents)[k] == t.id;
  }

  // --- Eligible resources ----------------------------------------------------------------------------------------------

  /** The number of the first receipt, by the cut, of a resource with the id. */
  ghost predicate FirstReceipt(receipts: seq<Receipt>, resourceId: string, r: nat, seqNo: Option<nat>)
  {
    if seqNo.None? then forall j | 0 <= j < |receipts| && receipts[j].base.issuedRunSeq <= r :: receipts[j].base.disclosed.resourceId != resourceId
    else exists j | 0 <= j < |receipts| ::
           && receipts[j].base.disclosed.resourceId == resourceId && receipts[j].base.issuedRunSeq <= r
           && seqNo == Some(receipts[j].base.agentReceiptSeq)
           && forall i | 0 <= i < j && receipts[i].base.issuedRunSeq <= r :: receipts[i].base.disclosed.resourceId != resourceId
  }

  lemma FirstIssuedIs(receipts: seq<Receipt>, resourceId: string, r: nat)
    ensures FirstReceipt(receipts, resourceId, r, FirstIssued(receipts, resourceId, r))
  {
    var of := (x: Receipt) => x.base.disclosed.resourceId == resourceId && x.base.issuedRunSeq <= r;
    var matching := Keep(of, receipts);
    var at := KeepPicks(of, receipts);
    if matching != [] {
      assert of(receipts[at[0]]) by { assert at[0] in at; }
      forall i | 0 <= i < at[0] ensures !of(receipts[i]) { assert i !in at; }
    } else {
      forall i | 0 <= i < |receipts| ensures !of(receipts[i]) { assert i !in at; }
    }
  }

  /** What an eligible item says about the `i`-th resource offered to an agent. */
  ghost predicate ItemFor(run: Run, item: EligibleItem, a: string, i: nat, r: nat)
    requires a in run.eligible && a in run.receipts && i < |run.eligible[a]|
  {
    var d := run.eligible[a][i];
    && d.sourceRunSeq <= r && item.agent == a && item.kind == d.kind && item.resourceId == d.resourceId
    && item.resourceVersion == d.resourceVersion && item.sourceRunSeq == d.sourceRunSeq
    && item.availableVirtualAt == run.info.virtualTime
    && FirstReceipt(run.receipts[a], d.resourceId, r, item.issuedReceiptSeq)
  }

  lemma FirstReceiptIsUnique(receipts: seq<Receipt>, resourceId: string, r: nat, x: Option<nat>, y: Option<nat>)
    requires FirstReceipt(receipts, resourceId, r, x) && FirstReceipt(receipts, resourceId, r, y)
    ensures x == y
  {
  }

  lemma ItemsOfIs(run: Run, a: string, r: nat, item: EligibleItem)
    requires a in run.eligible && a in run.receipts
    ensures item in ItemsOf(run, a, EligibleBy(run.eligible[a], r), r)
       <==> exists i: nat | i < |run.eligible[a]| :: ItemFor(run, item, a, i, r)
  {
    var ds, offered := run.eligible[a], (d: Disclosure) => d.sourceRunSeq <= r;
    var kept := EligibleBy(ds, r);
    var items := ItemsOf(run, a, kept, r);
    hide FirstReceipt, FirstIssued;
    if item in items {
      var k :| 0 <= k < |items| && items[k] == item;
      KeepMembers(offered, ds, kept[k]);
      var i :| 0 <= i < |ds| && ds[i] == kept[k];
      FirstIssuedIs(run.receipts[a], ds[i].resourceId, r);
      assert ItemFor(run, item, a, i, r);
    }
    if i: nat :| i < |ds| && ItemFor(run, item, a, i, r) {
      KeepMembers(offered, ds, ds[i]);
      var k :| 0 <= k < |kept| && kept[k] == ds[i];
      FirstIssuedIs(run.receipts[a], ds[i].resourceId, r);
      FirstReceiptIsUnique(run.receipts[a], ds[i].resourceId, r, item.issuedReceiptSeq, FirstIssued(run.receipts[a], ds[i].resourceId, r));
      assert items[k] == item;
    }
  }

  lemma {:induction false} EligibleItemsAre(run: Run, agents: seq<string>, r: nat, item: EligibleItem)
    ensures item in EligibleItems(run, agents, r)
       <==> exists a | a in agents && a in run.eligible && a in run.receipts ::
              exists i: nat | i < |run.eligible[a]| :: ItemFor(run, item, a, i, r)
  {
    hide ItemFor, ItemsOf;
    if agents != [] {
      var init, last := agents[..|agents| - 1], agents[|agents| - 1];
      EligibleItemsAre(run, init, r, item);
      assert agents == init + [last];
      if last in run.eligible && last in run.receipts { ItemsOfIs(run, last, r, item); }
    }
  }

  /** Only a query for eligible resources shows any; it shows one item for everything a watched agent was
      offered by the cut, with the number of its first receipt by the cut. */
  lemma ShownEligible(h: Hashing, run: Run, q: Query, r: nat, item: EligibleItem)
    ensures item in ReplayAt(h, run, q, r).eligible
       <==> q.semantics == EligibleView
            && exists a | Watches(run, q, a) && a in run.eligible && a in run.receipts ::
                 exists i: nat | i < |run.eligible[a]| :: ItemFor(run, item, a, i, r)
  {
    hide VisibleAgents, VisibleReceipts, VisibleEvents, TasksAt, EligibleItems, Watches, AgentReceiptsAt, EventsAt, ItemFor;
    EligibleItemsAre(run, VisibleAgents(run, q), r, item);
    forall a ensures a in VisibleAgents(run, q) <==> Watches(run, q, a) { VisibleIffWatched(run, q, a); }
  }

  // --- Verification ----------------------------------------------------------------------------------------------------

  /** A replay is marked verified only if every event by the cut continues the chain and carries its own
      hash, and every agent's receipts by the cut number from one, chain, and carry theirs. */
  lemma VerifiedMeansIntact(h: Hashing, run: Run, q: Query, r: nat, i: nat, a: string)
    requires ReplayAt(h, run, q, r).verified && i < |EventsAt(run, r)|
    ensures var all := EventsAt(run, r);
      && all[i].eventHash == h.event(all[i].base)
      && all[i].base.previousHash == (if i == 0 then ZERO_HASH else all[i - 1].eventHash)
    ensures ChainVerifies(h, BySequence(Keep(Of(a), ReceiptsAt(run, SlotIds(run.agents), r))))
  {
    hide VisibleAgents, VisibleReceipts, VisibleEvents, TasksAt, EligibleItems, AgentReceiptsAt, EventsAt, ReceiptsAt, BySequence, ChainVerifies;
    assert EventVerifies(h, EventsAt(run, r), i);
  }
}
