/** What every run of the exercise service keeps. */
module ExerciseRuns {
  import opened Outcomes
  import opened Episodes
  import opened ExerciseService

  // --- The invariant ----------------------------------------------------------------------------------------

  /** Scenario items have distinct ids. */
  ghost predicate ScenarioOk(w: World)
  {
    forall i, j | 0 <= i < j < |w.scenario.information| :: w.scenario.information[i].id != w.scenario.information[j].id
  }

  /** An observation is of scenario information that was released, and made, by `now`. */
  ghost predicate ObservedBy(w: World, o: Observation, now: int)
  {
    && o.releasedTime <= now && o.accessedVirtualTime <= now
    && exists i | 0 <= i < |w.scenario.information| ::
         w.scenario.information[i].id == o.informationId && w.scenario.information[i].releasedTime == o.releasedTime
  }

  ghost predicate ObservationsOk(w: World, observations: seq<Observation>, observed: seq<string>, now: int)
  {
    && (forall i | 0 <= i < |observations| :: ObservedBy(w, observations[i], now))
    && (forall id :: id in observed <==> Noted(observations, id))
  }

  /** Events are numbered, and each carries a later version than the one before; the last carries the
      episode's own. */
  ghost predicate EventsOk(events: seq<EpisodeEvent>, version: nat)
  {
    && events != [] && events[|events| - 1].version == version
    && (forall i | 0 <= i < |events| :: events[i].sequence == i + 1)
    && (forall i, j | 0 <= i < j < |events| :: events[i].version < events[j].version)
  }

  ghost predicate Passed(subs: map<string, Submission>, k: string, stage: nat)
  {
    exists x | x in subs :: subs[x].episode == k && subs[x].plan.stage == stage && subs[x].evaluation.verdict == Pass
  }

  /** The latest submission, and what the state of the episode says about it. */
  ghost predicate LatestOk(subs: map<string, Submission>, k: string, st: Stored)
  {
    && st.nextRevision >= 1 && (st.latest.None? <==> st.nextRevision == 1)
    && (st.latest.Some? ==>
          var x := st.latest.value;
          x in subs && subs[x].episode == k && subs[x].revisionNo == st.nextRevision - 1)
    && (st.episode.state == FeedbackAvailable || st.episode.state == Completed ==>
          st.latest.Some? && subs[st.latest.value].plan.stage == st.episode.stageIndex + 1)
    && (st.episode.state == Completed ==>
          subs[st.latest.value].plan.isFinal && subs[st.latest.value].evaluation.verdict == Pass)
  }

  ghost predicate StoredOk(w: World, subs: map<string, Submission>, k: string, st: Stored)
  {
    && st.episode.id == k && st.episode.stageIndex <= 1
    && (st.episode.state == WaitingForSubmission || st.episode.state == FeedbackAvailable || st.episode.state == Completed)
    && ObservationsOk(w, st.observations, st.episode.observed, st.episode.virtualTime)
    && EventsOk(st.events, st.episode.version) && LatestOk(subs, k, st)
    && (st.episode.stageIndex == 1 ==> Passed(subs, k, 1))
  }

  /** A submission revises the one before it, and no evaluation counts time travel. */
  ghost predicate SubmissionOk(subs: map<string, Submission>, sub: Submission)
  {
    && sub.revisionNo >= 1 && sub.evaluation.timeTravel == 0
    && 1 <= sub.plan.stage <= 2 && (sub.plan.isFinal <==> sub.plan.stage == 2)
    && (sub.revisionOf.None? <==> sub.revisionNo == 1)
    && (sub.revisionOf.Some? ==>
          var y := sub.revisionOf.value;
          y in subs && subs[y].episode == sub.episode && sub.revisionNo == subs[y].revisionNo + 1)
  }

  ghost predicate SubmissionsOk(subs: map<string, Submission>)
  {
    && (forall x | x in subs :: SubmissionOk(subs, subs[x]))
    && (forall x, y | x in subs && y in subs && subs[x].episode == subs[y].episode && subs[x].revisionNo == subs[y].revisionNo :: x == y)
  }

  /** Submissions belong to stored episodes, and their numbers are below the next one. */
  ghost predicate Numbered(subs: map<string, Submission>, episodes: map<string, Stored>)
  {
    forall x | x in subs :: subs[x].episode in episodes && subs[x].revisionNo < episodes[subs[x].episode].nextRevision
  }

  ghost predicate Sound(w: World, s: Service)
  {
    && SubmissionsOk(s.submissions) && Numbered(s.submissions, s.episodes)
    && (forall k | k in s.episodes :: StoredOk(w, s.submissions, k, s.episodes[k]))
  }

  // --- Observing -----------------------------------------------------------------------------------------------

  lemma {:induction false} FilterReleases(items: seq<Information>, now: int, x: Information)
    ensures x in Filter(items, now) <==> x in items && x.releasedTime <= now
  {
    if items != [] {
      FilterReleases(items[..|items| - 1], now, x);
      assert items == items[..|items| - 1] + [items[|items| - 1]];
    }
  }

  lemma {:induction false} WithIdsSelects(items: seq<Information>, ids: seq<string>, x: Information)
    ensures x in WithIds(items, ids) <==> x in items && x.id in ids
  {
    if items != [] {
      WithIdsSelects(items[..|items| - 1], ids, x);
      assert items == items[..|items| - 1] + [items[|items| - 1]];
    }
  }

  lemma {:induction false} ByIdFinds(items: seq<Information>, id: string)
    ensures ById(items, id).Some? ==> ById(items, id).value in items && ById(items, id).value.id == id
  {
    if items != [] {
      ByIdFinds(items[..|items| - 1], id);
      assert items == items[..|items| - 1] + [items[|items| - 1]];
    }
  }

  lemma {:induction false} SelectedAreReleased(released: seq<Information>, ids: seq<string>)
    requires Select(released, ids).Some?
    ensures forall i | 0 <= i < |Select(released, ids).value| :: Select(released, ids).value[i] in released
  {
    if ids != [] {
      SelectedAreReleased(released, ids[..|ids| - 1]);
      ByIdFinds(released, ids[|ids| - 1]);
    }
  }

  /** Scenario information released by `now`. */
  ghost predicate Released(w: World, x: Information, now: int)
  {
    x in w.scenario.information && x.releasedTime <= now
  }

  /** Only released information is ever selected. */
  lemma SelectionIsReleased(w: World, st: Stored, ids: Option<seq<string>>, i: nat)
    requires ScenarioOk(w) && Selection(w, st, ids).Ok? && i < |Selection(w, st, ids).value|
    ensures Released(w, Selection(w, st, ids).value[i], st.episode.virtualTime)
  {
    var items := w.scenario.information;
    var visible := Filter(items, st.episode.virtualTime);
    var released, x := WithIds(items, Ids(visible)), Selection(w, st, ids).value[i];
    if ids.Some? { SelectedAreReleased(released, ids.value); }
    assert x in released;
    WithIdsSelects(items, Ids(visible), x);
    var j :| 0 <= j < |visible| && Ids(visible)[j] == x.id;
    FilterReleases(items, st.episode.virtualTime, visible[j]);
    var a :| 0 <= a < |items| && items[a] == x;
    var b :| 0 <= b < |items| && items[b] == visible[j];
    assert a == b;
  }

  lemma NotedAppend(observations: seq<Observation>, o: Observation, id: string)
    ensures Noted(observations + [o], id) <==> Noted(observations, id) || o.informationId == id
  {
    if Noted(observations, id) {
      var i :| 0 <= i < |observations| && observations[i].informationId == id;
      assert (observations + [o])[i] == observations[i];
    }
    assert (observations + [o])[|observations|] == o;
  }

  lemma NoteOneOk(w: World, observations: seq<Observation>, observed: seq<string>, x: Information, now: int)
    requires ObservationsOk(w, observations, observed, now) && Released(w, x, now)
    ensures ObservationsOk(w, if Noted(observations, x.id) then observations
                              else observations + [Observation(x.id, x.releasedTime, now)],
                           if x.id in observed then observed else observed + [x.id], now)
  {
    hide Noted;
    var o := Observation(x.id, x.releasedTime, now);
    var i :| 0 <= i < |w.scenario.information| && w.scenario.information[i] == x;
    assert ObservedBy(w, o, now);
    hide ObservedBy;
    forall id ensures Noted(observations + [o], id) <==> Noted(observations, id) || x.id == id {
      NotedAppend(observations, o, id);
    }
  }

  /** Observed ids and observations grow together. */
  lemma {:induction false} NoteOk(w: World, observations: seq<Observation>, observed: seq<string>, items: seq<Information>, now: int)
    requires ObservationsOk(w, observations, observed, now)
    requires forall i | 0 <= i < |items| :: Released(w, items[i], now)
    ensures ObservationsOk(w, Note(observations, items, now), AddNew(observed, Ids(items)), now)
  {
    hide ObservationsOk, Noted, Released;
    if items != [] {
      var init := items[..|items| - 1];
      NoteOk(w, observations, observed, init, now);
      assert Ids(items)[..|items| - 1] == Ids(init);
      NoteOneOk(w, Note(observations, init, now), AddNew(observed, Ids(init)), items[|items| - 1], now);
    }
  }

  lemma {:induction false} AddNewGrows(observed: seq<string>, ids: seq<string>)
    ensures |AddNew(observed, ids)| >= |observed|
    ensures |AddNew(observed, ids)| == |observed| <==> AddNew(observed, ids) == observed
    ensures AddNew(observed, ids) == observed <==> forall i | 0 <= i < |ids| :: ids[i] in observed
    ensures forall id | id in observed :: id in AddNew(observed, ids)
  {
    if ids != [] {
      AddNewGrows(observed, ids[..|ids| - 1]);
      assert ids == ids[..|ids| - 1] + [ids[|ids| - 1]];
    }
  }

  lemma WithEventOk(events: seq<EpisodeEvent>, version: nat, e: EpisodeEvent)
    requires EventsOk(events, version) && e.version > version && e.sequence == |events| + 1
    ensures EventsOk(events + [e], e.version)
  {
    var all := events + [e];
    forall i, j | 0 <= i < j < |all| ensures all[i].version < all[j].version {
      if j == |events| && i < |events| - 1 { assert events[i].version < events[|events| - 1].version; }
    }
  }

  /** What a successful observation changes. */
  lemma ObserveFacts(w: World, st: Stored, version: nat, ids: Option<seq<string>>)
    requires ObserveOutcome(w, st, version, ids).Ok?
    ensures Selection(w, st, ids).Ok? && st.episode.state == WaitingForSubmission
    ensures var (next, items), before := ObserveOutcome(w, st, version, ids).value, st.episode;
      (items == Selection(w, st, ids).value
       && next.observations == Note(st.observations, items, before.virtualTime)
       && next == st.(episode := next.episode, observations := next.observations, events := next.events)
       && next.episode.observed == AddNew(before.observed, Ids(items))
       && next.episode == before.(observed := next.episode.observed, version := next.episode.version)
       && (if next.episode.observed == before.observed then next.episode.version == before.version && next.events == st.events
           else next.episode.version == before.version + 1 && next.events == WithEvent(st, ObservationsRecorded, next.episode).events))
  {
    hide Note, Selection;
    AddNewGrows(st.episode.observed, Ids(Selection(w, st, ids).value));
    hide AddNew;
  }

  lemma ObserveKeepsStored(w: World, subs: map<string, Submission>, k: string, st: Stored, version: nat, ids: Option<seq<string>>)
    requires ScenarioOk(w) && StoredOk(w, subs, k, st) && ObserveOutcome(w, st, version, ids).Ok?
    ensures StoredOk(w, subs, k, ObserveOutcome(w, st, version, ids).value.0)
  {
    var items, now := Selection(w, st, ids).value, st.episode.virtualTime;
    var next := ObserveOutcome(w, st, version, ids).value.0;
    ObserveFacts(w, st, version, ids);
    hide ObserveOutcome;
    forall i | 0 <= i < |items| ensures Released(w, items[i], now) {
      SelectionIsReleased(w, st, ids, i);
    }
    hide Selection, Released;
    NoteOk(w, st.observations, st.episode.observed, items, now);
    hide ObservationsOk, Note, AddNew, Noted;
    if next.events != st.events {
      WithEventOk(st.events, st.episode.version, next.events[|st.events|]);
    }
    hide EventsOk, Passed;
  }

  // --- Submitting ------------------------------------------------------------------------------------------------

  /** What a published submission says of the episode before and after. */
  lemma PublishedFacts(s: Service, p: Participant, st: Stored, version: nat, plan: Plan)
    requires Published(s, p, st, version, plan).Ok?
    ensures var (queued, published) := Published(s, p, st, version, plan).value;
      (plan.stage == st.episode.stageIndex + 1 && plan.releases != []
       && (plan.stage == 1 ==> !plan.isFinal) && (plan.stage == 2 ==> plan.isFinal)
       && (st.episode.state == WaitingForSubmission || st.episode.state == FeedbackAvailable)
       && st.episode.version < queued.version < published.version
       && published == st.episode.(state := FeedbackAvailable, version := published.version)
       && queued.virtualTime == st.episode.virtualTime)
  {
    hide ReleasesFault, EvidenceRelevant;
  }

  lemma AfterSubmissionEvents(st: Stored, queued: Episode, published: Episode, id: string)
    requires EventsOk(st.events, st.episode.version) && st.episode.version < queued.version < published.version
    ensures EventsOk(AfterSubmission(st, queued, published, id).events, published.version)
  {
    hide EventsOk;
    var first := EpisodeEvent(|st.events| + 1, SubmissionCreated, queued.version, queued.virtualTime);
    WithEventOk(st.events, st.episode.version, first);
    WithEventOk(st.events + [first], queued.version,
                EpisodeEvent(|st.events| + 2, EvaluationCompleted, published.version, published.virtualTime));
  }

  lemma SubmissionIsOk(w: World, subs: map<string, Submission>, p: Participant, k: string, st: Stored, version: nat, plan: Plan)
    requires StoredOk(w, subs, k, st) && plan.stage == st.episode.stageIndex + 1
    requires (plan.stage == 1 ==> !plan.isFinal) && (plan.stage == 2 ==> plan.isFinal)
    ensures SubmissionOk(subs, NewSubmission(p, st, version, plan))
  {
    NoViolations(st.observations, plan.releases, st.episode.virtualTime);
    hide Noted, EventsOk, Passed;
  }

  lemma AddSubmission(subs: map<string, Submission>, episodes: map<string, Stored>, id: string, sub: Submission)
    requires SubmissionsOk(subs) && Numbered(subs, episodes) && id !in subs && SubmissionOk(subs, sub)
    requires sub.episode in episodes && sub.revisionNo == episodes[sub.episode].nextRevision
    ensures SubmissionsOk(subs[id := sub])
  {
    var more := subs[id := sub];
    forall x | x in more ensures SubmissionOk(more, more[x]) {
    }
  }

  lemma StoredOkWithMore(w: World, subs: map<string, Submission>, id: string, sub: Submission, k: string, st: Stored)
    requires StoredOk(w, subs, k, st) && id !in subs
    ensures StoredOk(w, subs[id := sub], k, st)
  {
    hide ObservationsOk, EventsOk;
    if Passed(subs, k, 1) {
      var x :| x in subs && subs[x].episode == k && subs[x].plan.stage == 1 && subs[x].evaluation.verdict == Pass;
      assert x in subs[id := sub] && subs[id := sub][x] == subs[x];
    }
  }

  lemma SubmitKeepsStored(w: World, s: Service, p: Participant, k: string, version: nat, plan: Plan, id: string)
    requires k in s.episodes && StoredOk(w, s.submissions, k, s.episodes[k]) && id !in s.submissions
    requires Published(s, p, s.episodes[k], version, plan).Ok?
    ensures var st := s.episodes[k];
      var (queued, published) := Published(s, p, st, version, plan).value;
      StoredOk(w, s.submissions[id := NewSubmission(p, st, version, plan)], k, AfterSubmission(st, queued, published, id))
  {
    var st := s.episodes[k];
    var sub := NewSubmission(p, st, version, plan);
    var (queued, published) := Published(s, p, st, version, plan).value;
    PublishedFacts(s, p, st, version, plan);
    AfterSubmissionEvents(st, queued, published, id);
    StoredOkWithMore(w, s.submissions, id, sub, k, st);
    hide Published, ObservationsOk, EventsOk, Passed, Evaluate;
  }

  // --- Advancing ---------------------------------------------------------------------------------------------------

  lemma LaterObservations(w: World, observations: seq<Observation>, observed: seq<string>, now: int, later: int)
    requires ObservationsOk(w, observations, observed, now) && now <= later
    ensures ObservationsOk(w, observations, observed, later)
  {
    hide Noted;
    forall i | 0 <= i < |observations| ensures ObservedBy(w, observations[i], later) {
      assert ObservedBy(w, observations[i], now);
    }
  }

  lemma AdvanceFacts(w: World, s: Service, p: Participant, st: Stored, version: nat)
    requires AdvanceOutcome(w, s, p, st, version).Ok?
    ensures st.latest.Some? && st.latest.value in s.submissions && st.episode.state == FeedbackAvailable
    ensures var next, latest := AdvanceOutcome(w, s, p, st, version).value, s.submissions[st.latest.value];
      (latest.evaluation.verdict == Pass
       && next == WithEvent(st.(episode := next.episode), if latest.plan.isFinal then EpisodeCompleted else EpisodeAdvanced, next.episode)
       && next.episode.virtualTime >= st.episode.virtualTime
       && (if latest.plan.isFinal then next.episode == Moved(st.episode, Completed)
           else next.episode == Moved(st.episode, WaitingForSubmission).(stageIndex := st.episode.stageIndex + 1,
                                                                       virtualTime := next.episode.virtualTime)))
  {
  }

  lemma AdvanceKeepsStored(w: World, s: Service, p: Participant, k: string, version: nat)
    requires Sound(w, s) && k in s.episodes && AdvanceOutcome(w, s, p, s.episodes[k], version).Ok?
    ensures StoredOk(w, s.submissions, k, AdvanceOutcome(w, s, p, s.episodes[k], version).value)
  {
    var st := s.episodes[k];
    var next := AdvanceOutcome(w, s, p, st, version).value;
    AdvanceFacts(w, s, p, st, version);
    hide AdvanceOutcome;
    LaterObservations(w, st.observations, st.episode.observed, st.episode.virtualTime, next.episode.virtualTime);
    WithEventOk(st.events, st.episode.version, next.events[|st.events|]);
    hide ObservationsOk, EventsOk, Numbered;
    var latest := s.submissions[st.latest.value];
    assert SubmissionOk(s.submissions, latest);
    if !latest.plan.isFinal { assert Passed(s.submissions, k, 1); }
  }

  // --- Every call keeps the invariant ---------------------------------------------------------------------------------

  /** The id a call draws is not in use. */
  predicate FreshId(s: Service, id: string)
  {
    id !in s.episodes && id !in s.submissions
  }

  lemma CreateKeepsSound(w: World, s: Service, p: Participant, scenario: string, version: string, id: string)
    requires Sound(w, s) && FreshId(s, id)
    ensures Sound(w, Operate(w, s, p, Create(scenario, version), id).0)
  {
    hide SubmissionsOk;
    var outcome := CreateOutcome(w, p, scenario, version, id);
    if outcome.Ok? { assert StoredOk(w, s.submissions, id, outcome.value); }
    hide StoredOk;
  }

  lemma UpdateKeepsSound(w: World, s: Service, k: string, st: Stored)
    requires Sound(w, s) && k in s.episodes && StoredOk(w, s.submissions, k, st) && st.nextRevision == s.episodes[k].nextRevision
    ensures Sound(w, s.(episodes := s.episodes[k := st]))
  {
    hide StoredOk, SubmissionsOk;
  }

  lemma SubmitKeepsSound(w: World, s: Service, p: Participant, k: string, version: nat, plan: Plan, id: string)
    requires Sound(w, s) && FreshId(s, id)
    ensures Sound(w, Operate(w, s, p, Submit(k, version, plan), id).0)
  {
    hide Published, StoredOk, Evaluate, SubmissionOk, SubmissionsOk;
    var owned := Owned(s, p, k);
    if owned.Err? { return; }
    var st := owned.value;
    if Published(s, p, st, version, plan).Err? { return; }
    var sub := NewSubmission(p, st, version, plan);
    PublishedFacts(s, p, st, version, plan);
    SubmissionIsOk(w, s.submissions, p, k, st, version, plan);
    SubmitKeepsStored(w, s, p, k, version, plan, id);
    assert sub.episode == k by { IdOfStored(w, s, k); }
    AddSubmission(s.submissions, s.episodes, id, sub);
    forall j | j in s.episodes && j != k ensures StoredOk(w, s.submissions[id := sub], j, s.episodes[j]) {
      StoredOkWithMore(w, s.submissions, id, sub, j, s.episodes[j]);
    }
  }

  lemma IdOfStored(w: World, s: Service, k: string)
    requires k in s.episodes && StoredOk(w, s.submissions, k, s.episodes[k])
    ensures s.episodes[k].episode.id == k
  {
  }

  lemma OperateKeepsSound(w: World, s: Service, p: Participant, c: Command, id: string)
    requires ScenarioOk(w) && Sound(w, s) && FreshId(s, id)
    ensures Sound(w, Operate(w, s, p, c, id).0)
  {
    hide Sound, Operate, ScenarioOk;
    match c {
      case Create(scenario, version) => CreateKeepsSound(w, s, p, scenario, version, id);
      case Submit(k, version, plan) => SubmitKeepsSound(w, s, p, k, version, plan, id);
      case Observe(k, version, ids) => ObserveKeepsSound(w, s, p, k, version, ids, id);
      case Advance(k, version) => AdvanceKeepsSound(w, s, p, k, version, id);
    }
  }

  lemma ObserveKeepsSound(w: World, s: Service, p: Participant, k: string, version: nat, ids: Option<seq<string>>, id: string)
    requires ScenarioOk(w) && Sound(w, s)
    ensures Sound(w, Operate(w, s, p, Observe(k, version, ids), id).0)
  {
    var owned := Owned(s, p, k);
    if owned.Err? || ObserveOutcome(w, owned.value, version, ids).Err? { return; }
    ObserveFacts(w, owned.value, version, ids);
    ObserveKeepsStored(w, s.submissions, k, owned.value, version, ids);
    hide ObserveOutcome, StoredOk, Selection, Note, AddNew, SubmissionsOk, Numbered;
    UpdateKeepsSound(w, s, k, ObserveOutcome(w, owned.value, version, ids).value.0);
  }

  lemma AdvanceKeepsSound(w: World, s: Service, p: Participant, k: string, version: nat, id: string)
    requires Sound(w, s)
    ensures Sound(w, Operate(w, s, p, Advance(k, version), id).0)
  {
    var owned := Owned(s, p, k);
    if owned.Err? || AdvanceOutcome(w, s, p, owned.value, version).Err? { return; }
    AdvanceFacts(w, s, p, owned.value, version);
    AdvanceKeepsStored(w, s, p, k, version);
    hide AdvanceOutcome, StoredOk, SubmissionsOk, Numbered;
    UpdateKeepsSound(w, s, k, AdvanceOutcome(w, s, p, owned.value, version).value);
  }

  // --- Runs ---------------------------------------------------------------------------------------------------------------

  datatype Request = Request(participant: Participant, key: string, command: Command, id: string)

  /** One request; an id already in use is never drawn. */
  function Next(w: World, s: Service, r: Request): Service
  {
    if FreshId(s, r.id) then Call(w, s, r.participant, r.key, r.command, r.id).0 else s
  }

  function Run(w: World, s: Service, rs: seq<Request>): Service
    decreases |rs|
  {
    if rs == [] then s else Run(w, Next(w, s, rs[0]), rs[1..])
  }

  lemma NextKeepsSound(w: World, s: Service, r: Request)
    requires ScenarioOk(w) && Sound(w, s)
    ensures Sound(w, Next(w, s, r))
  {
    hide Operate, StoredOk, SubmissionsOk, Numbered;
    if FreshId(s, r.id) { OperateKeepsSound(w, s, r.participant, r.command, r.id); }
  }

  lemma {:induction false} RunKeepsSound(w: World, s: Service, rs: seq<Request>)
    requires ScenarioOk(w) && Sound(w, s)
    ensures Sound(w, Run(w, s, rs))
    decreases |rs|
  {
    hide Sound, Next;
    if rs != [] {
      NextKeepsSound(w, s, rs[0]);
      RunKeepsSound(w, Next(w, s, rs[0]), rs[1..]);
    }
  }

  lemma ReachableIsSound(w: World, rs: seq<Request>)
    requires ScenarioOk(w)
    ensures Sound(w, Run(w, Empty, rs))
  {
    assert Sound(w, Empty);
    RunKeepsSound(w, Empty, rs);
  }

  // --- Main results -----------------------------------------------------------------------------------------------------------

  /** In every reachable state, whatever an episode has observed was released by its virtual time. */
  lemma ObservedWasReleased(w: World, rs: seq<Request>, k: string, id: string)
    requires ScenarioOk(w) && k in Run(w, Empty, rs).episodes
    requires id in Run(w, Empty, rs).episodes[k].episode.observed
    ensures exists i | 0 <= i < |w.scenario.information| ::
      w.scenario.information[i].id == id
      && w.scenario.information[i].releasedTime <= Run(w, Empty, rs).episodes[k].episode.virtualTime
  {
    ReachableIsSound(w, rs);
    var st := Run(w, Empty, rs).episodes[k];
    assert StoredOk(w, Run(w, Empty, rs).submissions, k, st);
    hide Run, LatestOk, EventsOk, Passed, SubmissionsOk, Numbered;
    assert Noted(st.observations, id);
    var j :| 0 <= j < |st.observations| && st.observations[j].informationId == id;
    assert ObservedBy(w, st.observations[j], st.episode.virtualTime);
  }

  /** No evaluation of any run counts a time-travel violation. */
  lemma NoTimeTravel(w: World, rs: seq<Request>, x: string)
    requires ScenarioOk(w) && x in Run(w, Empty, rs).submissions
    ensures Run(w, Empty, rs).submissions[x].evaluation.timeTravel == 0
  {
    ReachableIsSound(w, rs);
    hide Run, StoredOk, Numbered;
    assert SubmissionOk(Run(w, Empty, rs).submissions, Run(w, Empty, rs).submissions[x]);
  }

  /** The submissions of an episode form one chain: every number below the next one is taken by exactly one
      submission, and each but the first revises the one numbered just before it. */
  lemma {:induction false} SubmissionsFormOneChain(w: World, rs: seq<Request>, k: string, n: nat) returns (x: string)
    requires ScenarioOk(w) && k in Run(w, Empty, rs).episodes && 1 <= n < Run(w, Empty, rs).episodes[k].nextRevision
    ensures var subs := Run(w, Empty, rs).submissions;
      (x in subs && subs[x].episode == k && subs[x].revisionNo == n
       && (forall y | y in subs && subs[y].episode == k && subs[y].revisionNo == n :: y == x)
       && (if n == 1 then subs[x].revisionOf.None?
           else subs[x].revisionOf.Some? && subs[x].revisionOf.value in subs
                && subs[subs[x].revisionOf.value].episode == k && subs[subs[x].revisionOf.value].revisionNo == n - 1))
    decreases Run(w, Empty, rs).episodes[k].nextRevision - n
  {
    ReachableIsSound(w, rs);
    var s := Run(w, Empty, rs);
    assert StoredOk(w, s.submissions, k, s.episodes[k]);
    if n == s.episodes[k].nextRevision - 1 {
      x := s.episodes[k].latest.value;
    } else {
      var later := SubmissionsFormOneChain(w, rs, k, n + 1);
      x := s.submissions[later].revisionOf.value;
    }
    hide Run, ObservationsOk, EventsOk, Passed, Numbered;
    assert SubmissionOk(s.submissions, s.submissions[x]);
  }

  /** A completed episode has a passing stage-1 submission and a passing final stage-2 submission, its last. */
  lemma CompletedMeansPassed(w: World, rs: seq<Request>, k: string)
    requires ScenarioOk(w) && k in Run(w, Empty, rs).episodes && Run(w, Empty, rs).episodes[k].episode.state == Completed
    ensures var s := Run(w, Empty, rs);
      var st := s.episodes[k];
      Passed(s.submissions, k, 1) && st.latest.Some? && st.latest.value in s.submissions
      && var last := s.submissions[st.latest.value];
         last.episode == k && last.plan.stage == 2 && last.plan.isFinal && last.evaluation.verdict == Pass
  {
    ReachableIsSound(w, rs);
    var s := Run(w, Empty, rs);
    hide Run, ObservationsOk, EventsOk, Passed, Numbered;
    assert StoredOk(w, s.submissions, k, s.episodes[k]);
    assert SubmissionOk(s.submissions, s.submissions[s.episodes[k].latest.value]);
  }

  /** What one request does to an episode: nothing, or it gives it a later version; virtual time, the
      observed ids and the events already there never go away. */
  ghost predicate EpisodeMoves(a: Stored, b: Stored)
  {
    && (b.episode == a.episode || b.episode.version > a.episode.version)
    && b.episode.virtualTime >= a.episode.virtualTime && b.participant == a.participant
    && (forall id | id in a.episode.observed :: id in b.episode.observed)
    && a.events <= b.events && b.nextRevision >= a.nextRevision
  }

  lemma ObserveMoves(w: World, st: Stored, version: nat, ids: Option<seq<string>>)
    requires ObserveOutcome(w, st, version, ids).Ok?
    ensures EpisodeMoves(st, ObserveOutcome(w, st, version, ids).value.0)
  {
    ObserveFacts(w, st, version, ids);
    hide ObserveOutcome;
    AddNewGrows(st.episode.observed, Ids(Selection(w, st, ids).value));
    hide Selection, AddNew, Note;
  }

  lemma SubmitMoves(s: Service, p: Participant, st: Stored, version: nat, plan: Plan, id: string)
    requires Published(s, p, st, version, plan).Ok?
    ensures var (queued, published) := Published(s, p, st, version, plan).value;
            EpisodeMoves(st, AfterSubmission(st, queued, published, id))
  {
    PublishedFacts(s, p, st, version, plan);
    hide Published;
  }

  lemma AdvanceMoves(w: World, s: Service, p: Participant, st: Stored, version: nat)
    requires AdvanceOutcome(w, s, p, st, version).Ok?
    ensures EpisodeMoves(st, AdvanceOutcome(w, s, p, st, version).value)
  {
    AdvanceFacts(w, s, p, st, version);
    hide AdvanceOutcome;
  }

  /** Versions strictly increase whenever an episode changes, and submissions never change. */
  lemma NextMovesForward(w: World, s: Service, r: Request, k: string)
    requires k in s.episodes
    ensures var after := Next(w, s, r);
      k in after.episodes && EpisodeMoves(s.episodes[k], after.episodes[k])
      && forall x | x in s.submissions :: x in after.submissions && after.submissions[x] == s.submissions[x]
  {
    hide ObserveOutcome, Published, AdvanceOutcome, AfterSubmission, NewSubmission, CreateOutcome, EpisodeMoves;
    StaysPut(s.episodes[k]);
    if FreshId(s, r.id) && Owned(s, r.participant, k).Ok? {
      var st := s.episodes[k];
      match r.command {
        case Observe(e, version, ids) => if ObserveOutcome(w, st, version, ids).Ok? { ObserveMoves(w, st, version, ids); }
        case Submit(e, version, plan) =>
          if Published(s, r.participant, st, version, plan).Ok? {
            SubmitMoves(s, r.participant, st, version, plan, r.id);
          }
        case Advance(e, version) =>
          if AdvanceOutcome(w, s, r.participant, st, version).Ok? { AdvanceMoves(w, s, r.participant, st, version); }
        case Create(_, _) =>
      }
    }
  }

  lemma StaysPut(st: Stored)
    ensures EpisodeMoves(st, st)
  {
  }

  /** A request that fails changes nothing. */
  lemma FailureChangesNothing(w: World, s: Service, p: Participant, key: string, c: Command, id: string)
    requires Call(w, s, p, key, c, id).1.Err?
    ensures Call(w, s, p, key, c, id).0 == s
  {
    hide ObserveOutcome, Published, AdvanceOutcome, AfterSubmission, NewSubmission;
  }

  lemma {:induction false} CacheStays(w: World, s: Service, rs: seq<Request>, key: string)
    requires key in s.idempotency
    ensures key in Run(w, s, rs).idempotency && Run(w, s, rs).idempotency[key] == s.idempotency[key]
    decreases |rs|
  {
    hide ObserveOutcome, Published, AdvanceOutcome, AfterSubmission, NewSubmission, CreateOutcome;
    if rs != [] { CacheStays(w, Next(w, s, rs[0]), rs[1..], key); }
  }

  /** A request that succeeded, repeated any time later with the same key, is given the same response and
      changes nothing; with the key of a different request it is refused. */
  lemma RetryChangesNothing(w: World, s: Service, p: Participant, key: string, c: Command, id: string, rs: seq<Request>, d: Command, id': string)
    requires Call(w, s, p, key, c, id).1.Ok? && CacheKey(p, d, key) == CacheKey(p, c, key)
    requires CacheKey(p, c, key) in s.idempotency ==> s.idempotency[CacheKey(p, c, key)].hash == w.hash(c)
    ensures var later := Run(w, Call(w, s, p, key, c, id).0, rs);
      Call(w, later, p, key, d, id')
      == (later, if w.hash(d) == w.hash(c) then Call(w, s, p, key, c, id).1 else Err(IdempotencyConflict))
  {
    var after := Call(w, s, p, key, c, id).0;
    hide Operate;
    CacheStays(w, after, rs, CacheKey(p, c, key));
    hide Run;
  }
}
