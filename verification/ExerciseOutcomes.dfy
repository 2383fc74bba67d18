/** What every request to the exercise service answers and leaves behind: when it succeeds, why it is refused,
    and the episode, observations, events and submissions after it. */
module ExerciseOutcomes {
  import opened Outcomes
  import opened Episodes
  import opened ExerciseService
  import opened ExerciseRuns
  import opened Sequences

  ghost predicate Owns(s: Service, p: Participant, k: string)
  {
    k in s.episodes && s.episodes[k].participant == p.id
  }

  // --- Create ---------------------------------------------------------------------------------------------------

  /** A new episode waits for a submission at the start of the scenario, with one event. */
  lemma CreateSays(w: World, s: Service, p: Participant, scenario: string, version: string, id: string)
    ensures var (after, r) := Operate(w, s, p, Create(scenario, version), id);
      if scenario != w.scenario.version then after == s && r == Err(ValidationFailed)
      else if version !in p.versions then after == s && r == Err(NotAuthorized)
      else
        && id in after.episodes && after == s.(episodes := s.episodes[id := after.episodes[id]])
        && var st := after.episodes[id];
        && r == Ok(Created(st.episode)) && st.participant == p.id && st.observations == [] && st.latest == None && st.nextRevision == 1
        && st.events == [EpisodeEvent(sequence := 1, kind := EpisodeCreated, version := 1, virtualTime := w.scenario.replayStart)]
        && st.episode == Episode(id := id, scenarioVersion := scenario, participantVersion := version,
                                 state := WaitingForSubmission, stageIndex := 0, virtualTime := w.scenario.replayStart,
                                 version := 1, observed := [])
  {
  }

  // --- Observe ----------------------------------------------------------------------------------------------------

  /** An item with the id has been released by a virtual time. */
  ghost predicate Visible(w: World, now: int, id: string)
  {
    exists x | x in w.scenario.information :: x.id == id && x.releasedTime <= now
  }

  ghost predicate OutOfOrder(x: Information)
  {
    x.observedTime < x.eventTime || x.ingestedTime < x.observedTime || x.releasedTime < x.ingestedTime
  }

  /** The ids a request asks for: those it names, or all that are visible. */
  ghost predicate AskedFor(w: World, now: int, ids: Option<seq<string>>, id: string)
  {
    match ids
    case Some(named) => id in named
    case None => Visible(w, now, id)
  }

  ghost function SeenBy(w: World, now: int): seq<Information>
  {
    WithIds(w.scenario.information, Ids(Filter(w.scenario.information, now)))
  }

  lemma SeenIffVisible(w: World, now: int, id: string)
    ensures (exists x | x in SeenBy(w, now) :: x.id == id) <==> Visible(w, now, id)
    ensures forall x | x in SeenBy(w, now) :: x in w.scenario.information && Visible(w, now, x.id)
  {
    var items := w.scenario.information;
    var visible := Filter(items, now);
    forall x ensures x in visible <==> x in items && x.releasedTime <= now { FilterReleases(items, now, x); }
    forall x ensures x in SeenBy(w, now) <==> x in items && x.id in Ids(visible) { WithIdsSelects(items, Ids(visible), x); }
    forall id' ensures id' in Ids(visible) <==> exists x | x in visible :: x.id == id' {
      if x :| x in visible && x.id == id' {
        var i :| 0 <= i < |visible| && visible[i] == x;
        assert Ids(visible)[i] == id';
      }
    }
  }

  lemma {:induction false} FoundById(items: seq<Information>, id: string)
    ensures ById(items, id).Some? <==> exists x | x in items :: x.id == id
    ensures ById(items, id).Some? ==> ById(items, id).value in items && ById(items, id).value.id == id
  {
    if items != [] {
      FoundById(items[..|items| - 1], id);
      assert items == items[..|items| - 1] + [items[|items| - 1]];
    }
  }

  lemma {:induction false} SelectedById(items: seq<Information>, ids: seq<string>)
    ensures Select(items, ids).None? <==> exists k | 0 <= k < |ids| :: forall x | x in items :: x.id != ids[k]
    ensures Select(items, ids).Some? ==>
      |Select(items, ids).value| == |ids|
      && forall k | 0 <= k < |ids| :: Select(items, ids).value[k] in items && Select(items, ids).value[k].id == ids[k]
  {
    if ids != [] {
      SelectedById(items, ids[..|ids| - 1]);
      FoundById(items, ids[|ids| - 1]);
      assert forall k | 0 <= k < |ids| - 1 :: ids[..|ids| - 1][k] == ids[k];
    }
  }

  /** A list of ids grows by new ones, each once. */
  ghost predicate GrowsBy(before: seq<string>, after: seq<string>, more: set<string>)
  {
    && before <= after && (forall id :: id in after <==> id in before || id in more)
    && forall i, j | |before| <= j < |after| && 0 <= i < j :: after[i] != after[j]
  }

  lemma {:induction false} AddedEachOnce(observed: seq<string>, ids: seq<string>)
    ensures GrowsBy(observed, AddNew(observed, ids), set id | id in ids)
  {
    if ids != [] {
      var init, last := ids[..|ids| - 1], ids[|ids| - 1];
      AddedEachOnce(observed, init);
      assert ids == init + [last];
    }
  }

  /** Observations grow by one for every new id, made now, of an item of the scenario. */
  ghost predicate NotesBy(w: World, before: seq<Observation>, after: seq<Observation>, more: set<string>, now: int)
  {
    && before <= after && (forall id :: Noted(after, id) <==> Noted(before, id) || id in more)
    && (forall i, j | |before| <= j < |after| && 0 <= i < j :: after[i].informationId != after[j].informationId)
    && forall i | |before| <= i < |after| ::
         after[i].accessedVirtualTime == now
         && exists x | x in w.scenario.information :: x.id == after[i].informationId && x.releasedTime == after[i].releasedTime
  }

  lemma {:induction false} NotedEachOnce(w: World, observations: seq<Observation>, items: seq<Information>, now: int)
    requires forall x | x in items :: x in w.scenario.information
    ensures NotesBy(w, observations, Note(observations, items, now), set x | x in items :: x.id, now)
  {
    if items != [] {
      var init, last := items[..|items| - 1], items[|items| - 1];
      assert items == init + [last];
      NotedEachOnce(w, observations, init, now);
      var before := Note(observations, init, now);
      var o := Observation(last.id, last.releasedTime, now);
      forall id ensures Noted(before + [o], id) <==> Noted(before, id) || last.id == id { NotedAppend(before, o, id); }
      assert forall i | 0 <= i < |before| :: Noted(before, before[i].informationId);
    }
  }

  lemma {:induction false} NotedOfIs(observations: seq<Observation>, id: string)
    requires Noted(observations, id)
    ensures |NotedOf(observations, id)| == 1 && NotedOf(observations, id)[0] in observations
    ensures NotedOf(observations, id)[0].informationId == id
  {
    if observations[0].informationId != id {
      var i :| 0 <= i < |observations| && observations[i].informationId == id;
      assert observations[1..][i - 1] == observations[i];
      NotedOfIs(observations[1..], id);
    }
  }

  lemma {:induction false} ObservationsOfIs(observations: seq<Observation>, items: seq<Information>)
    requires forall x | x in items :: Noted(observations, x.id)
    ensures var os := ObservationsOf(observations, items);
      |os| == |items| && forall k | 0 <= k < |os| :: os[k] in observations && os[k].informationId == items[k].id
  {
    if items != [] {
      var init, last := items[..|items| - 1], items[|items| - 1];
      assert items == init + [last];
      ObservationsOfIs(observations, init);
      NotedOfIs(observations, last.id);
    }
  }

  /** What an accepted observation leaves behind and answers. */
  ghost predicate ObservedAll(w: World, st: Stored, ids: Option<seq<string>>, next: Stored, os: seq<Observation>)
  {
    exists asked: set<string> :: (forall id :: id in asked <==> AskedFor(w, st.episode.virtualTime, ids, id))
                                 && ObservedThese(w, st, asked, next) && Answers(next.observations, asked, ids, os)
  }

  /** The ids asked for are observed and noted; only if one of them is new does the version rise, with one event. */
  ghost predicate ObservedThese(w: World, st: Stored, asked: set<string>, next: Stored)
  {
    var e, e', now := st.episode, next.episode, st.episode.virtualTime;
    var isNew := exists id | id in asked :: id !in e.observed;
    && GrowsBy(e.observed, e'.observed, asked) && NotesBy(w, st.observations, next.observations, asked, now)
    && e' == e.(observed := e'.observed, version := if isNew then e.version + 1 else e.version)
    && next == st.(episode := e', observations := next.observations, events := next.events)
    && next.events == st.events + (if isNew then [EpisodeEvent(|st.events| + 1, ObservationsRecorded, e'.version, now)] else [])
  }

  /** The answer holds the observations of the ids asked for, in the order they were named if they were. */
  ghost predicate Answers(observations: seq<Observation>, asked: set<string>, ids: Option<seq<string>>, os: seq<Observation>)
  {
    && (forall o | o in os :: o in observations && o.informationId in asked)
    && (forall id | id in asked :: exists o | o in os :: o.informationId == id)
    && (ids.Some? ==> |os| == |ids.value| && forall k | 0 <= k < |os| :: os[k].informationId == ids.value[k])
  }

  /** Observing is refused for another's episode, a stale version, a scenario whose times are out of order, an
      id that is not visible yet, or an episode that waits for no submission, in this order. */
  lemma ObserveSays(w: World, s: Service, p: Participant, k: string, version: nat, ids: Option<seq<string>>, id: string)
    ensures var (after, r) := Operate(w, s, p, Observe(k, version, ids), id);
      if !Owns(s, p, k) then after == s && r == Err(NotFound)
      else
        var st := s.episodes[k];
        if st.episode.version != version then after == s && r == Err(VersionConflict)
        else if exists x | x in w.scenario.information :: OutOfOrder(x) then after == s && r == Err(InvalidTimeline)
        else if ids.Some? && exists i | 0 <= i < |ids.value| :: !Visible(w, st.episode.virtualTime, ids.value[i]) then
          after == s && r == Err(ValidationFailed)
        else if st.episode.state != WaitingForSubmission then after == s && r == Err(StateConflict)
        else
          && k in after.episodes && after == s.(episodes := s.episodes[k := after.episodes[k]])
          && r.Ok? && r.value.Observed? && r.value.episode == after.episodes[k].episode
          && ObservedAll(w, st, ids, after.episodes[k], r.value.observations)
  {
    if Owns(s, p, k) && s.episodes[k].episode.version == version {
      var st := s.episodes[k];
      SelectionSays(w, st, ids);
      hide Selection, OutOfOrder, Visible, ObservedAll, Note, AddNew, ObservationsOf;
      if Selection(w, st, ids).Ok? && st.episode.state == WaitingForSubmission { ObservationSays(w, st, version, ids); }
    }
  }

  lemma SelectionSays(w: World, st: Stored, ids: Option<seq<string>>)
    ensures var now, selected := st.episode.virtualTime, Selection(w, st, ids);
      if exists x | x in w.scenario.information :: OutOfOrder(x) then selected == Err(InvalidTimeline)
      else if ids.Some? && exists i | 0 <= i < |ids.value| :: !Visible(w, now, ids.value[i]) then selected == Err(ValidationFailed)
      else
        && selected.Ok? && (forall x | x in selected.value :: x in w.scenario.information)
        && (forall id :: AskedFor(w, now, ids, id) <==> exists x | x in selected.value :: x.id == id)
        && (ids.Some? ==> |selected.value| == |ids.value| && forall i | 0 <= i < |ids.value| :: selected.value[i].id == ids.value[i])
  {
    var now, items := st.episode.virtualTime, w.scenario.information;
    if x :| x in items && OutOfOrder(x) {
      var i :| 0 <= i < |items| && items[i] == x;
      assert !items[i].TimelineOk();
    } else {
      assert forall i | 0 <= i < |items| :: items[i].TimelineOk() by {
        forall i | 0 <= i < |items| ensures items[i].TimelineOk() { assert !OutOfOrder(items[i]); }
      }
      var released := SeenBy(w, now);
      forall id ensures (exists x | x in released :: x.id == id) <==> Visible(w, now, id) { SeenIffVisible(w, now, id); }
      SeenIffVisible(w, now, "");
      if ids.Some? { SelectedById(released, ids.value); }
      hide SeenBy, Visible, Select, WithIds;
      SelectedOrAll(w, st, ids, released);
    }
  }

  lemma SelectedOrAll(w: World, st: Stored, ids: Option<seq<string>>, released: seq<Information>)
    requires released == SeenBy(w, st.episode.virtualTime)
    requires forall i | 0 <= i < |w.scenario.information| :: w.scenario.information[i].TimelineOk()
    ensures Selection(w, st, ids)
         == if ids.None? then Ok(released)
            else if Select(released, ids.value).None? then Err(ValidationFailed)
            else Ok(Select(released, ids.value).value)
  {
  }

  lemma ObservationSays(w: World, st: Stored, version: nat, ids: Option<seq<string>>)
    requires st.episode.version == version && st.episode.state == WaitingForSubmission && Selection(w, st, ids).Ok?
    ensures ObserveOutcome(w, st, version, ids).Ok?
    ensures var (next, items) := ObserveOutcome(w, st, version, ids).value;
      ObservedAll(w, st, ids, next, ObservationsOf(next.observations, items))
  {
    hide ObserveOutcome, AskedFor, Note, AddNew, ObservationsOf, GrowsBy, NotesBy, Noted, Selection, OutOfOrder, Visible;
    ObserveAccepts(w, st, version, ids);
    SelectionSays(w, st, ids);
    ObserveFacts(w, st, version, ids);
    var (next, items) := ObserveOutcome(w, st, version, ids).value;
    var now := st.episode.virtualTime;
    var asked := set x | x in items :: x.id;
    NotedEachOnce(w, st.observations, items, now);
    AddedEachOnce(st.episode.observed, Ids(items));
    IdsAreIds(items);
    NewIffAsked(st.episode.observed, items);
    AllNoted(w, st.observations, next.observations, asked, items, now);
    AskedAreAnswered(next.observations, items, asked);
    assert ObservedThese(w, st, asked, next);
    hide ObservedThese;
    assert Answers(next.observations, asked, ids, ObservationsOf(next.observations, items));
    hide Answers;
  }

  /** Something new is asked for exactly if the list of observed ids grows. */
  lemma NewIffAsked(observed: seq<string>, items: seq<Information>)
    ensures (exists id | id in (set x | x in items :: x.id) :: id !in observed) <==> AddNew(observed, Ids(items)) != observed
  {
    AddNewGrows(observed, Ids(items));
    IdsAreIds(items);
    var asked := set x | x in items :: x.id;
    assert forall i | 0 <= i < |Ids(items)| :: Ids(items)[i] in (set id | id in Ids(items));
    if id :| id in asked && id !in observed {
      assert id in (set id | id in Ids(items));
      var i :| 0 <= i < |Ids(items)| && Ids(items)[i] == id;
    }
    hide AddNew;
  }

  lemma AllNoted(w: World, before: seq<Observation>, after: seq<Observation>, asked: set<string>, items: seq<Information>, now: int)
    requires NotesBy(w, before, after, asked, now) && asked == set x | x in items :: x.id
    ensures forall x | x in items :: Noted(after, x.id)
  {
    hide Noted;
    forall x | x in items ensures Noted(after, x.id) { assert x.id in asked; }
  }

  lemma AskedAreAnswered(observations: seq<Observation>, items: seq<Information>, asked: set<string>)
    requires asked == (set x | x in items :: x.id) && forall x | x in items :: Noted(observations, x.id)
    ensures var os := ObservationsOf(observations, items);
      && |os| == |items| && (forall k | 0 <= k < |os| :: os[k].informationId == items[k].id)
      && (forall o | o in os :: o in observations && o.informationId in asked)
      && (forall id | id in asked :: exists o | o in os :: o.informationId == id)
  {
    ObservationsOfIs(observations, items);
    hide ObservationsOf, Noted;
    var os := ObservationsOf(observations, items);
    forall id | id in asked ensures exists o | o in os :: o.informationId == id {
      var x :| x in items && x.id == id;
      var k :| 0 <= k < |items| && items[k] == x;
      assert os[k] in os;
    }
    forall o | o in os ensures o in observations && o.informationId in asked {
      var k :| 0 <= k < |os| && os[k] == o;
      assert items[k] in items;
    }
  }

  lemma ObserveAccepts(w: World, st: Stored, version: nat, ids: Option<seq<string>>)
    requires st.episode.version == version && st.episode.state == WaitingForSubmission && Selection(w, st, ids).Ok?
    ensures ObserveOutcome(w, st, version, ids).Ok?
  {
  }

  lemma IdsAreIds(items: seq<Information>)
    ensures (set id | id in Ids(items)) == set x | x in items :: x.id
  {
    forall id | id in Ids(items) ensures exists x | x in items :: x.id == id {
      var i :| 0 <= i < |items| && Ids(items)[i] == id;
      assert items[i] in items;
    }
    forall x | x in items ensures x.id in Ids(items) {
      var i :| 0 <= i < |items| && items[i] == x;
      assert Ids(items)[i] == x.id;
    }
  }

  // --- Submit -------------------------------------------------------------------------------------------------------

  /** What is wrong with a release by itself and the ones before it, in the order of the checks. */
  ghost predicate WrongRelease(observed: seq<string>, releases: seq<SourceRelease>, i: nat, error: Error)
    requires i < |releases|
  {
    var x := releases[i];
    var repeated := exists j | 0 <= j < i :: releases[j].source == x.source;
    match error
    case InvalidVolume => x.flow < 0.0
    case DuplicateAllocation => x.flow >= 0.0 && repeated
    case EvidenceNotObserved => x.flow >= 0.0 && !repeated && exists e | e in x.evidence :: e !in observed
    case _ => false
  }

  ghost predicate FirstWrong(observed: seq<string>, releases: seq<SourceRelease>, error: Error)
  {
    exists i | 0 <= i < |releases| ::
      WrongRelease(observed, releases, i, error) && forall j, other | 0 <= j < i :: !WrongRelease(observed, releases, j, other)
  }

  lemma FaultIsWrong(observed: seq<string>, releases: seq<SourceRelease>, i: nat, error: Error)
    requires i < |releases|
    ensures ReleaseFault(observed, releases, i) == Some(error) <==> WrongRelease(observed, releases, i, error)
  {
    var x := releases[i];
    if e :| e in x.evidence && e !in observed {
      var k :| 0 <= k < |x.evidence| && x.evidence[k] == e;
    }
  }

  lemma {:induction false} FirstFault(observed: seq<string>, releases: seq<SourceRelease>, n: nat)
    requires n <= |releases|
    ensures var fault := ReleasesFault(observed, releases, n);
      && (fault.None? ==> forall i, error | 0 <= i < n :: !WrongRelease(observed, releases, i, error))
      && (fault.Some? ==> exists i | 0 <= i < n :: WrongRelease(observed, releases, i, fault.value)
                                                   && forall j, other | 0 <= j < i :: !WrongRelease(observed, releases, j, other))
  {
    if n > 0 {
      FirstFault(observed, releases, n - 1);
      forall error ensures ReleaseFault(observed, releases, n - 1) == Some(error) <==> WrongRelease(observed, releases, n - 1, error) {
        FaultIsWrong(observed, releases, n - 1, error);
      }
    }
    hide WrongRelease, ReleaseFault;
  }

  lemma NothingWrong(observed: seq<string>, releases: seq<SourceRelease>)
    ensures ReleasesFault(observed, releases, |releases|).None? ==> forall error :: !FirstWrong(observed, releases, error)
    ensures ReleasesFault(observed, releases, |releases|).Some? ==>
              FirstWrong(observed, releases, ReleasesFault(observed, releases, |releases|).value)
  {
    FirstFault(observed, releases, |releases|);
    hide WrongRelease, ReleasesFault;
  }

  /** The submission an episode last got, if it is the participant's. */
  ghost predicate OwnsLatest(s: Service, p: Participant, st: Stored)
  {
    st.latest.Some? && st.latest.value in s.submissions && s.submissions[st.latest.value].participant == p.id
  }

  /** Why an episode cannot take a submission now, if it cannot: one that has feedback takes a revision of a
      plan that did not pass. */
  ghost predicate CannotTake(s: Service, p: Participant, st: Stored, version: nat, error: Error)
  {
    match error
    case StateConflict =>
      if st.episode.state == FeedbackAvailable then
        st.latest.None? || (OwnsLatest(s, p, st) && s.submissions[st.latest.value].evaluation.verdict == Pass)
      else st.episode.version == version && st.episode.state != WaitingForSubmission
    case NotFound => st.episode.state == FeedbackAvailable && st.latest.Some? && !OwnsLatest(s, p, st)
    case VersionConflict =>
      st.episode.version != version
      && (st.episode.state == FeedbackAvailable ==>
            OwnsLatest(s, p, st) && s.submissions[st.latest.value].evaluation.verdict != Pass)
    case _ => false
  }

  ghost predicate CitesRules(plan: Plan)
  {
    forall x | x in plan.releases ::
      (plan.stage == 2 ==> "simulated-update-20230323-corridor" in x.evidence)
      && (plan.stage != 2 ==> "simulated-rules-20230322-stage-1" in x.evidence)
  }

  /** What an accepted submission leaves behind: the numbered submission with its evaluation, and the episode
      with feedback and two more events. */
  ghost predicate SubmittedPlan(s: Service, p: Participant, k: string, st: Stored, version: nat, plan: Plan, id: string,
                                after: Service, answer: Response)
  {
    var base := if st.episode.state == FeedbackAvailable then version + 1 else version;
    && id in after.submissions && k in after.episodes
    && after == s.(submissions := s.submissions[id := after.submissions[id]], episodes := s.episodes[k := after.episodes[k]])
    && var sub, next := after.submissions[id], after.episodes[k];
    && answer == Submitted(id, sub, next.episode)
    && sub == Submission(participant := p.id, episode := st.episode.id, revisionNo := st.nextRevision, revisionOf := st.latest,
                         episodeVersion := version, plan := plan, evaluation := sub.evaluation)
    && sub.evaluation == Evaluate(RulesFor(plan.stage), plan, st.observations, st.episode.virtualTime)
    && next == st.(latest := Some(id), nextRevision := st.nextRevision + 1, episode := next.episode, events := next.events)
    && next.episode == st.episode.(state := FeedbackAvailable, version := base + 3)
    && next.events == st.events
       + [EpisodeEvent(|st.events| + 1, SubmissionCreated, base + 1, st.episode.virtualTime),
          EpisodeEvent(|st.events| + 2, EvaluationCompleted, base + 3, st.episode.virtualTime)]
  }

  /** Submitting is refused, in this order, for another's episode, another stage, an episode that cannot take
      a submission now, an empty plan, the wrong finality, the first wrong release, or a release that does not
      cite the rules of the stage; otherwise it is evaluated and answered. */
  lemma SubmitSays(w: World, s: Service, p: Participant, k: string, version: nat, plan: Plan, id: string)
    ensures var (after, r) := Operate(w, s, p, Submit(k, version, plan), id);
      if !Owns(s, p, k) then after == s && r == Err(NotFound)
      else
        var st := s.episodes[k];
        if plan.stage != st.episode.stageIndex + 1 then after == s && r == Err(ValidationFailed)
        else if exists e :: CannotTake(s, p, st, version, e) then after == s && r.Err? && CannotTake(s, p, st, version, r.error)
        else if plan.releases == [] then after == s && r == Err(EmptySubmission)
        else if (plan.stage == 1 && plan.isFinal) || (plan.stage == 2 && !plan.isFinal) then after == s && r == Err(FinalityInvalid)
        else if exists e :: FirstWrong(st.episode.observed, plan.releases, e) then
          after == s && r.Err? && FirstWrong(st.episode.observed, plan.releases, r.error)
        else if !CitesRules(plan) then after == s && r == Err(EvidenceNotRelevant)
        else r.Ok? && SubmittedPlan(s, p, k, st, version, plan, id, after, r.value)
  {
    if Owns(s, p, k) && plan.stage == s.episodes[k].episode.stageIndex + 1 {
      var st := s.episodes[k];
      NothingWrong(st.episode.observed, plan.releases);
      RulesAreCited(plan);
      PublishedSays(s, p, st, version, plan);
      hide ReleasesFault, Evaluate, CitesRules, EvidenceRelevant, FirstWrong, Published, CannotTake;
      if Published(s, p, st, version, plan).Ok? {
        AcceptedSubmission(w, s, p, k, version, plan, id);
      }
    }
  }

  lemma RulesAreCited(plan: Plan)
    ensures CitesRules(plan) <==> EvidenceRelevant(plan)
  {
    if EvidenceRelevant(plan) {
      forall x | x in plan.releases ensures CurrentRuleId(plan.stage) in x.evidence {
        var i :| 0 <= i < |plan.releases| && plan.releases[i] == x;
      }
    }
    if CitesRules(plan) {
      forall i | 0 <= i < |plan.releases| ensures CurrentRuleId(plan.stage) in plan.releases[i].evidence {
        assert plan.releases[i] in plan.releases;
      }
    }
  }

  lemma PublishedSays(s: Service, p: Participant, st: Stored, version: nat, plan: Plan)
    requires plan.stage == st.episode.stageIndex + 1
    ensures var r := Published(s, p, st, version, plan);
      if exists e :: CannotTake(s, p, st, version, e) then r.Err? && CannotTake(s, p, st, version, r.error)
      else if plan.releases == [] then r == Err(EmptySubmission)
      else if (plan.stage == 1 && plan.isFinal) || (plan.stage == 2 && !plan.isFinal) then r == Err(FinalityInvalid)
      else if ReleasesFault(st.episode.observed, plan.releases, |plan.releases|).Some? then
        r == Err(ReleasesFault(st.episode.observed, plan.releases, |plan.releases|).value)
      else if !EvidenceRelevant(plan) then r == Err(EvidenceNotRelevant)
      else
        var base := if st.episode.state == FeedbackAvailable then version + 1 else version;
        r == Ok((st.episode.(state := EvaluationQueued, version := base + 1),
                 st.episode.(state := FeedbackAvailable, version := base + 3)))
  {
    BaseSays(s, p, st, version);
    hide ReleasesFault, EvidenceRelevant, CannotTake;
  }

  lemma BaseSays(s: Service, p: Participant, st: Stored, version: nat)
    ensures var base := SubmissionBase(s, p, st, version);
      if exists e :: CannotTake(s, p, st, version, e) then
        || (base.Err? && CannotTake(s, p, st, version, base.error))
        || (base.Ok? && Check(base.value.0, base.value.1, WaitingForSubmission).Some?
            && CannotTake(s, p, st, version, Check(base.value.0, base.value.1, WaitingForSubmission).value))
      else
        var n := if st.episode.state == FeedbackAvailable then version + 1 else version;
        base == Ok((st.episode.(state := WaitingForSubmission, version := n), n))
  {
    assert CannotTake(s, p, st, version, StateConflict) || CannotTake(s, p, st, version, NotFound)
           || CannotTake(s, p, st, version, VersionConflict)
           <==> exists e :: CannotTake(s, p, st, version, e);
  }

  lemma AcceptedSubmission(w: World, s: Service, p: Participant, k: string, version: nat, plan: Plan, id: string)
    requires Owns(s, p, k) && Published(s, p, s.episodes[k], version, plan).Ok?
    requires var st := s.episodes[k];
      var base := if st.episode.state == FeedbackAvailable then version + 1 else version;
      Published(s, p, st, version, plan).value == (st.episode.(state := EvaluationQueued, version := base + 1),
                                                   st.episode.(state := FeedbackAvailable, version := base + 3))
    ensures var (after, r) := Operate(w, s, p, Submit(k, version, plan), id);
      r.Ok? && SubmittedPlan(s, p, k, s.episodes[k], version, plan, id, after, r.value)
  {
    hide Published, Evaluate;
  }

  // --- Advance ------------------------------------------------------------------------------------------------------

  /** Advancing needs a passing plan of the episode with feedback, at the current version. A final plan completes
      it; another moves it to the next checkpoint, which must exist and lie ahead. */
  lemma AdvanceSays(w: World, s: Service, p: Participant, k: string, version: nat, id: string)
    ensures var (after, r) := Operate(w, s, p, Advance(k, version), id);
      if !Owns(s, p, k) then after == s && r == Err(NotFound)
      else
        var st := s.episodes[k];
        if st.latest == None then after == s && r == Err(StateConflict)
        else if !OwnsLatest(s, p, st) then after == s && r == Err(NotFound)
        else
          var sub, e := s.submissions[st.latest.value], st.episode;
          var stage := e.stageIndex + 1;
          if sub.evaluation.verdict != Pass then after == s && r == Err(StateConflict)
          else if !sub.plan.isFinal && |w.scenario.checkpoints| <= stage then after == s && r == Err(StateConflict)
          else if e.version != version then after == s && r == Err(VersionConflict)
          else if e.state != FeedbackAvailable then after == s && r == Err(StateConflict)
          else if !sub.plan.isFinal && w.scenario.checkpoints[stage] <= e.virtualTime then after == s && r == Err(TimeNotMonotonic)
          else
            && k in after.episodes && after == s.(episodes := s.episodes[k := after.episodes[k]])
            && var next := after.episodes[k];
            && r == Ok(Advanced(next.episode))
            && next == st.(episode := next.episode, events := next.events)
            && next.episode == (if sub.plan.isFinal then e.(state := Completed, version := version + 1)
                                else e.(state := WaitingForSubmission, stageIndex := stage,
                                        virtualTime := w.scenario.checkpoints[stage], version := version + 1))
            && next.events == st.events
               + [EpisodeEvent(|st.events| + 1, if sub.plan.isFinal then EpisodeCompleted else EpisodeAdvanced, version + 1,
                               next.episode.virtualTime)]
  {
  }

  // --- Keys -----------------------------------------------------------------------------------------------------------

  /** A call under a new key is its operation, and exactly a success is remembered; under a used key it is
      answered from the record or refused for another request, and nothing changes. */
  lemma CallSays(w: World, s: Service, p: Participant, key: string, c: Command, id: string)
    ensures var (after, r) := Call(w, s, p, key, c, id);
      var cacheKey := CacheKey(p, c, key);
      if cacheKey in s.idempotency then
        after == s && r == (if s.idempotency[cacheKey].hash == w.hash(c) then Ok(s.idempotency[cacheKey].response)
                            else Err(IdempotencyConflict))
      else
        var (done, answer) := Operate(w, s, p, c, id);
        && r == answer && done.idempotency == s.idempotency
        && after == (if r.Ok? then done.(idempotency := s.idempotency[cacheKey := Record(w.hash(c), r.value)]) else s)
  {
  }

  /** The kind of a command, and the episode it is about, if it is about one. */
  ghost function KindOf(c: Command): (string, Option<string>)
  {
    match c
    case Create(_, _) => ("create-episode", None)
    case Observe(episode, _, _) => ("observe", Some(episode))
    case Submit(episode, _, _) => ("submit-plan", Some(episode))
    case Advance(episode, _) => ("advance", Some(episode))
  }

  /** A key remembers one participant, one kind of command and one episode: as long as the ids of participants
      and episodes have no colon, calls that differ in any of these or in their key never share a record. */
  lemma KeysDoNotMix(p: Participant, c: Command, key: string, p': Participant, c': Command, key': string)
    requires ':' !in p.id && ':' !in p'.id
    requires KindOf(c).1.Some? ==> ':' !in KindOf(c).1.value
    requires KindOf(c').1.Some? ==> ':' !in KindOf(c').1.value
    ensures CacheKey(p, c, key) == CacheKey(p', c', key') <==> p.id == p'.id && KindOf(c) == KindOf(c') && key == key'
  {
    CacheKeyParts(p, c, key);
    CacheKeyParts(p', c', key');
    var (kind, episode) := KindOf(c);
    var (kind', episode') := KindOf(c');
    if CacheKey(p, c, key) == CacheKey(p', c', key') {
      hide CacheKey;
      var rest := if episode.Some? then episode.value + ":" + key else key;
      var rest' := if episode'.Some? then episode'.value + ":" + key' else key';
      SplitAtColon(p.id, kind + ":" + rest, p'.id, kind' + ":" + rest');
      SplitAtColon(kind, rest, kind', rest');
      assert c.Create? <==> c'.Create? by { KindsDiffer(c, c'); }
      if episode.Some? { SplitAtColon(episode.value, key, episode'.value, key'); }
    }
  }

  lemma CacheKeyParts(p: Participant, c: Command, key: string)
    ensures var (kind, episode) := KindOf(c);
      && ':' !in kind
      && CacheKey(p, c, key) == p.id + ":" + (kind + ":" + (if episode.Some? then episode.value + ":" + key else key))
  {
  }

  lemma KindsDiffer(a: Command, b: Command)
    requires KindOf(a).0 == KindOf(b).0
    ensures a.Create? <==> b.Create?
  {
    assert KindOf(a).0[0] == KindOf(b).0[0];
  }
}
