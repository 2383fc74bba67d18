/** The in-memory exercise service: what each call does to its maps, and the class that does it in place. */
module ExerciseService {
  import opened Outcomes
  import opened Episodes

  datatype Participant = Participant(id: string, versions: seq<string>)

  datatype Scenario = Scenario(version: string, replayStart: int, checkpoints: seq<int>, information: seq<Information>)

  datatype EventKind = EpisodeCreated | ObservationsRecorded | SubmissionCreated | EvaluationCompleted | EpisodeAdvanced
                     | EpisodeCompleted

  datatype EpisodeEvent = EpisodeEvent(sequence: nat, kind: EventKind, version: nat, virtualTime: int)

  /** An episode as stored; observations are in the order they were first made. */
  datatype Stored = Stored(participant: string, episode: Episode, observations: seq<Observation>, events: seq<EpisodeEvent>,
                           latest: Option<string>, nextRevision: nat)

  datatype Submission = Submission(participant: string, episode: string, revisionNo: nat, revisionOf: Option<string>,
                                   episodeVersion: nat, plan: Plan, evaluation: Evaluation)

  datatype Response = Created(episode: Episode) | Observed(episode: Episode, observations: seq<Observation>)
                    | Submitted(id: string, submission: Submission, episode: Episode) | Advanced(episode: Episode)

  datatype Record = Record(hash: string, response: Response)

  datatype Service = Service(episodes: map<string, Stored>, submissions: map<string, Submission>, idempotency: map<string, Record>)

  datatype Command =
    | Create(scenario: string, participantVersion: string)
    | Observe(episode: string, version: nat, ids: Option<seq<string>>)
    | Submit(episode: string, version: nat, plan: Plan)
    | Advance(episode: string, version: nat)

  /** The scenario, and the hash of a request. */
  datatype World = World(scenario: Scenario, hash: Command -> string)

  function Scope(c: Command): string
  {
    match c
    case Create(_, _) => "create-episode"
    case Observe(episode, _, _) => "observe:" + episode
    case Submit(episode, _, _) => "submit-plan:" + episode
    case Advance(episode, _) => "advance:" + episode
  }

  function CacheKey(p: Participant, c: Command, key: string): string
  {
    p.id + ":" + Scope(c) + ":" + key
  }

  function WithEvent(s: Stored, kind: EventKind, e: Episode): Stored
  {
    s.(events := s.events + [EpisodeEvent(|s.events| + 1, kind, e.version, e.virtualTime)])
  }

  function Owned(s: Service, p: Participant, id: string): Result<Stored, Error>
  {
    if id in s.episodes && s.episodes[id].participant == p.id then Ok(s.episodes[id]) else Err(NotFound)
  }

  function OwnedSubmission(s: Service, p: Participant, id: string): Result<Submission, Error>
  {
    if id in s.submissions && s.submissions[id].participant == p.id then Ok(s.submissions[id]) else Err(NotFound)
  }

  // --- Create --------------------------------------------------------------------------------------------

  function CreateOutcome(w: World, p: Participant, scenario: string, version: string, id: string): Result<Stored, Error>
  {
    if scenario != w.scenario.version then Err(ValidationFailed)
    else if version !in p.versions then Err(NotAuthorized)
    else
      var e := NewEpisode(id, scenario, version, w.scenario.replayStart);
      Ok(WithEvent(Stored(p.id, e, [], [], None, 1), EpisodeCreated, e))
  }

  // --- Observe ---------------------------------------------------------------------------------------------

  function Ids(items: seq<Information>): (ids: seq<string>)
    ensures |ids| == |items| && forall i | 0 <= i < |ids| :: ids[i] == items[i].id
  {
    seq(|items|, i requires 0 <= i < |items| => items[i].id)
  }

  /** The items whose id is in `ids`. */
  function WithIds(items: seq<Information>, ids: seq<string>): seq<Information>
  {
    if items == [] then []
    else WithIds(items[..|items| - 1], ids) + (if items[|items| - 1].id in ids then [items[|items| - 1]] else [])
  }

  /** The last item with the id. */
  function ById(items: seq<Information>, id: string): Option<Information>
  {
    if items == [] then None
    else if items[|items| - 1].id == id then Some(items[|items| - 1])
    else ById(items[..|items| - 1], id)
  }

  /** The items asked for, if all of them are among `released`. */
  function Select(released: seq<Information>, ids: seq<string>): Option<seq<Information>>
  {
    if ids == [] then Some([])
    else
      var before, item := Select(released, ids[..|ids| - 1]), ById(released, ids[|ids| - 1]);
      if before.None? || item.None? then None else Some(before.value + [item.value])
  }

  predicate Noted(observations: seq<Observation>, id: string)
  {
    exists i | 0 <= i < |observations| :: observations[i].informationId == id
  }

  /** Each item not yet noted is noted at the virtual time of access. */
  function Note(observations: seq<Observation>, items: seq<Information>, virtualTime: int): seq<Observation>
  {
    if items == [] then observations
    else
      var before, item := Note(observations, items[..|items| - 1], virtualTime), items[|items| - 1];
      if Noted(before, item.id) then before else before + [Observation(item.id, item.releasedTime, virtualTime)]
  }

  function Selection(w: World, stored: Stored, ids: Option<seq<string>>): Result<seq<Information>, Error>
  {
    var visible := ReleaseInformation(stored.episode, w.scenario.information);
    if visible.Err? then Err(visible.error)
    else
      var released := WithIds(w.scenario.information, Ids(visible.value));
      if ids.None? then Ok(released)
      else
        var selected := Select(released, ids.value);
        if selected.None? then Err(ValidationFailed) else Ok(selected.value)
  }

  function ObserveOutcome(w: World, stored: Stored, version: nat, ids: Option<seq<string>>): Result<(Stored, seq<Information>), Error>
  {
    if stored.episode.version != version then Err(VersionConflict)
    else
      var selected := Selection(w, stored, ids);
      if selected.Err? then Err(selected.error)
      else
        var next := RecordObservation(stored.episode, Ids(selected.value));
        if next.Err? then Err(next.error)
        else
          var noted := stored.(episode := next.value,
                               observations := Note(stored.observations, selected.value, stored.episode.virtualTime));
          var isNew := exists i | 0 <= i < |selected.value| :: selected.value[i].id !in stored.episode.observed;
          Ok((if isNew then WithEvent(noted, ObservationsRecorded, next.value) else noted, selected.value))
  }

  function NotedOf(observations: seq<Observation>, id: string): seq<Observation>
  {
    if observations == [] then []
    else if observations[0].informationId == id then [observations[0]]
    else NotedOf(observations[1..], id)
  }

  /** The observations of some items, in their order. */
  function ObservationsOf(observations: seq<Observation>, items: seq<Information>): seq<Observation>
  {
    if items == [] then []
    else ObservationsOf(observations, items[..|items| - 1]) + NotedOf(observations, items[|items| - 1].id)
  }

  // --- Submit ------------------------------------------------------------------------------------------------

  function CurrentRuleId(stage: nat): string
  {
    if stage == 2 then "simulated-update-20230323-corridor" else "simulated-rules-20230322-stage-1"
  }

  /** Every release cites the complete rules of its stage. */
  predicate EvidenceRelevant(plan: Plan)
  {
    forall i | 0 <= i < |plan.releases| :: CurrentRuleId(plan.stage) in plan.releases[i].evidence
  }

  /** The episode a submission starts from: the stored one, reopened if its last plan did not pass. */
  function SubmissionBase(s: Service, p: Participant, stored: Stored, version: nat): Result<(Episode, nat), Error>
  {
    if stored.episode.state != FeedbackAvailable then Ok((stored.episode, version))
    else if stored.latest.None? then Err(StateConflict)
    else
      var previous := OwnedSubmission(s, p, stored.latest.value);
      if previous.Err? then Err(previous.error)
      else if previous.value.evaluation.verdict == Pass then Err(StateConflict)
      else
        var reopened := ReopenForRevision(stored.episode, version);
        if reopened.Err? then Err(reopened.error) else Ok((reopened.value, reopened.value.version))
  }

  /** The episode after queueing, evaluation and feedback, and the episode as it was queued. */
  function Published(s: Service, p: Participant, stored: Stored, version: nat, plan: Plan): Result<(Episode, Episode), Error>
  {
    if plan.stage != stored.episode.stageIndex + 1 then Err(ValidationFailed)
    else
      var base := SubmissionBase(s, p, stored, version);
      if base.Err? then Err(base.error)
      else
        var queued := QueueSubmission(base.value.0, plan, base.value.1);
        if queued.Err? then Err(queued.error)
        else if !EvidenceRelevant(plan) then Err(EvidenceNotRelevant)
        else
          var evaluating := StartEvaluation(queued.value, queued.value.version);
          if evaluating.Err? then Err(evaluating.error)
          else
            var published := PublishFeedback(evaluating.value, evaluating.value.version);
            if published.Err? then Err(published.error) else Ok((queued.value, published.value))
  }

  function NewSubmission(p: Participant, stored: Stored, version: nat, plan: Plan): Submission
  {
    Submission(p.id, stored.episode.id, stored.nextRevision, stored.latest, version, plan,
               Evaluate(RulesFor(plan.stage), plan, stored.observations, stored.episode.virtualTime))
  }

  function AfterSubmission(stored: Stored, queued: Episode, published: Episode, id: string): Stored
  {
    var next := stored.(latest := Some(id), nextRevision := stored.nextRevision + 1, episode := published);
    WithEvent(WithEvent(next, SubmissionCreated, queued), EvaluationCompleted, published)
  }

  // --- Advance -------------------------------------------------------------------------------------------------

  function AdvanceOutcome(w: World, s: Service, p: Participant, stored: Stored, version: nat): Result<Stored, Error>
  {
    if stored.latest.None? then Err(StateConflict)
    else
      var latest := OwnedSubmission(s, p, stored.latest.value);
      if latest.Err? then Err(latest.error)
      else if latest.value.evaluation.verdict != Pass then Err(StateConflict)
      else if latest.value.plan.isFinal then
        var next := CompleteEpisode(stored.episode, version, latest.value.plan.isFinal, latest.value.evaluation.verdict);
        if next.Err? then Err(next.error)
        else Ok(WithEvent(stored.(episode := next.value), EpisodeCompleted, next.value))
      else if stored.episode.stageIndex + 1 >= |w.scenario.checkpoints| then Err(StateConflict)
      else
        var next := AdvanceEpisode(stored.episode, version, w.scenario.checkpoints[stored.episode.stageIndex + 1]);
        if next.Err? then Err(next.error)
        else Ok(WithEvent(stored.(episode := next.value), EpisodeAdvanced, next.value))
  }

  // --- Calls -----------------------------------------------------------------------------------------------------

  /** The operation of a command, without its idempotency key; `id` is the id it draws. */
  function Operate(w: World, s: Service, p: Participant, c: Command, id: string): (Service, Result<Response, Error>)
  {
    match c
    case Create(scenario, version) =>
      (match CreateOutcome(w, p, scenario, version, id)
       case Err(e) => (s, Err(e))
       case Ok(stored) => (s.(episodes := s.episodes[id := stored]), Ok(Created(stored.episode))))
    case Observe(episode, version, ids) =>
      (match Owned(s, p, episode)
       case Err(e) => (s, Err(e))
       case Ok(stored) =>
         match ObserveOutcome(w, stored, version, ids)
         case Err(e) => (s, Err(e))
         case Ok((next, items)) =>
           (s.(episodes := s.episodes[episode := next]),
            Ok(Observed(next.episode, ObservationsOf(next.observations, items)))))
    case Submit(episode, version, plan) =>
      (match Owned(s, p, episode)
       case Err(e) => (s, Err(e))
       case Ok(stored) =>
         match Published(s, p, stored, version, plan)
         case Err(e) => (s, Err(e))
         case Ok((queued, published)) =>
           var submission := NewSubmission(p, stored, version, plan);
           (s.(episodes := s.episodes[episode := AfterSubmission(stored, queued, published, id)],
               submissions := s.submissions[id := submission]),
            Ok(Submitted(id, submission, published))))
    case Advance(episode, version) =>
      (match Owned(s, p, episode)
       case Err(e) => (s, Err(e))
       case Ok(stored) =>
         match AdvanceOutcome(w, s, p, stored, version)
         case Err(e) => (s, Err(e))
         case Ok(next) => (s.(episodes := s.episodes[episode := next]), Ok(Advanced(next.episode))))
  }

  /** A call: answered from the cache if its key was used for the same request, and cached if it succeeds. */
  function Call(w: World, s: Service, p: Participant, key: string, c: Command, id: string): (Service, Result<Response, Error>)
  {
    var cacheKey := CacheKey(p, c, key);
    if cacheKey in s.idempotency then
      if s.idempotency[cacheKey].hash != w.hash(c) then (s, Err(IdempotencyConflict))
      else (s, Ok(s.idempotency[cacheKey].response))
    else
      var (after, r) := Operate(w, s, p, c, id);
      if r.Err? then (after, r)
      else (after.(idempotency := after.idempotency[cacheKey := Record(w.hash(c), r.value)]), r)
  }

  const Empty := Service(map[], map[], map[])

  // --- In place ----------------------------------------------------------------------------------------------------

  /** The ids of a set of observed information, each once, as the code collects them in a set. */
  method CollectObserved(observed: seq<string>, ids: seq<string>) returns (all: seq<string>)
    ensures all == AddNew(observed, ids)
  {
    all := observed;
    for i := 0 to |ids|
      invariant all == AddNew(observed, ids[..i])
    {
      assert ids[..i + 1][..i] == ids[..i];
      if ids[i] !in all { all := all + [ids[i]]; }
    }
    assert ids[..|ids|] == ids;
  }

  /** Check the releases of a plan one after the other, collecting their sources. */
  method FindReleaseFault(observed: seq<string>, releases: seq<SourceRelease>) returns (fault: Option<Error>)
    ensures fault == ReleasesFault(observed, releases, |releases|)
  {
    var sources: set<string> := {};
    for i := 0 to |releases|
      invariant ReleasesFault(observed, releases, i).None?
      invariant forall source :: source in sources <==> exists j | 0 <= j < i :: releases[j].source == source
    {
      var release := releases[i];
      var found := None;
      if release.flow < 0.0 {
        found := Some(InvalidVolume);
      } else if release.source in sources {
        found := Some(DuplicateAllocation);
      } else if exists k | 0 <= k < |release.evidence| :: release.evidence[k] !in observed {
        found := Some(EvidenceNotObserved);
      }
      assert found == ReleaseFault(observed, releases, i);
      assert ReleasesFault(observed, releases, i + 1) == found;
      if found.Some? {
        FaultStays(observed, releases, i + 1, |releases|);
        return found;
      }
      sources := sources + {release.source};
    }
    fault := None;
  }

  lemma {:induction false} FaultStays(observed: seq<string>, releases: seq<SourceRelease>, m: nat, n: nat)
    requires m <= n <= |releases| && ReleasesFault(observed, releases, m).Some?
    ensures ReleasesFault(observed, releases, n) == ReleasesFault(observed, releases, m)
    decreases n
  {
    if m < n { FaultStays(observed, releases, m, n - 1); }
  }

  class InMemoryExerciseService {
    const world: World
    var episodes: map<string, Stored>
    var submissions: map<string, Submission>
    var idempotency: map<string, Record>

    function State(): Service
      reads this
    {
      Service(episodes, submissions, idempotency)
    }

    constructor (world: World)
      ensures State() == Empty && this.world == world
    {
      this.world := world;
      episodes, submissions, idempotency := map[], map[], map[];
    }

    /** Any call: look in the cache, else run the operation and remember a success. */
    method Handle(p: Participant, key: string, c: Command, id: string) returns (r: Result<Response, Error>)
      modifies this
      ensures (State(), r) == Call(world, old(State()), p, key, c, id)
    {
      hide Operate;
      var cacheKey := CacheKey(p, c, key);
      if cacheKey in idempotency {
        var previous := idempotency[cacheKey];
        if previous.hash != world.hash(c) { return Err(IdempotencyConflict); }
        return Ok(previous.response);
      }
      match c {
        case Create(scenario, version) => r := CreateEpisode(p, scenario, version, id);
        case Observe(episode, version, ids) => r := ObserveEpisode(p, episode, version, ids, id);
        case Submit(episode, version, plan) => r := SubmitPlan(p, episode, version, plan, id);
        case Advance(episode, version) => r := AdvanceStored(p, episode, version, id);
      }
      if r.Ok? { idempotency := idempotency[cacheKey := Record(world.hash(c), r.value)]; }
    }

    method CreateEpisode(p: Participant, scenario: string, version: string, id: string) returns (r: Result<Response, Error>)
      modifies this
      ensures (State(), r) == Operate(world, old(State()), p, Create(scenario, version), id)
    {
      if scenario != world.scenario.version { return Err(ValidationFailed); }
      if version !in p.versions { return Err(NotAuthorized); }
      var episode := NewEpisode(id, scenario, version, world.scenario.replayStart);
      var stored := WithEvent(Stored(p.id, episode, [], [], None, 1), EpisodeCreated, episode);
      episodes := episodes[id := stored];
      r := Ok(Created(episode));
    }

    method ObserveEpisode(p: Participant, episode: string, version: nat, ids: Option<seq<string>>, ghost id: string)
      returns (r: Result<Response, Error>)
      modifies this
      ensures (State(), r) == Operate(world, old(State()), p, Observe(episode, version, ids), id)
    {
      hide Note, AddNew, ObservationsOf, Selection;
      var owned := Owned(State(), p, episode);
      if owned.Err? { return Err(owned.error); }
      var stored := owned.value;
      if stored.episode.version != version { return Err(VersionConflict); }
      var selected := Selection(world, stored, ids);
      if selected.Err? { return Err(selected.error); }
      if stored.episode.state != WaitingForSubmission { return Err(StateConflict); }
      var observed := CollectObserved(stored.episode.observed, Ids(selected.value));
      var next := stored.episode;
      if |observed| != |next.observed| { next := next.(observed := observed, version := next.version + 1); }
      var noted := stored.(episode := next, observations := Note(stored.observations, selected.value, stored.episode.virtualTime));
      if exists i | 0 <= i < |selected.value| :: selected.value[i].id !in stored.episode.observed {
        noted := WithEvent(noted, ObservationsRecorded, next);
      }
      episodes := episodes[episode := noted];
      r := Ok(Observed(next, ObservationsOf(noted.observations, selected.value)));
    }

    method SubmitPlan(p: Participant, episode: string, version: nat, plan: Plan, id: string) returns (r: Result<Response, Error>)
      modifies this
      ensures (State(), r) == Operate(world, old(State()), p, Submit(episode, version, plan), id)
    {
      hide ReleasesFault, NewSubmission;
      var owned := Owned(State(), p, episode);
      if owned.Err? { return Err(owned.error); }
      var stored := owned.value;
      if plan.stage != stored.episode.stageIndex + 1 { return Err(ValidationFailed); }
      var base := SubmissionBase(State(), p, stored, version);
      if base.Err? { return Err(base.error); }
      var (from, expected) := base.value;
      var fault := Check(from, expected, WaitingForSubmission);
      if fault.None? { fault := PlanFault(from, plan); }
      assert fault == SubmissionFault(from, plan, expected);
      if fault.Some? { return Err(fault.value); }
      if !EvidenceRelevant(plan) { return Err(EvidenceNotRelevant); }
      var queued := Moved(from, EvaluationQueued);
      var published := Moved(Moved(queued, Evaluating), FeedbackAvailable);
      var submission := NewSubmission(p, stored, version, plan);
      submissions := submissions[id := submission];
      episodes := episodes[episode := AfterSubmission(stored, queued, published, id)];
      r := Ok(Submitted(id, submission, published));
    }

    method PlanFault(e: Episode, plan: Plan) returns (fault: Option<Error>)
      ensures Check(e, e.version, WaitingForSubmission).None? ==> fault == SubmissionFault(e, plan, e.version)
    {
      if plan.releases == [] { return Some(EmptySubmission); }
      if plan.stage != e.stageIndex + 1 { return Some(StageConflict); }
      if (plan.stage == 1 && plan.isFinal) || (plan.stage == 2 && !plan.isFinal) { return Some(FinalityInvalid); }
      fault := FindReleaseFault(e.observed, plan.releases);
    }

    method AdvanceStored(p: Participant, episode: string, version: nat, ghost id: string) returns (r: Result<Response, Error>)
      modifies this
      ensures (State(), r) == Operate(world, old(State()), p, Advance(episode, version), id)
    {
      var owned := Owned(State(), p, episode);
      if owned.Err? { return Err(owned.error); }
      var stored := owned.value;
      if stored.latest.None? { return Err(StateConflict); }
      var latest := OwnedSubmission(State(), p, stored.latest.value);
      if latest.Err? { return Err(latest.error); }
      if latest.value.evaluation.verdict != Pass { return Err(StateConflict); }
      var next, kind;
      if latest.value.plan.isFinal {
        next, kind := CompleteEpisode(stored.episode, version, true, Pass), EpisodeCompleted;
      } else {
        if stored.episode.stageIndex + 1 >= |world.scenario.checkpoints| { return Err(StateConflict); }
        next := AdvanceEpisode(stored.episode, version, world.scenario.checkpoints[stored.episode.stageIndex + 1]);
        kind := EpisodeAdvanced;
      }
      if next.Err? { return Err(next.error); }
      episodes := episodes[episode := WithEvent(stored.(episode := next.value), kind, next.value)];
      r := Ok(Advanced(next.value));
    }
  }
}
