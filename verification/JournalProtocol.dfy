/**
 The command journal of the EXCON v2 API, part two: the crash-recovery protocol as a state
 machine. Durable rows, one writing process at a time, appends that may fail after or before
 they took effect, crashes between any two steps, and recovery by replay.

 The inner exercise service is a parameter: any deterministic operation over any domain state,
 wrapped in the idempotency records that every journaled command of the service goes through.
 */
module JournalProtocol {
  import opened Outcomes
  import opened JournalCore

  datatype Principal = Principal(id: string, participantVersionIds: seq<string>,
                                 roles: Option<seq<string>>, runAgentIds: Option<seq<string>>)

  datatype Call = Call(name: string, principal: Principal, arguments: seq<Value>)
  {
    /** The call as the journal will read it back. */
    function Json(): Call
    {
      this.(arguments := JsonArguments(arguments))
    }
  }

  // --- Durable rows --------------------------------------------------------------------------

  datatype Intent = Intent(sequence: nat, intentId: string, commandName: string, journalVersion: nat,
                           requestHash: string, principal: Principal, arguments: seq<Value>, leaseKeyId: string)

  datatype Outcome = Outcome(succeeded: bool, resultHash: string, errorCode: Option<string>, generated: Generated)

  datatype Entry = Entry(intent: Intent, outcome: Option<Outcome>)

  function Strings(items: seq<string>): Value
  {
    Arr(seq(|items|, i requires 0 <= i < |items| => Str(items[i])))
  }

  function Numbers(items: seq<int>): Value
  {
    Arr(seq(|items|, i requires 0 <= i < |items| => Num(items[i])))
  }

  function PrincipalValue(p: Principal): Value
  {
    Obj(map["id" := Str(p.id), "participantVersionIds" := Strings(p.participantVersionIds),
            "roles" := if p.roles.Some? then Strings(p.roles.value) else Undefined,
            "runAgentIds" := if p.runAgentIds.Some? then Strings(p.runAgentIds.value) else Undefined])
  }

  function IntentEnvelope(intent: Intent): Value
  {
    Obj(map["journalVersion" := Num(intent.journalVersion),
            "intentId" := Str(intent.intentId),
            "command" := Obj(map["name" := Str(intent.commandName), "version" := Num(intent.journalVersion)]),
            "principal" := PrincipalValue(intent.principal),
            "arguments" := Arr(intent.arguments),
            "lease" := Obj(map["hmacKeyId" := Str(intent.leaseKeyId)]),
            "generationTapeStart" :=
              Obj(map["idIndex" := Num(0), "timestampIndex" := Num(0), "leaseIndex" := Num(0)])])
  }

  function GeneratedValue(g: Generated): Value
  {
    Obj(map["ids" := Strings(g.ids),
            "timestamps" := Numbers(g.timestamps),
            "leaseCounterCount" := Num(g.leaseCount)])
  }

  function ErrorEnvelope(error: Failure): Value
  {
    Obj(map["name" := Str("ExerciseServiceError"), "message" := Str(error.message), "code" := Str(error.code),
            "details" := if error.details == Undefined then Null else error.details])
  }

  function OutcomeEnvelope(reply: Reply, generated: Generated): Value
  {
    Obj(map["journalVersion" := Num(JOURNAL_VERSION),
            "status" := Str(if reply.Succeeded? then "succeeded" else "rejected"),
            "result" := if reply.Succeeded? then reply.result else Null,
            "error" := if reply.Rejected? then ErrorEnvelope(reply.error) else Null,
            "generated" := GeneratedValue(generated)])
  }

  function OutcomeOf(crypto: Crypto, reply: Reply, generated: Generated): Outcome
  {
    Outcome(reply.Succeeded?, crypto.Digest(OutcomeEnvelope(reply, generated)),
            if reply.Rejected? then Some(reply.error.code) else None, generated)
  }

  predicate IsHexText(s: string)
  {
    forall c | c in s :: '0' <= c <= '9' || 'a' <= c <= 'f' || 'A' <= c <= 'F'
  }

  predicate IsUuid(s: string)
  {
    && |s| == 36 && s[8] == '-' && s[13] == '-' && s[18] == '-' && s[23] == '-'
    && IsHexText(s[..8]) && IsHexText(s[9..13]) && IsHexText(s[14..18]) && IsHexText(s[19..23]) && IsHexText(s[24..])
    && '1' <= s[14] <= '8' && s[19] in {'8', '9', 'a', 'b', 'A', 'B'}
  }

  predicate IsKeyId(s: string)
  {
    && 3 <= |s| <= 64
    && ('a' <= s[0] <= 'z' || '0' <= s[0] <= '9')
    && forall c | c in s :: 'a' <= c <= 'z' || '0' <= c <= '9' || c in {'.', '_', '-'}
  }

  predicate ParsesIntent(crypto: Crypto, intent: Intent)
  {
    && IsUuid(intent.intentId) && IsHash(intent.requestHash) && IsKeyId(intent.leaseKeyId)
    && intent.journalVersion == JOURNAL_VERSION && intent.commandName in MUTATION_NAMES
    && crypto.Digest(IntentEnvelope(intent)) == intent.requestHash
  }

  predicate ParsesOutcome(outcome: Outcome)
  {
    && IsHash(outcome.resultHash) && outcome.succeeded == outcome.errorCode.None?
    && |outcome.generated.ids| <= MAX_GENERATED_VALUES && |outcome.generated.timestamps| <= MAX_GENERATED_VALUES
  }

  predicate Parses(crypto: Crypto, e: Entry)
  {
    ParsesIntent(crypto, e.intent) && (e.outcome.Some? ==> ParsesOutcome(e.outcome.value))
  }

  // --- The inner service -----------------------------------------------------------------------

  datatype Cached = Cached(requestHash: string, response: Value)

  /** The inner service: domain state and idempotency records. */
  datatype Inner<D> = Inner(domain: D, cache: map<string, Cached>)

  /** Everything that stays fixed over a run: the service, the cryptography and the lease keys. */
  datatype World<!D(!new)> = World(
    initial: D,
    operation: (D, Call) -> Command<D>,
    cacheKey: Call -> string,
    request: Call -> Value,
    apiCodes: set<string>,
    crypto: Crypto,
    keys: map<string, string>)
  {
    function RequestHash(call: Call): string
    {
      crypto.Digest(request(call))
    }

    function InnerCommand(s: Inner<D>, call: Call): Command<Inner<D>>
    {
      Idempotent(s, cacheKey(call), RequestHash(call), operation(s.domain, call))
    }

    function ContextOf(intent: Intent): Context
      requires intent.leaseKeyId in keys
    {
      Context(crypto, apiCodes, intent.intentId, keys[intent.leaseKeyId])
    }

    /** The service cannot tell arguments from the same arguments read back from JSON. */
    ghost predicate RespectsJson()
    {
      forall d: D, call: Call :: RespectsJsonOf(d, call)
    }

    ghost predicate RespectsJsonOf(d: D, call: Call)
    {
      && operation(d, call) == operation(d, call.Json())
      && cacheKey(call) == cacheKey(call.Json())
      && RequestHash(call) == RequestHash(call.Json())
    }
  }

  /** A command behind its idempotency record: a known key answers from the record and does
      nothing, an unknown one runs the operation and records its response if it succeeds. */
  function Idempotent<D>(s: Inner<D>, key: string, requestHash: string, op: Command<D>): Command<Inner<D>>
  {
    if key in s.cache then
      var previous := s.cache[key];
      Command((h: seq<Answer>) =>
                if previous.requestHash == requestHash then Return(s, previous.response)
                else Throw(s, ServiceError("IDEMPOTENCY_CONFLICT",
                                           "The idempotency key was already used for a different request.", Undefined)),
              0)
    else
      Command((h: seq<Answer>) =>
                match op.next(h)
                case Return(d, result) => Return(Inner(d, s.cache[key := Cached(requestHash, result)]), result)
                case Throw(d, error) => Throw(Inner(d, s.cache), error)
                case AwaitId => AwaitId
                case AwaitTime => AwaitTime
                case AwaitLease => AwaitLease,
              op.limit)
  }

  /** The memory of a process: the inner service and the known lease tokens. */
  datatype Machine<D> = Machine(inner: Inner<D>, known: Known)

  function Fresh<D(!new)>(w: World<D>): Machine<D>
  {
    Machine(Inner(w.initial, map[]), map[])
  }

  // --- Replaying completed rows ------------------------------------------------------------------

  function CallOf(intent: Intent, arguments: seq<Value>): Call
  {
    Call(intent.commandName, intent.principal, arguments)
  }

  /** Replaying one completed row on a machine: unseal, re-run on the recorded tape, compare. */
  function ReplayRow<D(!new)>(w: World<D>, m: Machine<D>, e: Entry): Result<(Machine<D>, Reply), Code>
    requires e.outcome.Some?
  {
    if e.intent.leaseKeyId !in w.keys then Err(Corrupt)
    else match Unseal(e.intent.commandName, e.intent.arguments, m.known)
      case Err(code) => Err(code)
      case Ok(arguments) =>
        match Replay(w.ContextOf(e.intent), w.InnerCommand(m.inner, CallOf(e.intent, arguments)),
                     e.outcome.value.generated, [], NOTHING_USED, m.known)
        case Failed(code) => Err(code)
        case Finished(state, reply, generated, known) =>
          if OutcomeOf(w.crypto, reply, generated) != e.outcome.value then Err(ReplayDrift)
          else Ok((Machine(state, known), reply))
  }

  /** The machine that replaying all rows builds, if every row is completed and replays. */
  function Rebuilt<D(!new)>(w: World<D>, rows: seq<Entry>): Option<Machine<D>>
    decreases |rows|
  {
    if rows == [] then Some(Fresh(w))
    else
      var e := rows[|rows| - 1];
      match Rebuilt(w, rows[..|rows| - 1])
      case None => None
      case Some(m) =>
        if e.outcome.None? then None
        else match ReplayRow(w, m, e)
          case Ok(next) => Some(next.0)
          case Err(_) => None
  }

  /** The arguments and reply that row `i` replays to. */
  function RecordedAt<D(!new)>(w: World<D>, rows: seq<Entry>, i: nat): Option<(seq<Value>, Reply)>
    requires i < |rows|
  {
    match Rebuilt(w, rows[..i])
    case None => None
    case Some(m) =>
      if rows[i].outcome.None? || ReplayRow(w, m, rows[i]).Err? then None
      else Some((Unseal(rows[i].intent.commandName, rows[i].intent.arguments, m.known).value,
                 ReplayRow(w, m, rows[i]).value.1))
  }

  // --- The system ----------------------------------------------------------------------------------

  /** How an append ends: acknowledged, or reported as failed whether or not it took effect. */
  datatype Fate = Stored | Lost(kept: bool)

  /** A process holding the writer lock: serving, or unready after an append or a command failed. */
  datatype Process<D> = Ready(machine: Machine<D>, activeKeyId: string) | Stopped(activeKeyId: string)

  /** A reply some caller has received for a call, and the row it was journaled in. */
  datatype Answered = Answered(row: nat, call: Call, reply: Reply)

  datatype System<D> = System(rows: seq<Entry>, process: Option<Process<D>>, answered: seq<Answered>)

  datatype Step =
    | Mutate(call: Call, intentId: string, gap: nat, source: Source, intentFate: Fate, outcomeFate: Fate)
    | Query(call: Call)
    | Halt
    | Start(activeKeyId: string, sources: nat -> Source, fates: nat -> Fate)

  function LastSequence(rows: seq<Entry>): nat
  {
    if rows == [] then 0 else rows[|rows| - 1].intent.sequence
  }

  function NewIntent<D(!new)>(w: World<D>, rows: seq<Entry>, call: Call, sealed: seq<Value>, intentId: string,
                        gap: nat, activeKeyId: string): Intent
  {
    var draft := Intent(LastSequence(rows) + 1 + gap, intentId, call.name, JOURNAL_VERSION, "", call.principal,
                        sealed, activeKeyId);
    draft.(requestHash := w.crypto.Digest(IntentEnvelope(draft)))
  }

  predicate IdTaken(rows: seq<Entry>, intentId: string)
  {
    exists i | 0 <= i < |rows| :: rows[i].intent.intentId == intentId
  }

  /** One journaled mutation: seal, append the intent, execute live, append the outcome, reply. */
  function MutateStep<D(!new)>(w: World<D>, sys: System<D>, call: Call, intentId: string, gap: nat, source: Source,
                         intentFate: Fate, outcomeFate: Fate): (System<D>, Result<Reply, Code>)
  {
    if sys.process.None? || sys.process.value.Stopped? then (sys, Err(Unready))
    else if call.name !in MUTATION_NAMES then (sys, Err(Corrupt))
    else
      var p := sys.process.value;
      var stopped := sys.(process := Some(Stopped(p.activeKeyId)));
      match Seal(w.crypto, call.name, call.arguments, p.machine.known)
      case Err(code) => (sys, Err(code))
      case Ok(sealed) =>
        if !IsUuid(intentId) then (sys, Err(InvalidConfiguration))
        else if IdTaken(sys.rows, intentId) then (stopped, Err(Unavailable))
        else
          var row := Entry(NewIntent(w, sys.rows, call, sealed, intentId, gap, p.activeKeyId), None);
          if intentFate.Lost? then
            (if intentFate.kept then stopped.(rows := sys.rows + [row]) else stopped, Err(Unavailable))
          else if p.activeKeyId !in w.keys then (stopped.(rows := sys.rows + [row]), Err(Unavailable))
          else match Live(w.ContextOf(row.intent), w.InnerCommand(p.machine.inner, call), source, [],
                          NOTHING_GENERATED, p.machine.known)
            case Failed(_) => (stopped.(rows := sys.rows + [row]), Err(Unavailable))
            case Finished(state, reply, generated, known) =>
              var done := row.(outcome := Some(OutcomeOf(w.crypto, reply, generated)));
              if outcomeFate.Lost? then
                (stopped.(rows := sys.rows + [if outcomeFate.kept then done else row]), Err(Unavailable))
              else
                (System(sys.rows + [done], Some(p.(machine := Machine(state, known))),
                        sys.answered + [Answered(|sys.rows|, call, reply)]), Ok(reply))
  }

  /** Recovery from row `k` on a machine: completed rows are replayed, a row without an outcome is
      executed again and its outcome appended. */
  function RecoverFrom<D(!new)>(w: World<D>, rows: seq<Entry>, k: nat, m: Machine<D>, sources: nat -> Source,
                          fates: nat -> Fate): (seq<Entry>, Result<Machine<D>, Code>)
    requires k <= |rows|
    decreases |rows| - k
  {
    if k == |rows| then (rows, Ok(m))
    else
      var e := rows[k];
      if e.intent.sequence <= LastSequence(rows[..k]) then (rows, Err(Corrupt))
      else if e.intent.leaseKeyId !in w.keys then (rows, Err(Corrupt))
      else if e.outcome.Some? then
        match ReplayRow(w, m, e)
        case Err(code) => (rows, Err(code))
        case Ok(next) => RecoverFrom(w, rows, k + 1, next.0, sources, fates)
      else match Unseal(e.intent.commandName, e.intent.arguments, m.known)
        case Err(code) => (rows, Err(code))
        case Ok(arguments) =>
          match Live(w.ContextOf(e.intent), w.InnerCommand(m.inner, CallOf(e.intent, arguments)), sources(k), [],
                     NOTHING_GENERATED, m.known)
          case Failed(code) => (rows, Err(code))
          case Finished(state, reply, generated, known) =>
            var done := rows[k := e.(outcome := Some(OutcomeOf(w.crypto, reply, generated)))];
            if fates(k).Lost? then (if fates(k).kept then done else rows, Err(Unavailable))
            else RecoverFrom(w, done, k + 1, Machine(state, known), sources, fates)
  }

  function Recover<D(!new)>(w: World<D>, rows: seq<Entry>, sources: nat -> Source, fates: nat -> Fate)
    : (seq<Entry>, Result<Machine<D>, Code>)
  {
    if exists i | 0 <= i < |rows| :: !Parses(w.crypto, rows[i]) then (rows, Err(Corrupt))
    else RecoverFrom(w, rows, 0, Fresh(w), sources, fates)
  }

  /** Creating a service: check the configuration, take the writer lock, recover. */
  function StartStep<D(!new)>(w: World<D>, sys: System<D>, activeKeyId: string, sources: nat -> Source,
                        fates: nat -> Fate): (System<D>, Option<Code>)
  {
    if !IsKeyId(activeKeyId) || activeKeyId !in w.keys then (sys, Some(InvalidConfiguration))
    else if sys.process.Some? then (sys, Some(WriterLocked))
    else
      var recovered := Recover(w, sys.rows, sources, fates);
      match recovered.1
      case Err(code) => (sys.(rows := recovered.0), Some(code))
      case Ok(m) => (sys.(rows := recovered.0, process := Some(Ready(m, activeKeyId))), None)
  }

  function Next<D(!new)>(w: World<D>, sys: System<D>, step: Step): System<D>
  {
    match step
    case Mutate(call, intentId, gap, source, intentFate, outcomeFate) =>
      MutateStep(w, sys, call, intentId, gap, source, intentFate, outcomeFate).0
    case Query(_) => sys
    case Halt => sys.(process := None)
    case Start(activeKeyId, sources, fates) => StartStep(w, sys, activeKeyId, sources, fates).0
  }

  function Run<D(!new)>(w: World<D>, sys: System<D>, steps: seq<Step>): System<D>
    decreases |steps|
  {
    if steps == [] then sys else Run(w, Next(w, sys, steps[0]), steps[1..])
  }

  function Empty<D>(): System<D>
  {
    System([], None, [])
  }

  // --- What every step keeps -------------------------------------------------------------------------

  /** At most the last row lacks an outcome. */
  ghost predicate OnlyLastPending(rows: seq<Entry>)
  {
    forall i | 0 <= i < |rows| - 1 :: rows[i].outcome.Some?
  }

  function CompletedRows(rows: seq<Entry>): seq<Entry>
  {
    if rows != [] && rows[|rows| - 1].outcome.None? then rows[..|rows| - 1] else rows
  }

  ghost predicate LegalRow<D(!new)>(w: World<D>, e: Entry)
  {
    Parses(w.crypto, e) && e.intent.leaseKeyId in w.keys && 1 <= e.intent.sequence
  }

  ghost predicate InOrder(e: Entry, later: Entry)
  {
    e.intent.sequence < later.intent.sequence && e.intent.intentId != later.intent.intentId
  }

  ghost predicate WellFormedRows<D(!new)>(w: World<D>, rows: seq<Entry>)
  {
    && (forall i | 0 <= i < |rows| :: LegalRow(w, rows[i]))
    && (forall i, j | 0 <= i < j < |rows| :: InOrder(rows[i], rows[j]))
  }

  /** The completed rows replay, and a pending row can at least be unsealed where recovery meets it. */
  ghost predicate Recoverable<D(!new)>(w: World<D>, rows: seq<Entry>)
  {
    && OnlyLastPending(rows)
    && Rebuilt(w, CompletedRows(rows)).Some?
    && (rows != [] && rows[|rows| - 1].outcome.None? ==>
          var e := rows[|rows| - 1];
          Unseal(e.intent.commandName, e.intent.arguments, Rebuilt(w, CompletedRows(rows)).value.known).Ok?)
  }

  /** Replaying the journal gives exactly what this caller was told. */
  ghost predicate Confirmed<D(!new)>(w: World<D>, rows: seq<Entry>, a: Answered)
  {
    && a.row < |rows|
    && rows[a.row].intent.commandName == a.call.name
    && rows[a.row].intent.principal == a.call.principal
    && RecordedAt(w, rows, a.row) == Some((JsonArguments(a.call.arguments), a.reply))
  }

  ghost predicate Sound<D(!new)>(w: World<D>, sys: System<D>)
  {
    && WellFormedRows(w, sys.rows)
    && Recoverable(w, sys.rows)
    && (forall a | a in sys.answered :: Confirmed(w, sys.rows, a))
    && (sys.process.Some? ==> IsKeyId(sys.process.value.activeKeyId) && sys.process.value.activeKeyId in w.keys)
    && (sys.process.Some? && sys.process.value.Ready? ==>
          Rebuilt(w, sys.rows) == Some(sys.process.value.machine))
  }

  /** `after` continues `before`: only a missing last outcome may have been filled in. */
  ghost predicate Continues(before: seq<Entry>, after: seq<Entry>)
  {
    && CompletedRows(before) <= after
    && |before| <= |after|
    && (forall i | 0 <= i < |before| :: after[i].intent == before[i].intent)
  }

  // --- Lemmas: one row -------------------------------------------------------------------------------

  lemma RebuiltSnoc<D(!new)>(w: World<D>, rows: seq<Entry>, e: Entry)
    ensures Rebuilt(w, rows + [e])
         == match Rebuilt(w, rows)
            case None => None
            case Some(m) => if e.outcome.None? || ReplayRow(w, m, e).Err? then None
                            else Some(ReplayRow(w, m, e).value.0)
  {
    assert (rows + [e])[..|rows|] == rows;
  }

  lemma {:induction false} RebuiltPrefix<D(!new)>(w: World<D>, rows: seq<Entry>, i: nat)
    requires i <= |rows| && Rebuilt(w, rows).Some?
    ensures Rebuilt(w, rows[..i]).Some?
    ensures i < |rows| ==> rows[i].outcome.Some? && ReplayRow(w, Rebuilt(w, rows[..i]).value, rows[i]).Ok?
    decreases |rows|
  {
    if i == |rows| {
      assert rows[..i] == rows;
    } else {
      var init := rows[..|rows| - 1];
      RebuiltPrefix(w, init, i);
      assert init[..i] == rows[..i];
      if i == |rows| - 1 { assert init == rows[..i]; }
    }
  }

  lemma RebuiltHasNoPending<D(!new)>(w: World<D>, rows: seq<Entry>)
    requires Rebuilt(w, rows).Some?
    ensures forall i | 0 <= i < |rows| :: rows[i].outcome.Some?
  {
    forall i | 0 <= i < |rows| ensures rows[i].outcome.Some? { RebuiltPrefix(w, rows, i); }
  }

  lemma InnerCommandRespectsJson<D(!new)>(w: World<D>, s: Inner<D>, call: Call)
    requires w.RespectsJson()
    ensures w.InnerCommand(s, call) == w.InnerCommand(s, call.Json())
  {
    assert w.RespectsJsonOf(s.domain, call);
  }

  /** The heart of the protocol: a live execution on a machine, journaled with what it recorded,
      replays on the same machine to the same reply and the same next machine. */
  lemma LiveRowReplays<D(!new)>(w: World<D>, m: Machine<D>, e: Entry, call: Call, source: Source)
    requires e.outcome.None? && e.intent.leaseKeyId in w.keys
    requires Unseal(e.intent.commandName, e.intent.arguments, m.known) == Ok(call.arguments)
    requires CallOf(e.intent, call.arguments) == call
    requires Live(w.ContextOf(e.intent), w.InnerCommand(m.inner, call), source, [], NOTHING_GENERATED, m.known).Finished?
    ensures var live := Live(w.ContextOf(e.intent), w.InnerCommand(m.inner, call), source, [], NOTHING_GENERATED, m.known);
            var done := e.(outcome := Some(OutcomeOf(w.crypto, live.reply, live.generated)));
            && ReplayRow(w, m, done) == Ok((Machine(live.state, live.known), live.reply))
            && ParsesOutcome(done.outcome.value)
  {
    var ctx := w.ContextOf(e.intent);
    var cmd := w.InnerCommand(m.inner, call);
    TapeTheorem(ctx, cmd, source, m.known);
    LiveRecordsLegalValues(ctx, cmd, source, [], NOTHING_GENERATED, m.known);
    var live := Live(ctx, cmd, source, [], NOTHING_GENERATED, m.known);
    DigestIsHash(w.crypto, OutcomeEnvelope(live.reply, live.generated));
  }

  lemma NewIntentParses<D(!new)>(w: World<D>, rows: seq<Entry>, call: Call, sealed: seq<Value>, intentId: string, gap: nat,
                           activeKeyId: string)
    requires call.name in MUTATION_NAMES && IsUuid(intentId) && IsKeyId(activeKeyId)
    ensures ParsesIntent(w.crypto, NewIntent(w, rows, call, sealed, intentId, gap, activeKeyId))
  {
    var intent := NewIntent(w, rows, call, sealed, intentId, gap, activeKeyId);
    DigestIsHash(w.crypto, IntentEnvelope(intent));
    assert IntentEnvelope(intent) == IntentEnvelope(intent.(requestHash := ""));
  }

  lemma AppendKeepsOrder<D(!new)>(w: World<D>, rows: seq<Entry>, e: Entry)
    requires WellFormedRows(w, rows) && Parses(w.crypto, e) && e.intent.leaseKeyId in w.keys
    requires LastSequence(rows) < e.intent.sequence && !IdTaken(rows, e.intent.intentId)
    ensures WellFormedRows(w, rows + [e])
  {
    hide Parses;
    assert LegalRow(w, e);
    forall i | 0 <= i < |rows| ensures InOrder(rows[i], e) {
      if i < |rows| - 1 { assert InOrder(rows[i], rows[|rows| - 1]); }
    }
  }

  /** Appending a legal row after completed rows: a pending one must unseal, a completed one replay. */
  lemma AppendRow<D(!new)>(w: World<D>, rows: seq<Entry>, e: Entry, m: Machine<D>)
    requires WellFormedRows(w, rows) && Rebuilt(w, rows) == Some(m)
    requires Parses(w.crypto, e) && e.intent.leaseKeyId in w.keys
    requires LastSequence(rows) < e.intent.sequence && !IdTaken(rows, e.intent.intentId)
    requires if e.outcome.None? then Unseal(e.intent.commandName, e.intent.arguments, m.known).Ok?
             else ReplayRow(w, m, e).Ok?
    ensures WellFormedRows(w, rows + [e]) && Recoverable(w, rows + [e]) && Continues(rows, rows + [e])
    ensures e.outcome.Some? ==> Rebuilt(w, rows + [e]) == Some(ReplayRow(w, m, e).value.0)
  {
    hide ReplayRow, Parses, Unseal, WellFormedRows;
    var after := rows + [e];
    AppendKeepsOrder(w, rows, e);
    RebuiltHasNoPending(w, rows);
    RebuiltSnoc(w, rows, e);
    if e.outcome.None? { assert CompletedRows(after) == rows; }
  }

  lemma FillKeepsOrder<D(!new)>(w: World<D>, rows: seq<Entry>, outcome: Outcome)
    requires WellFormedRows(w, rows) && rows != [] && ParsesOutcome(outcome)
    ensures var k := |rows| - 1;
            WellFormedRows(w, rows[k := rows[k].(outcome := Some(outcome))])
  {
    hide ParsesIntent, ParsesOutcome;
    var k := |rows| - 1;
    var done := rows[k].(outcome := Some(outcome));
    var after := rows[k := done];
    assert LegalRow(w, rows[k]);
    forall i | 0 <= i < |after| ensures LegalRow(w, after[i]) {
      if i < k { assert after[i] == rows[i]; }
    }
    forall i, j | 0 <= i < j < |after| ensures InOrder(after[i], after[j]) {
      assert InOrder(rows[i], rows[j]);
    }
  }

  /** Filling in the missing outcome of the last row. */
  lemma FillRow<D(!new)>(w: World<D>, rows: seq<Entry>, outcome: Outcome)
    requires WellFormedRows(w, rows) && Recoverable(w, rows) && ParsesOutcome(outcome)
    requires rows != [] && rows[|rows| - 1].outcome.None?
    requires ReplayRow(w, Rebuilt(w, CompletedRows(rows)).value, rows[|rows| - 1].(outcome := Some(outcome))).Ok?
    ensures var k := |rows| - 1;
            var done := rows[k].(outcome := Some(outcome));
            var after := rows[k := done];
            && WellFormedRows(w, after) && Recoverable(w, after) && Continues(rows, after)
            && Rebuilt(w, after) == Some(ReplayRow(w, Rebuilt(w, CompletedRows(rows)).value, done).value.0)
  {
    hide ReplayRow, ParsesIntent, ParsesOutcome, Unseal, Parses, WellFormedRows;
    var k := |rows| - 1;
    var done := rows[k].(outcome := Some(outcome));
    var after := rows[k := done];
    FillKeepsOrder(w, rows, outcome);
    assert after == rows[..k] + [done];
    RebuiltSnoc(w, rows[..k], done);
  }

  lemma ConfirmedContinues<D(!new)>(w: World<D>, before: seq<Entry>, after: seq<Entry>, a: Answered)
    requires Confirmed(w, before, a) && Continues(before, after)
    ensures Confirmed(w, after, a)
  {
    hide ReplayRow;
    assert before[a.row].outcome.Some?;
    assert a.row < |CompletedRows(before)|;
    assert after[..a.row] == before[..a.row];
    assert after[a.row] == CompletedRows(before)[a.row] == before[a.row];
  }

  // --- Lemmas: one mutation ----------------------------------------------------------------------------

  lemma MutateExtendsRows<D(!new)>(w: World<D>, rows: seq<Entry>, p: Process<D>, call: Call, sealed: seq<Value>,
                                   intentId: string, gap: nat, source: Source)
    requires p.Ready? && w.RespectsJson() && WellFormedRows(w, rows) && Rebuilt(w, rows) == Some(p.machine)
    requires IsKeyId(p.activeKeyId) && p.activeKeyId in w.keys
    requires call.name in MUTATION_NAMES && IsUuid(intentId) && !IdTaken(rows, intentId)
    requires Seal(w.crypto, call.name, call.arguments, p.machine.known) == Ok(sealed)
    ensures var row := Entry(NewIntent(w, rows, call, sealed, intentId, gap, p.activeKeyId), None);
            var live := Live(w.ContextOf(row.intent), w.InnerCommand(p.machine.inner, call), source, [],
                             NOTHING_GENERATED, p.machine.known);
            && WellFormedRows(w, rows + [row]) && Recoverable(w, rows + [row]) && Continues(rows, rows + [row])
            && (live.Finished? ==>
                  var done := row.(outcome := Some(OutcomeOf(w.crypto, live.reply, live.generated)));
                  && WellFormedRows(w, rows + [done]) && Recoverable(w, rows + [done]) && Continues(rows, rows + [done])
                  && ReplayRow(w, p.machine, done) == Ok((Machine(live.state, live.known), live.reply))
                  && Rebuilt(w, rows + [done]) == Some(Machine(live.state, live.known)))
  {
    var m := p.machine;
    UnsealSeal(w.crypto, call.name, call.arguments, m.known);
    var row := Entry(NewIntent(w, rows, call, sealed, intentId, gap, p.activeKeyId), None);
    NewIntentParses(w, rows, call, sealed, intentId, gap, p.activeKeyId);
    AppendRow(w, rows, row, m);
    InnerCommandRespectsJson(w, m.inner, call);
    var live := Live(w.ContextOf(row.intent), w.InnerCommand(m.inner, call), source, [], NOTHING_GENERATED, m.known);
    if live.Finished? {
      LiveRowReplays(w, m, row, call.Json(), source);
      AppendRow(w, rows, row.(outcome := Some(OutcomeOf(w.crypto, live.reply, live.generated))), m);
    }
  }

  lemma ConfirmedAll<D(!new)>(w: World<D>, before: seq<Entry>, after: seq<Entry>, answered: seq<Answered>)
    requires Continues(before, after)
    requires forall a | a in answered :: Confirmed(w, before, a)
    ensures forall a | a in answered :: Confirmed(w, after, a)
  {
    forall a | a in answered ensures Confirmed(w, after, a) { ConfirmedContinues(w, before, after, a); }
  }

  lemma NewAnswerConfirmed<D(!new)>(w: World<D>, rows: seq<Entry>, done: Entry, m: Machine<D>, call: Call, reply: Reply)
    requires Rebuilt(w, rows) == Some(m) && done.outcome.Some?
    requires done.intent.commandName == call.name && done.intent.principal == call.principal
    requires Unseal(call.name, done.intent.arguments, m.known) == Ok(JsonArguments(call.arguments))
    requires ReplayRow(w, m, done).Ok? && ReplayRow(w, m, done).value.1 == reply
    ensures Confirmed(w, rows + [done], Answered(|rows|, call, reply))
  {
    hide ReplayRow, Unseal;
    assert (rows + [done])[..|rows|] == rows;
  }

  lemma MutateKeepsSound<D(!new)>(w: World<D>, sys: System<D>, call: Call, intentId: string, gap: nat, source: Source,
                                  intentFate: Fate, outcomeFate: Fate)
    requires w.RespectsJson() && Sound(w, sys)
    ensures var after := MutateStep(w, sys, call, intentId, gap, source, intentFate, outcomeFate).0;
            Sound(w, after) && Continues(sys.rows, after.rows) && sys.answered <= after.answered
  {
    hide Live, ReplayRow, ParsesIntent, OutcomeOf, Rebuilt, Seal, Unseal, IsUuid, Confirmed;
    hide WellFormedRows, Recoverable, IdTaken, NewIntent;
    var (after, _) := MutateStep(w, sys, call, intentId, gap, source, intentFate, outcomeFate);
    if after.rows == sys.rows {
    } else {
      hide Continues;
      var p := sys.process.value;
      var sealed := Seal(w.crypto, call.name, call.arguments, p.machine.known).value;
      MutateExtendsRows(w, sys.rows, p, call, sealed, intentId, gap, source);
      ConfirmedAll(w, sys.rows, after.rows, sys.answered);
      if after.answered != sys.answered {
        var a := after.answered[|sys.answered|];
        UnsealSeal(w.crypto, call.name, call.arguments, p.machine.known);
        NewIntentCarriesTheCall(w, sys.rows, call, sealed, intentId, gap, p.activeKeyId);
        NewAnswerConfirmed(w, sys.rows, after.rows[|sys.rows|], p.machine, call, a.reply);
      }
    }
  }

  lemma NewIntentCarriesTheCall<D(!new)>(w: World<D>, rows: seq<Entry>, call: Call, sealed: seq<Value>, intentId: string,
                                         gap: nat, activeKeyId: string)
    ensures var intent := NewIntent(w, rows, call, sealed, intentId, gap, activeKeyId);
            intent.commandName == call.name && intent.principal == call.principal && intent.arguments == sealed
  {
  }

  // --- Lemmas: recovery --------------------------------------------------------------------------------

  /** Whether recovery of sound rows goes through: there is nothing to execute again, or executing it
      finishes and its outcome is stored. */
  ghost predicate CanComplete<D(!new)>(w: World<D>, rows: seq<Entry>, sources: nat -> Source, fates: nat -> Fate)
    requires WellFormedRows(w, rows) && Recoverable(w, rows)
  {
    rows != [] && rows[|rows| - 1].outcome.None? ==>
      var k := |rows| - 1;
      fates(k).Stored? && PendingExecution(w, rows, sources(k)).Finished?
  }

  /** The execution that recovery gives the row without an outcome. */
  ghost function PendingExecution<D(!new)>(w: World<D>, rows: seq<Entry>, source: Source): Execution<Inner<D>>
    requires WellFormedRows(w, rows) && Recoverable(w, rows)
    requires rows != [] && rows[|rows| - 1].outcome.None?
  {
    var e := rows[|rows| - 1];
    var m := Rebuilt(w, CompletedRows(rows)).value;
    var arguments := Unseal(e.intent.commandName, e.intent.arguments, m.known).value;
    Live(w.ContextOf(e.intent), w.InnerCommand(m.inner, CallOf(e.intent, arguments)), source, [],
         NOTHING_GENERATED, m.known)
  }

  ghost predicate RecoveredFrom<D(!new)>(w: World<D>, rows: seq<Entry>, sources: nat -> Source, fates: nat -> Fate,
                                   recovered: (seq<Entry>, Result<Machine<D>, Code>))
    requires WellFormedRows(w, rows) && Recoverable(w, rows)
  {
    && WellFormedRows(w, recovered.0) && Recoverable(w, recovered.0) && Continues(rows, recovered.0)
    && recovered.1.Ok? == CanComplete(w, rows, sources, fates)
    && (recovered.1.Ok? ==> Rebuilt(w, recovered.0) == Some(recovered.1.value))
    && (recovered.1.Err? ==> recovered.1.error in {Unavailable, InvalidConfiguration})
  }

  lemma {:induction false} LiveFailureCodes<S>(ctx: Context, cmd: Command<S>, source: Source, h: seq<Answer>, gen: Generated,
                                               known: Known)
    requires Live(ctx, cmd, source, h, gen, known).Failed?
    ensures Live(ctx, cmd, source, h, gen, known).code in {Unavailable, InvalidConfiguration}
    decreases cmd.limit - |h|
  {
    var request := cmd.next(h);
    if !request.Return? && !request.Throw? && |h| < cmd.limit {
      match request
      case AwaitId =>
        var id := source.ids(|gen.ids|);
        if 1 <= |id| <= 512 && |gen.ids| < MAX_GENERATED_VALUES {
          LiveFailureCodes(ctx, cmd, source, h + [AnId(id)], gen.(ids := gen.ids + [id]), known);
        }
      case AwaitTime =>
        var time := source.times(|gen.timestamps|);
        if time.Some? && |gen.timestamps| < MAX_GENERATED_VALUES {
          LiveFailureCodes(ctx, cmd, source, h + [ATime(time.value)],
                           gen.(timestamps := gen.timestamps + [time.value]), known);
        }
      case AwaitLease =>
        LiveFailureCodes(ctx, cmd, source, h + [ALease(ctx.Token(gen.leaseCount))],
                         gen.(leaseCount := gen.leaseCount + 1), ctx.Learn(known, gen.leaseCount));
      case _ =>
    }
  }

  lemma ContinuesItself(rows: seq<Entry>)
    ensures Continues(rows, rows)
  {
  }

  /** What recovery does with the row without an outcome. */
  lemma RecoverPendingRow<D(!new)>(w: World<D>, rows: seq<Entry>, sources: nat -> Source, fates: nat -> Fate)
    requires WellFormedRows(w, rows) && Recoverable(w, rows)
    requires rows != [] && rows[|rows| - 1].outcome.None?
    ensures var k := |rows| - 1;
            var live := PendingExecution(w, rows, sources(k));
            && CompletedRows(rows) == rows[..k]
            && Rebuilt(w, rows[..k]).Some?
            && RecoverFrom(w, rows, k, Rebuilt(w, rows[..k]).value, sources, fates)
            == if live.Failed? then (rows, Err(live.code))
               else
                 var after := rows[k := rows[k].(outcome := Some(OutcomeOf(w.crypto, live.reply, live.generated)))];
                 if fates(k).Lost? then (if fates(k).kept then after else rows, Err(Unavailable))
                 else (after, Ok(Machine(live.state, live.known)))
  {
    hide ReplayRow, Parses, OutcomeOf, Live, Rebuilt, Unseal, LastSequence, InOrder, LegalRow;
    SequenceExceedsEarlier(w, rows, |rows| - 1);
  }

  lemma RecoverPending<D(!new)>(w: World<D>, rows: seq<Entry>, sources: nat -> Source, fates: nat -> Fate)
    requires WellFormedRows(w, rows) && Recoverable(w, rows)
    requires rows != [] && rows[|rows| - 1].outcome.None?
    ensures var k := |rows| - 1;
            && Rebuilt(w, rows[..k]).Some?
            && RecoveredFrom(w, rows, sources, fates,
                             RecoverFrom(w, rows, k, Rebuilt(w, rows[..k]).value, sources, fates))
  {
    hide RecoverFrom, PendingExecution, OutcomeOf, Rebuilt, WellFormedRows, Recoverable, Continues, CompletedRows;
    ContinuesItself(rows);
    RecoverPendingRow(w, rows, sources, fates);
    PendingCompletes(w, rows, sources(|rows| - 1));
  }

  lemma SequenceExceedsEarlier<D(!new)>(w: World<D>, rows: seq<Entry>, k: nat)
    requires WellFormedRows(w, rows) && k < |rows|
    ensures LastSequence(rows[..k]) < rows[k].intent.sequence
    ensures rows[k].intent.leaseKeyId in w.keys
  {
    hide Parses;
    assert LegalRow(w, rows[k]);
    if k > 0 { assert InOrder(rows[k - 1], rows[k]); }
  }

  lemma PendingCompletes<D(!new)>(w: World<D>, rows: seq<Entry>, source: Source)
    requires WellFormedRows(w, rows) && Recoverable(w, rows)
    requires rows != [] && rows[|rows| - 1].outcome.None?
    ensures var k := |rows| - 1;
            var live := PendingExecution(w, rows, source);
            if live.Failed? then live.code in {Unavailable, InvalidConfiguration}
            else
              var after := rows[k := rows[k].(outcome := Some(OutcomeOf(w.crypto, live.reply, live.generated)))];
              && WellFormedRows(w, after) && Recoverable(w, after) && Continues(rows, after)
              && Rebuilt(w, after) == Some(Machine(live.state, live.known))
  {
    hide Live, Rebuilt, ReplayRow, Parses, OutcomeOf, ParsesOutcome, Unseal;
    var e := rows[|rows| - 1];
    var m := Rebuilt(w, CompletedRows(rows)).value;
    var call := CallOf(e.intent, Unseal(e.intent.commandName, e.intent.arguments, m.known).value);
    SequenceExceedsEarlier(w, rows, |rows| - 1);
    var live := PendingExecution(w, rows, source);
    if live.Failed? {
      LiveFailureCodes(w.ContextOf(e.intent), w.InnerCommand(m.inner, call), source, [], NOTHING_GENERATED, m.known);
    } else {
      LiveRowReplays(w, m, e, call, source);
      FillRow(w, rows, OutcomeOf(w.crypto, live.reply, live.generated));
    }
  }

  lemma RecoverPastCompletedRow<D(!new)>(w: World<D>, rows: seq<Entry>, k: nat, sources: nat -> Source, fates: nat -> Fate)
    requires WellFormedRows(w, rows) && Recoverable(w, rows)
    requires k < |CompletedRows(rows)|
    requires Rebuilt(w, rows[..k]).Some?
    ensures Rebuilt(w, rows[..k + 1]).Some?
    ensures RecoverFrom(w, rows, k, Rebuilt(w, rows[..k]).value, sources, fates)
         == RecoverFrom(w, rows, k + 1, Rebuilt(w, rows[..k + 1]).value, sources, fates)
  {
    hide Live, ReplayRow, Parses, Unseal, Rebuilt, WellFormedRows;
    var completed := CompletedRows(rows);
    RebuiltPrefix(w, completed, k);
    assert completed[..k] == rows[..k] && completed[k] == rows[k];
    assert rows[..k + 1] == rows[..k] + [rows[k]];
    RebuiltSnoc(w, rows[..k], rows[k]);
    SequenceExceedsEarlier(w, rows, k);
  }

  lemma {:induction false} RecoverFromIsSound<D(!new)>(w: World<D>, rows: seq<Entry>, k: nat, sources: nat -> Source,
                                                       fates: nat -> Fate)
    requires WellFormedRows(w, rows) && Recoverable(w, rows)
    requires k <= |CompletedRows(rows)|
    requires Rebuilt(w, rows[..k]).Some?
    ensures RecoveredFrom(w, rows, sources, fates,
                          RecoverFrom(w, rows, k, Rebuilt(w, rows[..k]).value, sources, fates))
    decreases |rows| - k
  {
    hide Live, ReplayRow, Parses, Unseal, PendingExecution, Rebuilt, WellFormedRows;
    if k == |rows| {
      assert rows[..k] == rows;
    } else if k == |CompletedRows(rows)| {
      RecoverPending(w, rows, sources, fates);
    } else {
      RecoverPastCompletedRow(w, rows, k, sources, fates);
      RecoverFromIsSound(w, rows, k + 1, sources, fates);
    }
  }

  lemma StartKeepsSound<D(!new)>(w: World<D>, sys: System<D>, activeKeyId: string, sources: nat -> Source, fates: nat -> Fate)
    requires Sound(w, sys)
    ensures var after := StartStep(w, sys, activeKeyId, sources, fates).0;
            Sound(w, after) && Continues(sys.rows, after.rows) && after.answered == sys.answered
  {
    hide RecoverFrom, Rebuilt, Parses, PendingExecution, ReplayRow, Unseal, Confirmed, CanComplete;
    var (after, _) := StartStep(w, sys, activeKeyId, sources, fates);
    if after != sys {
      RebuiltNothing(w, sys.rows);
      RecoverFromIsSound(w, sys.rows, 0, sources, fates);
      ConfirmedAll(w, sys.rows, after.rows, sys.answered);
    }
  }

  lemma RebuiltNothing<D(!new)>(w: World<D>, rows: seq<Entry>)
    ensures Rebuilt(w, rows[..0]) == Some(Fresh(w))
  {
  }

  /** What recovery can end in, for the rows of any run: with a valid key and the lock free it
      succeeds exactly when the one unfinished intent, if there is one, executes to an outcome that
      is stored; it never reports drift, corruption or an unknown secret. */
  lemma RecoveryOfSoundRows<D(!new)>(w: World<D>, sys: System<D>, activeKeyId: string, sources: nat -> Source, fates: nat -> Fate)
    requires Sound(w, sys) && sys.process.None?
    requires IsKeyId(activeKeyId) && activeKeyId in w.keys
    ensures var (after, failure) := StartStep(w, sys, activeKeyId, sources, fates);
            && (failure.None? <==> CanComplete(w, sys.rows, sources, fates))
            && (failure.None? ==> after.process.Some? && after.process.value.Ready?
                                  && Rebuilt(w, after.rows) == Some(after.process.value.machine))
            && (failure.Some? ==> failure.value in {Unavailable, InvalidConfiguration})
  {
    hide RecoverFrom, ReplayRow, Unseal, PendingExecution, ParsesIntent;
    assert sys.rows[..0] == [];
    RecoverFromIsSound(w, sys.rows, 0, sources, fates);
  }

  // --- Whole runs ------------------------------------------------------------------------------------------

  lemma NextKeepsSound<D(!new)>(w: World<D>, sys: System<D>, step: Step)
    requires w.RespectsJson() && Sound(w, sys)
    ensures Sound(w, Next(w, sys, step))
    ensures Continues(sys.rows, Next(w, sys, step).rows)
    ensures sys.answered <= Next(w, sys, step).answered
    ensures step.Query? ==> Next(w, sys, step) == sys
    ensures step.Halt? ==> Next(w, sys, step) == sys.(process := None)
  {
    hide MutateStep, StartStep, Rebuilt, RecordedAt, ReplayRow, Parses, Unseal;
    match step
    case Mutate(call, intentId, gap, source, intentFate, outcomeFate) =>
      MutateKeepsSound(w, sys, call, intentId, gap, source, intentFate, outcomeFate);
    case Query(_) =>
    case Halt =>
    case Start(activeKeyId, sources, fates) => StartKeepsSound(w, sys, activeKeyId, sources, fates);
  }

  lemma ContinuesTransitive(a: seq<Entry>, b: seq<Entry>, c: seq<Entry>)
    requires Continues(a, b) && Continues(b, c)
    ensures Continues(a, c)
  {
    var n := |CompletedRows(a)|;
    assert forall i | 0 <= i < n :: b[i] == a[i];
    assert forall i | 0 <= i < n :: c[i] == CompletedRows(b)[i] == b[i];
    assert c[..n] == CompletedRows(a);
  }

  /** Safety over whole runs, from any sound state: whatever mutations, queries, failed or ambiguous
      appends, crashes and restarts follow, the state stays sound, the rows only grow, and no answer
      already given is forgotten. */
  lemma {:induction false} RunKeepsSound<D(!new)>(w: World<D>, sys: System<D>, steps: seq<Step>)
    requires w.RespectsJson() && Sound(w, sys)
    ensures var after := Run(w, sys, steps);
            Sound(w, after) && Continues(sys.rows, after.rows) && sys.answered <= after.answered
    decreases |steps|
  {
    hide Next, Rebuilt, RecordedAt, ReplayRow, Parses, Unseal;
    if steps != [] {
      var next := Next(w, sys, steps[0]);
      NextKeepsSound(w, sys, steps[0]);
      RunKeepsSound(w, next, steps[1..]);
      ContinuesTransitive(sys.rows, next.rows, Run(w, sys, steps).rows);
    }
  }

  /** Every run starts sound, on an empty journal. */
  lemma EmptyIsSound<D(!new)>(w: World<D>)
    ensures Sound(w, Empty<D>())
  {
    assert Rebuilt(w, []) == Some(Fresh(w));
  }

  /** No result already returned to a caller is ever lost or changed: at any later point of any run,
      replaying the journal yields it, at the same row, for the same call. */
  lemma AnswersSurvive<D(!new)>(w: World<D>, before: seq<Step>, later: seq<Step>, a: Answered)
    requires w.RespectsJson()
    requires a in Run(w, Empty<D>(), before).answered
    ensures var sys := Run(w, Run(w, Empty<D>(), before), later);
            && OnlyLastPending(sys.rows)
            && Confirmed(w, sys.rows, a)
            && (sys.process.Some? && sys.process.value.Ready? ==> Rebuilt(w, sys.rows) == Some(sys.process.value.machine))
  {
    hide Run, ReplayRow, Parses, Unseal;
    EmptyIsSound(w);
    RunKeepsSound(w, Empty<D>(), before);
    RunKeepsSound(w, Run(w, Empty<D>(), before), later);
  }

  // --- What every row is about ------------------------------------------------------------------------------

  /** The calls whose intents a run has journaled, row by row. */
  function Submitted<D(!new)>(w: World<D>, sys: System<D>, steps: seq<Step>): seq<Call>
    decreases |steps|
  {
    if steps == [] then []
    else
      var next := Next(w, sys, steps[0]);
      (if steps[0].Mutate? && |next.rows| > |sys.rows| then [steps[0].call] else []) + Submitted(w, next, steps[1..])
  }

  /** Row `i` carries a call: its intent names the command and the principal, and its sealed arguments,
      unsealed with the tokens rebuilt from the rows before it, are the arguments of the call. */
  ghost predicate CarriesAt<D(!new)>(w: World<D>, rows: seq<Entry>, i: nat, call: Call)
    requires i < |rows|
  {
    && rows[i].intent.commandName == call.name && rows[i].intent.principal == call.principal
    && Rebuilt(w, rows[..i]).Some?
    && Unseal(call.name, rows[i].intent.arguments, Rebuilt(w, rows[..i]).value.known) == Ok(JsonArguments(call.arguments))
  }

  ghost predicate Carries<D(!new)>(w: World<D>, rows: seq<Entry>, calls: seq<Call>)
  {
    |calls| == |rows| && forall i | 0 <= i < |rows| :: CarriesAt(w, rows, i, calls[i])
  }

  lemma CarriesContinues<D(!new)>(w: World<D>, before: seq<Entry>, after: seq<Entry>, i: nat, call: Call)
    requires Continues(before, after) && OnlyLastPending(before) && i < |before| && CarriesAt(w, before, i, call)
    ensures CarriesAt(w, after, i, call)
  {
    hide Rebuilt, Unseal;
    assert i <= |CompletedRows(before)| && CompletedRows(before)[..i] == before[..i];
    assert after[..i] == before[..i];
  }

  /** A mutation adds the row of its own call or none. */
  lemma MutateAddsItsCall<D(!new)>(w: World<D>, sys: System<D>, call: Call, intentId: string, gap: nat, source: Source,
                                   intentFate: Fate, outcomeFate: Fate)
    requires Sound(w, sys)
    ensures var rows := MutateStep(w, sys, call, intentId, gap, source, intentFate, outcomeFate).0.rows;
      rows == sys.rows || (|rows| == |sys.rows| + 1 && rows[..|sys.rows|] == sys.rows && CarriesAt(w, rows, |sys.rows|, call))
  {
    hide Live, ReplayRow, OutcomeOf, Rebuilt, Seal, Unseal, IsUuid, Confirmed, WellFormedRows, Recoverable, IdTaken, NewIntent;
    var rows := MutateStep(w, sys, call, intentId, gap, source, intentFate, outcomeFate).0.rows;
    if rows != sys.rows {
      var p := sys.process.value;
      var sealed := Seal(w.crypto, call.name, call.arguments, p.machine.known).value;
      UnsealSeal(w.crypto, call.name, call.arguments, p.machine.known);
      NewIntentCarriesTheCall(w, sys.rows, call, sealed, intentId, gap, p.activeKeyId);
      assert rows[..|sys.rows|] == sys.rows;
    }
  }

  lemma StartAddsNoRow<D(!new)>(w: World<D>, rows: seq<Entry>, k: nat, m: Machine<D>, sources: nat -> Source, fates: nat -> Fate)
    requires k <= |rows|
    ensures |RecoverFrom(w, rows, k, m, sources, fates).0| == |rows|
    decreases |rows| - k
  {
    hide Live, ReplayRow, Unseal;
  }

  lemma NextCarries<D(!new)>(w: World<D>, sys: System<D>, step: Step, calls: seq<Call>)
    requires w.RespectsJson() && Sound(w, sys) && Carries(w, sys.rows, calls)
    ensures var next := Next(w, sys, step);
      Carries(w, next.rows, calls + (if step.Mutate? && |next.rows| > |sys.rows| then [step.call] else []))
  {
    hide MutateStep, Rebuilt, Unseal, WellFormedRows, Confirmed, CarriesAt, Continues, RecoverFrom, Parses;
    var next := Next(w, sys, step);
    NextKeepsSound(w, sys, step);
    match step {
      case Mutate(call, intentId, gap, source, intentFate, outcomeFate) =>
        MutateAddsItsCall(w, sys, call, intentId, gap, source, intentFate, outcomeFate);
      case Start(_, sources, fates) => StartAddsNoRow(w, sys.rows, 0, Fresh(w), sources, fates);
      case _ =>
    }
    hide Next;
    forall i | 0 <= i < |calls| ensures CarriesAt(w, next.rows, i, calls[i]) {
      CarriesContinues(w, sys.rows, next.rows, i, calls[i]);
    }
  }

  lemma {:induction false} RunCarries<D(!new)>(w: World<D>, sys: System<D>, steps: seq<Step>, calls: seq<Call>)
    requires w.RespectsJson() && Sound(w, sys) && Carries(w, sys.rows, calls)
    ensures Carries(w, Run(w, sys, steps).rows, calls + Submitted(w, sys, steps))
    decreases |steps|
  {
    hide Next, Sound, Carries;
    if steps == [] {
      assert calls + [] == calls;
    } else {
      var next := Next(w, sys, steps[0]);
      var more := if steps[0].Mutate? && |next.rows| > |sys.rows| then [steps[0].call] else [];
      NextKeepsSound(w, sys, steps[0]);
      NextCarries(w, sys, steps[0], calls);
      RunCarries(w, next, steps[1..], calls + more);
      assert calls + (more + Submitted(w, next, steps[1..])) == calls + more + Submitted(w, next, steps[1..]);
    }
  }

  /** The known tokens that replay rebuilds suffice at every row, answered, unanswered or pending: in any
      reachable state there is one row for every submitted call, and the secrets of row `i`, unsealed
      under the tokens rebuilt from the rows before it, give back the arguments of call `i`. */
  lemma SecretsUnsealAtEveryRow<D(!new)>(w: World<D>, steps: seq<Step>, i: nat)
    requires w.RespectsJson()
    requires i < |Run(w, Empty<D>(), steps).rows|
    ensures var rows, calls := Run(w, Empty<D>(), steps).rows, Submitted(w, Empty<D>(), steps);
            && |calls| == |rows|
            && rows[i].intent.commandName == calls[i].name && rows[i].intent.principal == calls[i].principal
            && Rebuilt(w, rows[..i]).Some?
            && Unseal(calls[i].name, rows[i].intent.arguments, Rebuilt(w, rows[..i]).value.known)
               == Ok(JsonArguments(calls[i].arguments))
  {
    hide Run, Rebuilt, Unseal, Recoverable, Submitted;
    EmptyIsSound(w);
    RunCarries(w, Empty<D>(), steps, []);
    var rows, calls := Run(w, Empty<D>(), steps).rows, Submitted(w, Empty<D>(), steps);
    assert [] + calls == calls;
    assert CarriesAt(w, rows, i, calls[i]);
  }

  lemma ReplayedRowUnseals<D(!new)>(w: World<D>, m: Machine<D>, e: Entry)
    requires e.outcome.Some? && ReplayRow(w, m, e).Ok?
    ensures Unseal(e.intent.commandName, e.intent.arguments, m.known).Ok?
  {
  }
}
