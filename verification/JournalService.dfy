/**
 The imperative form of the command journal: the tables, the tape and the runtime, each method
 proved against the protocol of JournalProtocol.
 */
module JournalService {
  import opened Outcomes
  import opened JournalCore
  import opened JournalProtocol

  // --- The tables --------------------------------------------------------------------------------

  ghost predicate IdsDistinct(rows: seq<Entry>)
  {
    forall i, j | 0 <= i < j < |rows| :: rows[i].intent.intentId != rows[j].intent.intentId
  }

  /** The two append-only journal tables, joined on the intent id, which is unique. */
  class JournalTables {
    var rows: seq<Entry>

    constructor ()
      ensures rows == []
    {
      rows := [];
    }

    /** Inserting an intent: refused when its id is taken, otherwise as the fate says. */
    method AppendIntent(intent: Intent, fate: Fate) returns (acknowledged: bool)
      requires IdsDistinct(rows)
      modifies this
      ensures IdsDistinct(rows)
      ensures acknowledged == (!IdTaken(old(rows), intent.intentId) && fate.Stored?)
      ensures rows == if IdTaken(old(rows), intent.intentId) || fate == Lost(false) then old(rows)
                      else old(rows) + [Entry(intent, None)]
    {
      if IdTaken(rows, intent.intentId) || fate == Lost(false) { return false; }
      rows := rows + [Entry(intent, None)];
      return fate.Stored?;
    }

    /** Inserting an outcome for the intent in row `k`. */
    method AppendOutcome(intentId: string, outcome: Outcome, fate: Fate, ghost k: nat) returns (acknowledged: bool)
      requires IdsDistinct(rows)
      requires k < |rows| && rows[k].intent.intentId == intentId && rows[k].outcome.None?
      modifies this
      ensures IdsDistinct(rows)
      ensures acknowledged == fate.Stored?
      ensures rows == if fate == Lost(false) then old(rows)
                      else old(rows)[k := old(rows)[k].(outcome := Some(outcome))]
    {
      if fate == Lost(false) { return false; }
      var i := 0;
      while rows[i].intent.intentId != intentId
        invariant 0 <= i <= k
        decreases k - i
      {
        i := i + 1;
      }
      assert i == k;
      rows := rows[i := rows[i].(outcome := Some(outcome))];
      return fate.Stored?;
    }
  }

  // --- The tape ------------------------------------------------------------------------------------

  datatype Active =
    | Idle
    | LiveTape(intentId: string, leaseKeyId: string, recorded: Generated)
    | ReplayTape(intentId: string, leaseKeyId: string, tape: Generated, used: Used)

  /** The source of every generated value: it records while live and plays back while replaying. */
  class GenerationTape {
    const crypto: Crypto
    const keys: map<string, string>
    var knownLeaseTokens: Known
    var active: Active

    constructor (crypto: Crypto, keys: map<string, string>)
      ensures this.crypto == crypto && this.keys == keys && knownLeaseTokens == map[] && active == Idle
    {
      this.crypto := crypto;
      this.keys := keys;
      knownLeaseTokens := map[];
      active := Idle;
    }

    method IdFactory(supplied: string) returns (r: Result<string, Code>)
      modifies this`active
      ensures match old(active)
              case Idle => r == Err(Unready) && active == old(active)
              case ReplayTape(_, _, tape, used) =>
                if used.ids >= |tape.ids| then r == Err(ReplayDrift) && active == old(active)
                else r == Ok(tape.ids[used.ids]) && active == old(active).(used := used.(ids := used.ids + 1))
              case LiveTape(_, _, recorded) =>
                if !(1 <= |supplied| <= 512) || |recorded.ids| >= MAX_GENERATED_VALUES
                then r == Err(InvalidConfiguration) && active == old(active)
                else r == Ok(supplied)
                     && active == old(active).(recorded := recorded.(ids := recorded.ids + [supplied]))
    {
      match active
      case Idle => return Err(Unready);
      case ReplayTape(_, _, tape, used) =>
        if used.ids >= |tape.ids| { return Err(ReplayDrift); }
        active := active.(used := used.(ids := used.ids + 1));
        return Ok(tape.ids[used.ids]);
      case LiveTape(_, _, recorded) =>
        if |supplied| < 1 || |supplied| > 512 { return Err(InvalidConfiguration); }
        if |recorded.ids| >= MAX_GENERATED_VALUES { return Err(InvalidConfiguration); }
        active := active.(recorded := recorded.(ids := recorded.ids + [supplied]));
        return Ok(supplied);
    }

    method Now(reading: Option<int>) returns (r: Result<int, Code>)
      modifies this`active
      ensures match old(active)
              case Idle => r == Err(Unready) && active == old(active)
              case ReplayTape(_, _, tape, used) =>
                if used.timestamps >= |tape.timestamps| then r == Err(ReplayDrift) && active == old(active)
                else r == Ok(tape.timestamps[used.timestamps])
                     && active == old(active).(used := used.(timestamps := used.timestamps + 1))
              case LiveTape(_, _, recorded) =>
                if reading.None? || |recorded.timestamps| >= MAX_GENERATED_VALUES
                then r == Err(InvalidConfiguration) && active == old(active)
                else r == Ok(reading.value)
                     && active == old(active).(recorded := recorded.(timestamps := recorded.timestamps + [reading.value]))
    {
      match active
      case Idle => return Err(Unready);
      case ReplayTape(_, _, tape, used) =>
        if used.timestamps >= |tape.timestamps| { return Err(ReplayDrift); }
        active := active.(used := used.(timestamps := used.timestamps + 1));
        return Ok(tape.timestamps[used.timestamps]);
      case LiveTape(_, _, recorded) =>
        if reading.None? || |recorded.timestamps| >= MAX_GENERATED_VALUES { return Err(InvalidConfiguration); }
        active := active.(recorded := recorded.(timestamps := recorded.timestamps + [reading.value]));
        return Ok(reading.value);
    }

    method LeaseTokenFactory() returns (r: Result<string, Code>)
      modifies this
      ensures old(active).Idle? ==> r == Err(Unready) && active == old(active) && knownLeaseTokens == old(knownLeaseTokens)
      ensures !old(active).Idle? && old(active).leaseKeyId !in keys ==>
                r == Err(Corrupt) && active == old(active) && knownLeaseTokens == old(knownLeaseTokens)
      ensures !old(active).Idle? && old(active).leaseKeyId in keys ==>
                var index := if old(active).LiveTape? then old(active).recorded.leaseCount else old(active).used.leases;
                var token := crypto.LeaseToken(keys[old(active).leaseKeyId], old(active).intentId, index);
                if old(active).ReplayTape? && index >= old(active).tape.leaseCount
                then r == Err(ReplayDrift) && active == old(active) && knownLeaseTokens == old(knownLeaseTokens)
                else && r == Ok(token)
                     && knownLeaseTokens == old(knownLeaseTokens)[crypto.Digest(Str(token)) := token]
                     && active == match old(active)
                                  case LiveTape(_, _, recorded) =>
                                    old(active).(recorded := recorded.(leaseCount := index + 1))
                                  case ReplayTape(_, _, _, used) =>
                                    old(active).(used := used.(leases := index + 1))
    {
      if active.Idle? { return Err(Unready); }
      if active.leaseKeyId !in keys { return Err(Corrupt); }
      if active.ReplayTape? && active.used.leases >= active.tape.leaseCount { return Err(ReplayDrift); }
      var index := if active.LiveTape? then active.recorded.leaseCount else active.used.leases;
      var token := crypto.LeaseToken(keys[active.leaseKeyId], active.intentId, index);
      active := match active
                case LiveTape(_, _, recorded) => active.(recorded := recorded.(leaseCount := index + 1))
                case ReplayTape(_, _, _, used) => active.(used := used.(leases := index + 1));
      knownLeaseTokens := knownLeaseTokens[crypto.Digest(Str(token)) := token];
      return Ok(token);
    }

    method StartLive(intentId: string, leaseKeyId: string) returns (started: bool)
      modifies this`active
      ensures started == old(active).Idle?
      ensures active == if started then LiveTape(intentId, leaseKeyId, NOTHING_GENERATED) else old(active)
    {
      if !active.Idle? { return false; }
      active := LiveTape(intentId, leaseKeyId, NOTHING_GENERATED);
      return true;
    }

    method StartReplay(intentId: string, leaseKeyId: string, generated: Generated) returns (started: bool)
      modifies this`active
      ensures started == old(active).Idle?
      ensures active == if started then ReplayTape(intentId, leaseKeyId, generated, NOTHING_USED) else old(active)
    {
      if !active.Idle? { return false; }
      active := ReplayTape(intentId, leaseKeyId, generated, NOTHING_USED);
      return true;
    }

    method Finish() returns (r: Result<Generated, Code>)
      modifies this`active
      ensures active == Idle
      ensures r == match old(active)
                   case Idle => Err(Unready)
                   case LiveTape(_, _, recorded) => Ok(recorded)
                   case ReplayTape(_, _, tape, used) => if used == FullyUsed(tape) then Ok(tape) else Err(ReplayDrift)
    {
      var was := active;
      active := Idle;
      match was
      case Idle => return Err(Unready);
      case LiveTape(_, _, recorded) => return Ok(recorded);
      case ReplayTape(_, _, tape, used) =>
        if used.ids != |tape.ids| || used.timestamps != |tape.timestamps| || used.leases != tape.leaseCount {
          return Err(ReplayDrift);
        }
        return Ok(tape);
    }

    method Abort()
      modifies this`active
      ensures active == Idle
    {
      active := Idle;
    }
  }

  // --- The runtime -----------------------------------------------------------------------------------

  class V2JournalRuntime<D(!new)> {
    const world: World<D>
    const tables: JournalTables
    const tape: GenerationTape
    const activeKeyId: string
    var inner: Inner<D>
    var ready: bool
    ghost var answered: seq<Answered>

    ghost predicate Valid()
      reads this, tables, tape
    {
      && tape.crypto == world.crypto && tape.keys == world.keys && tape.active == Idle
      && activeKeyId in world.keys && IsKeyId(activeKeyId)
      && IdsDistinct(tables.rows)
    }

    /** The protocol state this process and the tables amount to. */
    ghost function Abstract(): System<D>
      reads this, tables, tape
    {
      System(tables.rows,
             Some(if ready then Ready(Machine(inner, tape.knownLeaseTokens), activeKeyId) else Stopped(activeKeyId)),
             answered)
    }

    constructor (world: World<D>, tables: JournalTables, activeKeyId: string, ghost answered: seq<Answered>)
      requires activeKeyId in world.keys && IsKeyId(activeKeyId) && IdsDistinct(tables.rows)
      ensures Valid() && !ready && fresh(tape)
      ensures this.world == world && this.tables == tables && this.activeKeyId == activeKeyId && this.answered == answered
      ensures Machine(inner, tape.knownLeaseTokens) == Fresh(world)
    {
      this.world := world;
      this.tables := tables;
      this.activeKeyId := activeKeyId;
      this.answered := answered;
      this.ready := false;
      this.inner := Inner(world.initial, map[]);
      this.tape := new GenerationTape(world.crypto, world.keys);
    }

    /** What the rest of an execution will come to, given how far the tape is. */
    ghost function Rest(ctx: Context, cmd: Command<Inner<D>>, source: Source, h: seq<Answer>): Execution<Inner<D>>
      reads tape
      requires !tape.active.Idle?
    {
      match tape.active
      case LiveTape(_, _, recorded) => Live(ctx, cmd, source, h, recorded, tape.knownLeaseTokens)
      case ReplayTape(_, _, recording, used) => Replay(ctx, cmd, recording, h, used, tape.knownLeaseTokens)
    }

    ghost predicate TapeFor(ctx: Context)
      reads tape
    {
      && !tape.active.Idle? && tape.crypto == ctx.crypto
      && tape.active.leaseKeyId in tape.keys
      && ctx == Context(ctx.crypto, ctx.apiCodes, tape.active.intentId, tape.keys[tape.active.leaseKeyId])
    }

    /** Running a command to its end, every generated value going through the tape. */
    method Invoke(cmd: Command<Inner<D>>, source: Source, ghost ctx: Context)
      returns (ending: Result<Request<Inner<D>>, Code>, ghost last: seq<Answer>)
      requires TapeFor(ctx)
      modifies tape
      ensures TapeFor(ctx)
      ensures ending.Ok? ==> ending.value == cmd.next(last) && (ending.value.Return? || ending.value.Throw?)
                             && Rest(ctx, cmd, source, last) == old(Rest(ctx, cmd, source, []))
                             && tape.active.LiveTape? == old(tape.active.LiveTape?)
      ensures ending.Err? ==> old(Rest(ctx, cmd, source, [])) == Failed(ending.error)
    {
      var h: seq<Answer> := [];
      var request := cmd.next(h);
      while !request.Return? && !request.Throw?
        invariant TapeFor(ctx) && request == cmd.next(h)
        invariant Rest(ctx, cmd, source, h) == old(Rest(ctx, cmd, source, []))
        invariant tape.active.LiveTape? == old(tape.active.LiveTape?)
        invariant request.Return? || request.Throw? || |h| <= cmd.limit
        decreases cmd.limit - |h|
      {
        if |h| >= cmd.limit { return Err(Unavailable), h; }
        match request {
        case AwaitId =>
          var supplied := if tape.active.LiveTape? then source.ids(|tape.active.recorded.ids|) else "";
          var id := tape.IdFactory(supplied);
          if id.Err? { return Err(id.error), h; }
          h := h + [AnId(id.value)];
        case AwaitTime =>
          var reading := if tape.active.LiveTape? then source.times(|tape.active.recorded.timestamps|) else None;
          var time := tape.Now(reading);
          if time.Err? { return Err(time.error), h; }
          h := h + [ATime(time.value)];
        case AwaitLease =>
          var token := tape.LeaseTokenFactory();
          if token.Err? { return Err(token.error), h; }
          h := h + [ALease(token.value)];
        }
        request := cmd.next(h);
      }
      return Ok(request), h;
    }

    /** Executing one intent: live when no outcome is expected, on the recorded tape otherwise. */
    method Execute(intent: Intent, call: Call, source: Source, expected: Option<Generated>)
      returns (r: Result<(Reply, Generated), Code>)
      requires Valid() && intent.leaseKeyId in world.keys
      modifies this`inner, tape
      ensures Valid()
      ensures var ctx := world.ContextOf(intent);
              var cmd := old(world.InnerCommand(inner, call));
              var known := old(tape.knownLeaseTokens);
              var execution := if expected.None? then Live(ctx, cmd, source, [], NOTHING_GENERATED, known)
                               else Replay(ctx, cmd, expected.value, [], NOTHING_USED, known);
              match execution
              case Failed(code) => r == Err(code)
              case Finished(state, reply, generated, after) =>
                r == Ok((reply, generated)) && inner == state && tape.knownLeaseTokens == after
    {
      ghost var ctx := world.ContextOf(intent);
      var cmd := world.InnerCommand(inner, call);
      if expected.None? {
        var _ := tape.StartLive(intent.intentId, intent.leaseKeyId);
      } else {
        var _ := tape.StartReplay(intent.intentId, intent.leaseKeyId, expected.value);
      }
      var ending, last := Invoke(cmd, source, ctx);
      if ending.Err? {
        tape.Abort();
        return Err(ending.error);
      }
      inner := ending.value.state;
      var reply: Reply;
      match ending.value {
        case Return(_, result) => reply := Succeeded(result);
        case Throw(_, error) =>
          var failure := Normalize(world.apiCodes, error);
          if failure.None? {
            tape.Abort();
            return Err(Unavailable);
          }
          reply := Rejected(failure.value);
      }
      var generated := tape.Finish();
      if generated.Err? { return Err(generated.error); }
      return Ok((reply, generated.value));
    }

    /** One journaled mutation. */
    method Mutate(call: Call, intentId: string, gap: nat, source: Source, intentFate: Fate, outcomeFate: Fate)
      returns (r: Result<Reply, Code>)
      requires Valid()
      modifies this`inner, this`ready, this`answered, tape, tables
      ensures Valid()
      ensures (Abstract(), r) == MutateStep(world, old(Abstract()), call, intentId, gap, source, intentFate, outcomeFate)
    {
      hide Seal, Live, IsUuid, OutcomeOf, IntentEnvelope, Idempotent, LastSequence;
      if !ready { return Err(Unready); }
      if call.name !in MUTATION_NAMES { return Err(Corrupt); }
      var sealed := Seal(world.crypto, call.name, call.arguments, tape.knownLeaseTokens);
      if sealed.Err? { return Err(sealed.error); }
      if !IsUuid(intentId) { return Err(InvalidConfiguration); }
      var intent := NewIntent(world, tables.rows, call, sealed.value, intentId, gap, activeKeyId);
      ghost var k := |tables.rows|;
      var appended := tables.AppendIntent(intent, intentFate);
      if !appended {
        ready := false;
        return Err(Unavailable);
      }
      var execution := Execute(intent, call, source, None);
      if execution.Err? {
        ready := false;
        return Err(Unavailable);
      }
      var (reply, generated) := execution.value;
      var recorded := tables.AppendOutcome(intentId, OutcomeOf(world.crypto, reply, generated), outcomeFate, k);
      assert tables.rows == old(tables.rows) + [tables.rows[k]];
      if !recorded {
        ready := false;
        return Err(Unavailable);
      }
      answered := answered + [Answered(k, call, reply)];
      return Ok(reply);
    }

    /** Recovery of everything in the tables. */
    method Recover(sources: nat -> Source, fates: nat -> Fate) returns (failure: Option<Code>)
      requires Valid() && Machine(inner, tape.knownLeaseTokens) == Fresh(world)
      modifies this`inner, tape, tables
      ensures Valid()
      ensures var recovered := JournalProtocol.Recover(world, old(tables.rows), sources, fates);
              && tables.rows == recovered.0
              && match recovered.1
                 case Err(code) => failure == Some(code)
                 case Ok(m) => failure == None && Machine(inner, tape.knownLeaseTokens) == m
    {
      hide Unseal, OutcomeOf, Live, Replay;
      if exists i | 0 <= i < |tables.rows| :: !Parses(world.crypto, tables.rows[i]) { return Some(Corrupt); }
      var k := 0;
      var previousSequence := 0;
      while k < |tables.rows|
        invariant Valid() && 0 <= k <= |tables.rows|
        invariant previousSequence == LastSequence(tables.rows[..k])
        invariant RecoverFrom(world, tables.rows, k, Machine(inner, tape.knownLeaseTokens), sources, fates)
               == JournalProtocol.Recover(world, old(tables.rows), sources, fates)
        decreases |tables.rows| - k
      {
        var entry := tables.rows[k];
        if entry.intent.sequence <= previousSequence { return Some(Corrupt); }
        previousSequence := entry.intent.sequence;
        if entry.intent.leaseKeyId !in world.keys { return Some(Corrupt); }
        var unsealed := Unseal(entry.intent.commandName, entry.intent.arguments, tape.knownLeaseTokens);
        if unsealed.Err? { return Some(unsealed.error); }
        var call := CallOf(entry.intent, unsealed.value);
        if entry.outcome.None? {
          var recovered := Execute(entry.intent, call, sources(k), None);
          if recovered.Err? { return Some(recovered.error); }
          var (reply, generated) := recovered.value;
          var acknowledged := tables.AppendOutcome(entry.intent.intentId, OutcomeOf(world.crypto, reply, generated),
                                                   fates(k), k);
          if !acknowledged { return Some(Unavailable); }
        } else {
          var replayed := Execute(entry.intent, call, sources(k), Some(entry.outcome.value.generated));
          if replayed.Err? { return Some(replayed.error); }
          var (reply, generated) := replayed.value;
          if OutcomeOf(world.crypto, reply, generated) != entry.outcome.value { return Some(ReplayDrift); }
        }
        k := k + 1;
      }
      return None;
    }
  }

  /** Creating the service over the tables; `locked` says that another process holds the writer lock. */
  method Create<D(!new)>(world: World<D>, tables: JournalTables, activeKeyId: string, locked: bool,
                         sources: nat -> Source, fates: nat -> Fate, ghost before: System<D>)
    returns (runtime: V2JournalRuntime?<D>, failure: Option<Code>)
    requires IdsDistinct(tables.rows)
    requires before.rows == tables.rows && before.process.Some? == locked
    modifies tables
    ensures var (after, code) := StartStep(world, before, activeKeyId, sources, fates);
            && failure == code
            && (failure.None? ==> && runtime != null && fresh(runtime) && runtime.Valid() && runtime.world == world
                                  && runtime.tables == tables && runtime.Abstract() == after)
            && (failure.Some? ==> runtime == null && tables.rows == after.rows)
  {
    if !IsKeyId(activeKeyId) || activeKeyId !in world.keys { return null, Some(InvalidConfiguration); }
    if locked { return null, Some(WriterLocked); }
    var created := new V2JournalRuntime(world, tables, activeKeyId, before.answered);
    failure := created.Recover(sources, fates);
    if failure.Some? { return null, failure; }
    created.ready := true;
    runtime := created;
  }
}
