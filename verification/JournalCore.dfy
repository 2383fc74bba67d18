/**
 The command journal of the EXCON v2 API, part one: commands as deterministic programs that ask
 for generated values, the tape that records and replays those values, and the sealing of
 lease secrets.

 A command is a function from the values it has been given so far to its next request. Its
 deterministic text is fixed by the service state and the call; identifiers, clock readings and
 lease tokens are the only things that reach it from outside.
 */
module JournalCore {
  import opened Outcomes

  const MAX_GENERATED_VALUES: nat := 100000
  const JOURNAL_VERSION: nat := 1
  const LEASE_TOKEN_ARGUMENT_INDEX: nat := 3

  const MUTATION_NAMES: set<string> := {
    "createScenario", "createScenarioVersion", "validateScenarioVersion", "publishScenarioVersion",
    "createAgent", "createAgentVersion", "createRun", "joinRun", "startRun", "sync", "claimTask",
    "beginTask", "heartbeatTask", "releaseTask", "submitTask", "createMessage", "createArtifact",
    "createArtifactVersion", "endorseSubmission"
  }

  const LEASE_TOKEN_MUTATIONS: set<string> := {"beginTask", "heartbeatTask", "releaseTask", "submitTask"}

  datatype Code =
    | InvalidConfiguration | WriterLocked | Unavailable | Corrupt | ReplayDrift | Unready
    | SecretReferenceUnknown

  // --- JSON values -------------------------------------------------------------------------

  /** A JavaScript value; the entry order of an object is not observable here. */
  datatype Value =
    | Null | Undefined | Bool(b: bool) | Num(n: int) | Str(s: string)
    | Arr(items: seq<Value>) | Obj(fields: map<string, Value>)

  /** What is left of a value once it has been canonicalized, printed as JSON and read back:
      undefined properties disappear and undefined array items become null. */
  function JsonForm(v: Value): Value
    decreases v
  {
    match v
    case Undefined => Null
    case Arr(items) => Arr(seq(|items|, i requires 0 <= i < |items| => JsonForm(items[i])))
    case Obj(m) => Obj(map k | k in m && m[k] != Undefined :: JsonForm(m[k]))
    case _ => v
  }

  function JsonArguments(arguments: seq<Value>): (r: seq<Value>)
  {
    seq(|arguments|, i requires 0 <= i < |arguments| => JsonForm(arguments[i]))
  }

  lemma {:induction false} JsonFormIdempotent(v: Value)
    ensures JsonForm(JsonForm(v)) == JsonForm(v)
    decreases v
  {
    match v
    case Arr(items) =>
      forall i | 0 <= i < |items| { JsonFormIdempotent(items[i]); }
    case Obj(m) =>
      forall k | k in m { JsonFormIdempotent(m[k]); }
      assert JsonForm(JsonForm(v)).fields == JsonForm(v).fields;
    case _ =>
  }

  lemma JsonArgumentsIdempotent(arguments: seq<Value>)
    ensures JsonArguments(JsonArguments(arguments)) == JsonArguments(arguments)
  {
    forall i | 0 <= i < |arguments| { JsonFormIdempotent(arguments[i]); }
  }

  // --- Cryptography as parameters ----------------------------------------------------------

  predicate IsHex64(s: string)
  {
    |s| == 64 && forall i | 0 <= i < |s| :: '0' <= s[i] <= '9' || 'a' <= s[i] <= 'f'
  }

  type Hex64 = s: string | IsHex64(s) witness seq(64, _ => '0')

  /** SHA-256 of canonical JSON and HMAC-SHA-256 of `intentId:leaseIndex` under a secret key. */
  datatype Crypto = Crypto(sha256: Value -> Hex64, hmac: (string, string, nat) -> string)
  {
    function Digest(v: Value): string
    {
      "sha256:" + sha256(JsonForm(v))
    }

    function LeaseToken(key: string, intentId: string, index: nat): string
    {
      "wlt_" + hmac(key, intentId, index)
    }
  }

  predicate IsHash(s: string)
  {
    |s| == 71 && s[..7] == "sha256:" && IsHex64(s[7..])
  }

  lemma DigestIsHash(crypto: Crypto, v: Value)
    ensures IsHash(crypto.Digest(v))
  {
    assert crypto.Digest(v)[7..] == crypto.sha256(JsonForm(v));
  }

  // --- Commands as programs over generated values --------------------------------------------

  datatype Answer = AnId(id: string) | ATime(time: int) | ALease(token: string)

  /** What a command may throw: the service's own error, a domain error, or anything else. */
  datatype Thrown =
    | ServiceError(code: string, message: string, details: Value)
    | DomainError(code: string, message: string)
    | OtherError

  /** The next request of a running command. Both endings carry the state the command left behind:
      a rejected command may have changed it. */
  datatype Request<S> =
    | AwaitId | AwaitTime | AwaitLease
    | Return(state: S, result: Value)
    | Throw(state: S, error: Thrown)

  /** A deterministic command: its next request as a function of the answers so far, and a bound
      on how many answers it asks for. A command that asks past its bound counts as failed. */
  datatype Command<!S> = Command(next: seq<Answer> -> Request<S>, limit: nat)

  datatype Failure = Failure(code: string, message: string, details: Value)

  datatype Reply = Succeeded(result: Value) | Rejected(error: Failure)

  function Normalize(apiCodes: set<string>, error: Thrown): Option<Failure>
  {
    match error
    case ServiceError(code, message, details) => Some(Failure(code, message, details))
    case DomainError(code, message) =>
      Some(Failure(if code in apiCodes then code else "VALIDATION_FAILED", message, Undefined))
    case OtherError => None
  }

  // --- Running a command live and on a tape ----------------------------------------------------

  datatype Generated = Generated(ids: seq<string>, timestamps: seq<int>, leaseCount: nat)

  const NOTHING_GENERATED := Generated([], [], 0)

  /** The identifiers and clock readings the environment would supply next. A reading of None is
      an invalid date. */
  datatype Source = Source(ids: nat -> string, times: nat -> Option<int>)

  /** The known lease tokens, by digest. */
  type Known = map<string, string>

  /** What stays fixed while one intent executes. */
  datatype Context = Context(crypto: Crypto, apiCodes: set<string>, intentId: string, key: string)
  {
    function Token(index: nat): string
    {
      crypto.LeaseToken(key, intentId, index)
    }

    function Learn(known: Known, index: nat): Known
    {
      known[crypto.Digest(Str(Token(index))) := Token(index)]
    }
  }

  datatype Execution<S> =
    | Finished(state: S, reply: Reply, generated: Generated, known: Known)
    | Failed(code: Code)

  /** How a command's ending is reported: an unknown exception is not an outcome. */
  function Ending<S>(ctx: Context, ending: Request<S>, generated: Generated, known: Known): Execution<S>
    requires ending.Return? || ending.Throw?
  {
    match ending
    case Return(state, result) => Finished(state, Succeeded(result), generated, known)
    case Throw(state, error) =>
      match Normalize(ctx.apiCodes, error)
      case Some(failure) => Finished(state, Rejected(failure), generated, known)
      case None => Failed(Unavailable)
  }

  /** Live execution from history `h`, having recorded `gen`. */
  function Live<S>(ctx: Context, cmd: Command<S>, source: Source, h: seq<Answer>, gen: Generated, known: Known)
    : Execution<S>
    decreases cmd.limit - |h|
  {
    var request := cmd.next(h);
    if request.Return? || request.Throw? then Ending(ctx, request, gen, known)
    else if |h| >= cmd.limit then Failed(Unavailable)
    else match request
      case AwaitId =>
        var id := source.ids(|gen.ids|);
        if !(1 <= |id| <= 512) || |gen.ids| >= MAX_GENERATED_VALUES then Failed(InvalidConfiguration)
        else Live(ctx, cmd, source, h + [AnId(id)], gen.(ids := gen.ids + [id]), known)
      case AwaitTime =>
        var time := source.times(|gen.timestamps|);
        if time.None? || |gen.timestamps| >= MAX_GENERATED_VALUES then Failed(InvalidConfiguration)
        else Live(ctx, cmd, source, h + [ATime(time.value)],
                  gen.(timestamps := gen.timestamps + [time.value]), known)
      case AwaitLease =>
        Live(ctx, cmd, source, h + [ALease(ctx.Token(gen.leaseCount))],
             gen.(leaseCount := gen.leaseCount + 1), ctx.Learn(known, gen.leaseCount))
  }

  /** Replay on `tape` from history `h`, having consumed as much of the tape as `used` counts. */
  function Replay<S>(ctx: Context, cmd: Command<S>, tape: Generated, h: seq<Answer>, used: Used, known: Known)
    : Execution<S>
    decreases cmd.limit - |h|
  {
    var request := cmd.next(h);
    if request.Return? || request.Throw? then
      if request.Throw? && Normalize(ctx.apiCodes, request.error).None? then Failed(Unavailable)
      else if used != FullyUsed(tape) then Failed(ReplayDrift)
      else Ending(ctx, request, tape, known)
    else if |h| >= cmd.limit then Failed(Unavailable)
    else match request
      case AwaitId =>
        if used.ids >= |tape.ids| then Failed(ReplayDrift)
        else Replay(ctx, cmd, tape, h + [AnId(tape.ids[used.ids])], used.(ids := used.ids + 1), known)
      case AwaitTime =>
        if used.timestamps >= |tape.timestamps| then Failed(ReplayDrift)
        else Replay(ctx, cmd, tape, h + [ATime(tape.timestamps[used.timestamps])],
                    used.(timestamps := used.timestamps + 1), known)
      case AwaitLease =>
        if used.leases >= tape.leaseCount then Failed(ReplayDrift)
        else Replay(ctx, cmd, tape, h + [ALease(ctx.Token(used.leases))],
                    used.(leases := used.leases + 1), ctx.Learn(known, used.leases))
  }

  /** How many values of each kind a replay has consumed. */
  datatype Used = Used(ids: nat, timestamps: nat, leases: nat)

  const NOTHING_USED := Used(0, 0, 0)

  function FullyUsed(tape: Generated): Used
  {
    Used(|tape.ids|, |tape.timestamps|, tape.leaseCount)
  }

  ghost predicate Within(used: Used, tape: Generated)
  {
    used.ids <= |tape.ids| && used.timestamps <= |tape.timestamps| && used.leases <= tape.leaseCount
  }

  ghost predicate RecordedBefore(a: Generated, b: Generated)
  {
    a.ids <= b.ids && a.timestamps <= b.timestamps && a.leaseCount <= b.leaseCount
  }

  /** The tape theorem, from any point of an execution: what runs live can be replayed on what it
      recorded, with the same state, the same reply, the same known tokens and no drift. */
  lemma {:induction false} LiveThenReplay<S>(ctx: Context, cmd: Command<S>, source: Source, h: seq<Answer>,
                                             gen: Generated, known: Known)
    requires Live(ctx, cmd, source, h, gen, known).Finished?
    ensures var e := Live(ctx, cmd, source, h, gen, known);
            && RecordedBefore(gen, e.generated)
            && Replay(ctx, cmd, e.generated, h, FullyUsed(gen), known) == e
    decreases cmd.limit - |h|
  {
    var request := cmd.next(h);
    match request
    case Return(_, _) =>
    case Throw(_, _) =>
    case AwaitId =>
      var id := source.ids(|gen.ids|);
      LiveThenReplay(ctx, cmd, source, h + [AnId(id)], gen.(ids := gen.ids + [id]), known);
      var e := Live(ctx, cmd, source, h, gen, known);
      assert e.generated.ids[|gen.ids|] == (gen.ids + [id])[|gen.ids|] == id;
    case AwaitTime =>
      var time := source.times(|gen.timestamps|).value;
      LiveThenReplay(ctx, cmd, source, h + [ATime(time)],
                     gen.(timestamps := gen.timestamps + [time]), known);
      var e := Live(ctx, cmd, source, h, gen, known);
      assert e.generated.timestamps[|gen.timestamps|] == (gen.timestamps + [time])[|gen.timestamps|] == time;
    case AwaitLease =>
      LiveThenReplay(ctx, cmd, source, h + [ALease(ctx.Token(gen.leaseCount))],
                     gen.(leaseCount := gen.leaseCount + 1), ctx.Learn(known, gen.leaseCount));
  }

  /** The tape theorem for a whole execution. */
  lemma TapeTheorem<S>(ctx: Context, cmd: Command<S>, source: Source, known: Known)
    requires Live(ctx, cmd, source, [], NOTHING_GENERATED, known).Finished?
    ensures var e := Live(ctx, cmd, source, [], NOTHING_GENERATED, known);
            Replay(ctx, cmd, e.generated, [], NOTHING_USED, known) == e
  {
    LiveThenReplay(ctx, cmd, source, [], NOTHING_GENERATED, known);
  }

  ghost predicate Comparable<T>(a: seq<T>, b: seq<T>)
  {
    a <= b || b <= a
  }

  /** Two tapes of which neither contradicts the other, as a tape and one cut short or extended do. */
  ghost predicate SameUpToLength(a: Generated, b: Generated)
  {
    Comparable(a.ids, b.ids) && Comparable(a.timestamps, b.timestamps)
  }

  lemma {:induction false} ReplayUsesExactlyItsTapeFrom<S>(
    ctx: Context, cmd: Command<S>, a: Generated, b: Generated, h: seq<Answer>, used: Used, known: Known)
    requires SameUpToLength(a, b) && Within(used, a) && Within(used, b)
    requires Replay(ctx, cmd, a, h, used, known).Finished?
    requires Replay(ctx, cmd, b, h, used, known).Finished?
    ensures a == b
    decreases cmd.limit - |h|
  {
    match cmd.next(h)
    case Return(_, _) =>
    case Throw(_, _) =>
    case AwaitId =>
      assert a.ids[used.ids] == b.ids[used.ids];
      ReplayUsesExactlyItsTapeFrom(ctx, cmd, a, b, h + [AnId(a.ids[used.ids])], used.(ids := used.ids + 1), known);
    case AwaitTime =>
      assert a.timestamps[used.timestamps] == b.timestamps[used.timestamps];
      ReplayUsesExactlyItsTapeFrom(ctx, cmd, a, b, h + [ATime(a.timestamps[used.timestamps])],
                                   used.(timestamps := used.timestamps + 1), known);
    case AwaitLease =>
      ReplayUsesExactlyItsTapeFrom(ctx, cmd, a, b, h + [ALease(ctx.Token(used.leases))],
                                   used.(leases := used.leases + 1), ctx.Learn(known, used.leases));
  }

  /** A tape that has been shortened or lengthened never replays without drift. */
  lemma NoOtherTapeLength<S>(ctx: Context, cmd: Command<S>, a: Generated, b: Generated, known: Known)
    requires SameUpToLength(a, b) && a != b
    requires Replay(ctx, cmd, a, [], NOTHING_USED, known).Finished?
    ensures Replay(ctx, cmd, b, [], NOTHING_USED, known).Failed?
  {
    if Replay(ctx, cmd, b, [], NOTHING_USED, known).Finished? {
      ReplayUsesExactlyItsTapeFrom(ctx, cmd, a, b, [], NOTHING_USED, known);
    }
  }

  ghost predicate Recordable(tape: Generated)
  {
    && |tape.ids| <= MAX_GENERATED_VALUES && |tape.timestamps| <= MAX_GENERATED_VALUES
    && forall i | 0 <= i < |tape.ids| :: 1 <= |tape.ids[i]| <= 512
  }

  /** The environment that would supply exactly the values on a tape. */
  function Supplying(tape: Generated): Source
  {
    Source((n: nat) => if n < |tape.ids| then tape.ids[n] else "",
           (n: nat) => if n < |tape.timestamps| then Some(tape.timestamps[n]) else None)
  }

  function Consumed(tape: Generated, used: Used): Generated
    requires used.ids <= |tape.ids| && used.timestamps <= |tape.timestamps|
  {
    Generated(tape.ids[..used.ids], tape.timestamps[..used.timestamps], used.leases)
  }

  lemma {:induction false} ReplayIsLiveFrom<S>(
    ctx: Context, cmd: Command<S>, tape: Generated, h: seq<Answer>, used: Used, known: Known)
    requires Recordable(tape) && Within(used, tape)
    requires Replay(ctx, cmd, tape, h, used, known).Finished?
    ensures Live(ctx, cmd, Supplying(tape), h, Consumed(tape, used), known)
            == Replay(ctx, cmd, tape, h, used, known)
    decreases cmd.limit - |h|
  {
    match cmd.next(h)
    case Return(_, _) =>
      assert Consumed(tape, used) == tape;
    case Throw(_, _) =>
      assert Consumed(tape, used) == tape;
    case AwaitId =>
      var next := used.(ids := used.ids + 1);
      assert Consumed(tape, next) == Consumed(tape, used).(ids := tape.ids[..used.ids] + [tape.ids[used.ids]]);
      ReplayIsLiveFrom(ctx, cmd, tape, h + [AnId(tape.ids[used.ids])], next, known);
    case AwaitTime =>
      var next := used.(timestamps := used.timestamps + 1);
      var time := tape.timestamps[used.timestamps];
      assert Consumed(tape, next)
          == Consumed(tape, used).(timestamps := tape.timestamps[..used.timestamps] + [time]);
      ReplayIsLiveFrom(ctx, cmd, tape, h + [ATime(time)], next, known);
    case AwaitLease =>
      var next := used.(leases := used.leases + 1);
      ReplayIsLiveFrom(ctx, cmd, tape, h + [ALease(ctx.Token(used.leases))], next, ctx.Learn(known, used.leases));
  }

  /** The converse of the tape theorem: whatever replays without drift is what some live execution
      did and recorded, so replay accepts the recordings of the command and nothing else. */
  lemma ReplayAcceptsOnlyRecordings<S>(ctx: Context, cmd: Command<S>, tape: Generated, known: Known)
    requires Recordable(tape)
    ensures Replay(ctx, cmd, tape, [], NOTHING_USED, known).Finished?
       <==> exists source :: var e := Live(ctx, cmd, source, [], NOTHING_GENERATED, known);
                             e.Finished? && e.generated == tape
  {
    if Replay(ctx, cmd, tape, [], NOTHING_USED, known).Finished? {
      ReplayIsLiveFrom(ctx, cmd, tape, [], NOTHING_USED, known);
      assert Consumed(tape, NOTHING_USED) == NOTHING_GENERATED;
      ReplayKeepsItsTape(ctx, cmd, tape, [], NOTHING_USED, known);
      assert var e := Live(ctx, cmd, Supplying(tape), [], NOTHING_GENERATED, known);
             e.Finished? && e.generated == tape;
    }
    forall source | var e := Live(ctx, cmd, source, [], NOTHING_GENERATED, known);
                    e.Finished? && e.generated == tape
      ensures Replay(ctx, cmd, tape, [], NOTHING_USED, known).Finished?
    {
      TapeTheorem(ctx, cmd, source, known);
    }
  }

  lemma {:induction false} ReplayKeepsItsTape<S>(
    ctx: Context, cmd: Command<S>, tape: Generated, h: seq<Answer>, used: Used, known: Known)
    requires Replay(ctx, cmd, tape, h, used, known).Finished?
    ensures Replay(ctx, cmd, tape, h, used, known).generated == tape
    decreases cmd.limit - |h|
  {
    match cmd.next(h)
    case Return(_, _) =>
    case Throw(_, _) =>
    case AwaitId =>
      ReplayKeepsItsTape(ctx, cmd, tape, h + [AnId(tape.ids[used.ids])], used.(ids := used.ids + 1), known);
    case AwaitTime =>
      ReplayKeepsItsTape(ctx, cmd, tape, h + [ATime(tape.timestamps[used.timestamps])],
                         used.(timestamps := used.timestamps + 1), known);
    case AwaitLease =>
      ReplayKeepsItsTape(ctx, cmd, tape, h + [ALease(ctx.Token(used.leases))],
                         used.(leases := used.leases + 1), ctx.Learn(known, used.leases));
  }

  /** What a live execution records fits the journal's own limits when it is read back. */
  lemma {:induction false} LiveRecordsLegalValues<S>(ctx: Context, cmd: Command<S>, source: Source, h: seq<Answer>,
                                                     gen: Generated, known: Known)
    requires Recordable(gen)
    requires Live(ctx, cmd, source, h, gen, known).Finished?
    ensures Recordable(Live(ctx, cmd, source, h, gen, known).generated)
    decreases cmd.limit - |h|
  {
    match cmd.next(h)
    case Return(_, _) =>
    case Throw(_, _) =>
    case AwaitId =>
      var id := source.ids(|gen.ids|);
      LiveRecordsLegalValues(ctx, cmd, source, h + [AnId(id)], gen.(ids := gen.ids + [id]), known);
    case AwaitTime =>
      var time := source.times(|gen.timestamps|).value;
      LiveRecordsLegalValues(ctx, cmd, source, h + [ATime(time)],
                             gen.(timestamps := gen.timestamps + [time]), known);
    case AwaitLease =>
      LiveRecordsLegalValues(ctx, cmd, source, h + [ALease(ctx.Token(gen.leaseCount))],
                             gen.(leaseCount := gen.leaseCount + 1), ctx.Learn(known, gen.leaseCount));
  }

  /** The ending of a finished replay is an ending of the command itself. */
  lemma {:induction false} ReplayEndsTheCommand<S>(
    ctx: Context, cmd: Command<S>, tape: Generated, h: seq<Answer>, used: Used, known: Known)
    returns (ending: Request<S>, last: seq<Answer>)
    requires Replay(ctx, cmd, tape, h, used, known).Finished?
    ensures ending == cmd.next(last)
    ensures ending.Return? || ending.Throw?
    ensures var e := Replay(ctx, cmd, tape, h, used, known);
            Ending(ctx, ending, tape, e.known) == e
    decreases cmd.limit - |h|
  {
    match cmd.next(h)
    case Return(_, _) => ending, last := cmd.next(h), h;
    case Throw(_, _) => ending, last := cmd.next(h), h;
    case AwaitId =>
      ending, last := ReplayEndsTheCommand(ctx, cmd, tape, h + [AnId(tape.ids[used.ids])], used.(ids := used.ids + 1), known);
    case AwaitTime =>
      ending, last := ReplayEndsTheCommand(ctx, cmd, tape, h + [ATime(tape.timestamps[used.timestamps])],
                                           used.(timestamps := used.timestamps + 1), known);
    case AwaitLease =>
      ending, last := ReplayEndsTheCommand(ctx, cmd, tape, h + [ALease(ctx.Token(used.leases))],
                                           used.(leases := used.leases + 1), ctx.Learn(known, used.leases));
  }

  // --- Known tokens ------------------------------------------------------------------------------

  /** No two of these tokens share a digest. */
  ghost predicate Separated(crypto: Crypto, tokens: set<string>)
  {
    forall a, b | a in tokens && b in tokens && crypto.Digest(Str(a)) == crypto.Digest(Str(b)) :: a == b
  }

  ghost predicate Extends<K, V>(before: map<K, V>, after: map<K, V>)
  {
    forall k | k in before :: k in after && after[k] == before[k]
  }

  ghost predicate KeyedByDigest(crypto: Crypto, known: Known)
  {
    forall d | d in known :: d == crypto.Digest(Str(known[d]))
  }

  /** A learned token is filed under its digest, and displaces none that it is separated from. */
  lemma LearningForgetsNothing(ctx: Context, known: Known, index: nat, tokens: set<string>)
    requires KeyedByDigest(ctx.crypto, known)
    ensures KeyedByDigest(ctx.crypto, ctx.Learn(known, index))
    ensures Separated(ctx.crypto, tokens) && known.Values <= tokens && ctx.Token(index) in tokens ==>
      Extends(known, ctx.Learn(known, index)) && ctx.Learn(known, index).Values <= tokens
  {
    if Separated(ctx.crypto, tokens) && known.Values <= tokens && ctx.Token(index) in tokens {
      forall d | d in known ensures ctx.Learn(known, index)[d] == known[d] {
        assert known[d] in known.Values;
      }
    }
  }

  lemma ExtendsItself<K, V>(a: map<K, V>)
    ensures Extends(a, a)
  {
  }

  lemma ExtendsTransitive<K, V>(a: map<K, V>, b: map<K, V>, c: map<K, V>)
    requires Extends(a, b) && Extends(b, c)
    ensures Extends(a, c)
  {
  }

  /** Replay files every token under its digest and, as long as the tokens known before and those issued
      on the tape are separated, forgets none. */
  lemma {:induction false} ReplayOnlyLearns<S>(
    ctx: Context, cmd: Command<S>, tape: Generated, h: seq<Answer>, used: Used, known: Known, tokens: set<string>)
    requires KeyedByDigest(ctx.crypto, known)
    requires Replay(ctx, cmd, tape, h, used, known).Finished?
    ensures var after := Replay(ctx, cmd, tape, h, used, known).known;
      KeyedByDigest(ctx.crypto, after)
      && (Separated(ctx.crypto, tokens) && known.Values <= tokens && Issues(ctx, tape, tokens) ==>
            Extends(known, after) && after.Values <= tokens)
    decreases cmd.limit - |h|
  {
    hide Separated, KeyedByDigest, Extends;
    ExtendsItself(known);
    match cmd.next(h)
    case Return(_, _) =>
    case Throw(_, _) =>
    case AwaitId =>
      ReplayOnlyLearns(ctx, cmd, tape, h + [AnId(tape.ids[used.ids])], used.(ids := used.ids + 1), known, tokens);
    case AwaitTime =>
      ReplayOnlyLearns(ctx, cmd, tape, h + [ATime(tape.timestamps[used.timestamps])],
                       used.(timestamps := used.timestamps + 1), known, tokens);
    case AwaitLease =>
      var learned := ctx.Learn(known, used.leases);
      LearningForgetsNothing(ctx, known, used.leases, tokens);
      var after := Replay(ctx, cmd, tape, h + [ALease(ctx.Token(used.leases))], used.(leases := used.leases + 1), learned);
      ReplayOnlyLearns(ctx, cmd, tape, h + [ALease(ctx.Token(used.leases))],
                       used.(leases := used.leases + 1), learned, tokens);
      if Extends(known, learned) && Extends(learned, after.known) { ExtendsTransitive(known, learned, after.known); }
  }

  /** The tokens include all that a tape issues. */
  ghost predicate Issues(ctx: Context, tape: Generated, tokens: set<string>)
  {
    forall i | 0 <= i < tape.leaseCount :: ctx.Token(i) in tokens
  }

  // --- Sealing lease secrets ---------------------------------------------------------------------

  function SecretReference(tokenHash: string): Value
  {
    Obj(map["$secretRef" := Obj(map["kind" := Str("lease-token-hash"), "tokenHash" := Str(tokenHash)])])
  }

  lemma ReferenceIsJson(tokenHash: string)
    ensures JsonForm(SecretReference(tokenHash)) == SecretReference(tokenHash)
  {
    var inner := Obj(map["kind" := Str("lease-token-hash"), "tokenHash" := Str(tokenHash)]);
    assert JsonForm(inner).fields == inner.fields;
    assert JsonForm(SecretReference(tokenHash)).fields == SecretReference(tokenHash).fields;
  }

  /** The token hash a value refers to when it is a secret reference. */
  function ReferencedHash(v: Value): Option<string>
  {
    if !v.Obj? || "$secretRef" !in v.fields || !v.fields["$secretRef"].Obj? then None
    else
      var fields := v.fields["$secretRef"].fields;
      if "kind" in fields && fields["kind"] == Str("lease-token-hash")
         && "tokenHash" in fields && fields["tokenHash"].Str?
      then Some(fields["tokenHash"].s) else None
  }

  /** The journaled form of a command's arguments: a lease token is replaced by its digest. */
  function Seal(crypto: Crypto, name: string, arguments: seq<Value>, known: Known): Result<seq<Value>, Code>
  {
    var result := JsonArguments(arguments);
    if name !in LEASE_TOKEN_MUTATIONS then Ok(result)
    else if |result| <= LEASE_TOKEN_ARGUMENT_INDEX || !result[LEASE_TOKEN_ARGUMENT_INDEX].Obj? then Err(Corrupt)
    else
      var input := result[LEASE_TOKEN_ARGUMENT_INDEX].fields;
      if "leaseToken" !in input || !input["leaseToken"].Str? then Err(SecretReferenceUnknown)
      else
        var token := input["leaseToken"].s;
        var tokenHash := crypto.Digest(Str(token));
        if tokenHash !in known || known[tokenHash] != token then Err(SecretReferenceUnknown)
        else Ok(result[LEASE_TOKEN_ARGUMENT_INDEX := Obj(input["leaseToken" := SecretReference(tokenHash)])])
  }

  function Unseal(name: string, arguments: seq<Value>, known: Known): Result<seq<Value>, Code>
  {
    var result := JsonArguments(arguments);
    if name !in LEASE_TOKEN_MUTATIONS then Ok(result)
    else if |result| <= LEASE_TOKEN_ARGUMENT_INDEX || !result[LEASE_TOKEN_ARGUMENT_INDEX].Obj? then Err(Corrupt)
    else
      var input := result[LEASE_TOKEN_ARGUMENT_INDEX].fields;
      if "leaseToken" !in input || ReferencedHash(input["leaseToken"]).None? then Err(Corrupt)
      else
        var tokenHash := ReferencedHash(input["leaseToken"]).value;
        if !IsHash(tokenHash) then Err(Corrupt)
        else if tokenHash !in known then Err(SecretReferenceUnknown)
        else Ok(result[LEASE_TOKEN_ARGUMENT_INDEX := Obj(input["leaseToken" := Str(known[tokenHash])])])
  }

  /** What is sealed under some known tokens unseals under the same tokens, to the JSON form of the
      original arguments. */
  lemma UnsealSeal(crypto: Crypto, name: string, arguments: seq<Value>, known: Known)
    requires Seal(crypto, name, arguments, known).Ok?
    ensures Unseal(name, Seal(crypto, name, arguments, known).value, known) == Ok(JsonArguments(arguments))
    ensures JsonArguments(Seal(crypto, name, arguments, known).value) == Seal(crypto, name, arguments, known).value
  {
    var json := JsonArguments(arguments);
    JsonArgumentsIdempotent(arguments);
    if name in LEASE_TOKEN_MUTATIONS {
      var sealed := Seal(crypto, name, arguments, known).value;
      var input := json[3].fields;
      var token := input["leaseToken"].s;
      var tokenHash := crypto.Digest(Str(token));
      DigestIsHash(crypto, Str(token));
      JsonFormIdempotent(arguments[3]);
      ReferenceIsJson(tokenHash);
      assert JsonForm(sealed[3]).fields == sealed[3].fields;
      assert JsonArguments(sealed) == sealed;
      assert ReferencedHash(sealed[3].fields["leaseToken"]) == Some(tokenHash);
      var unsealed := Unseal(name, sealed, known).value;
      assert unsealed[3].fields == input;
      assert unsealed == json;
    }
  }

  /** A sealed command does not hold its lease token: in its place stands a reference to the token's
      digest, and everything else is as it was submitted, in JSON form. */
  lemma SealHidesTheToken(crypto: Crypto, name: string, arguments: seq<Value>, known: Known)
    requires name in LEASE_TOKEN_MUTATIONS
    requires Seal(crypto, name, arguments, known).Ok?
    ensures var sealed, json := Seal(crypto, name, arguments, known).value, JsonArguments(arguments);
      && |sealed| == |json| > 3 && sealed[3].Obj? && json[3].Obj?
      && (forall i | 0 <= i < |sealed| && i != 3 :: sealed[i] == json[i])
      && "leaseToken" in json[3].fields && json[3].fields["leaseToken"].Str?
      && sealed[3].fields.Keys == json[3].fields.Keys
      && (forall k | k in sealed[3].fields && k != "leaseToken" :: sealed[3].fields[k] == json[3].fields[k])
      && var token := json[3].fields["leaseToken"].s;
         sealed[3].fields["leaseToken"] == SecretReference(crypto.Digest(Str(token)))
         && ReferencedHash(sealed[3].fields["leaseToken"]) == Some(crypto.Digest(Str(token)))
  {
  }
}
