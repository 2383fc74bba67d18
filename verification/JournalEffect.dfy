/**
 What a journaled command does to the service: it runs the service's own operation exactly once on the
 service's own state, and remembers a success under its key. In every reachable state the service is what
 running every journaled call once, in order, makes of an empty service.
 */
module JournalEffect {
  import opened Outcomes
  import opened JournalCore
  import opened JournalProtocol

  const CONFLICT := Failure("IDEMPOTENCY_CONFLICT", "The idempotency key was already used for a different request.",
                            Undefined)

  // --- Behind the idempotency records ---------------------------------------------------------------

  /** The service after an operation has ended: its state is the operation's, even if it was rejected, and a
      success is remembered under the key. */
  function After<D>(s: Inner<D>, key: string, requestHash: string, state: D, reply: Reply): Inner<D>
  {
    match reply
    case Succeeded(result) => Inner(state, s.cache[key := Cached(requestHash, result)])
    case Rejected(_) => Inner(state, s.cache)
  }

  /** How the end of an operation looks from outside the records. */
  function Ended<D>(s: Inner<D>, key: string, requestHash: string, done: Execution<D>): Execution<Inner<D>>
  {
    match done
    case Failed(code) => Failed(code)
    case Finished(state, reply, generated, known) =>
      Finished(After(s, key, requestHash, state, reply), reply, generated, known)
  }

  /** What a key already used answers. */
  function Remembered(previous: Cached, requestHash: string): Reply
  {
    if previous.requestHash == requestHash then Succeeded(previous.response) else Rejected(CONFLICT)
  }

  lemma {:induction false} LiveUnderNewKey<D>(ctx: Context, s: Inner<D>, key: string, requestHash: string, op: Command<D>,
                                              source: Source, h: seq<Answer>, gen: Generated, known: Known)
    requires key !in s.cache
    ensures Live(ctx, Idempotent(s, key, requestHash, op), source, h, gen, known)
         == Ended(s, key, requestHash, Live(ctx, op, source, h, gen, known))
    decreases op.limit - |h|
  {
    if |h| < op.limit {
      match op.next(h)
      case AwaitId =>
        var id := source.ids(|gen.ids|);
        LiveUnderNewKey(ctx, s, key, requestHash, op, source, h + [AnId(id)], gen.(ids := gen.ids + [id]), known);
      case AwaitTime =>
        var time := source.times(|gen.timestamps|);
        if time.Some? {
          LiveUnderNewKey(ctx, s, key, requestHash, op, source, h + [ATime(time.value)],
                          gen.(timestamps := gen.timestamps + [time.value]), known);
        }
      case AwaitLease =>
        LiveUnderNewKey(ctx, s, key, requestHash, op, source, h + [ALease(ctx.Token(gen.leaseCount))],
                        gen.(leaseCount := gen.leaseCount + 1), ctx.Learn(known, gen.leaseCount));
      case _ =>
    }
  }

  lemma {:induction false} ReplayUnderNewKey<D>(ctx: Context, s: Inner<D>, key: string, requestHash: string, op: Command<D>,
                                                tape: Generated, h: seq<Answer>, used: Used, known: Known)
    requires key !in s.cache
    ensures Replay(ctx, Idempotent(s, key, requestHash, op), tape, h, used, known)
         == Ended(s, key, requestHash, Replay(ctx, op, tape, h, used, known))
    decreases op.limit - |h|
  {
    if |h| < op.limit {
      match op.next(h)
      case AwaitId =>
        if used.ids < |tape.ids| {
          ReplayUnderNewKey(ctx, s, key, requestHash, op, tape, h + [AnId(tape.ids[used.ids])],
                            used.(ids := used.ids + 1), known);
        }
      case AwaitTime =>
        if used.timestamps < |tape.timestamps| {
          ReplayUnderNewKey(ctx, s, key, requestHash, op, tape, h + [ATime(tape.timestamps[used.timestamps])],
                            used.(timestamps := used.timestamps + 1), known);
        }
      case AwaitLease =>
        ReplayUnderNewKey(ctx, s, key, requestHash, op, tape, h + [ALease(ctx.Token(used.leases))],
                          used.(leases := used.leases + 1), ctx.Learn(known, used.leases));
      case _ =>
    }
  }

  lemma LiveUnderUsedKey<D>(ctx: Context, s: Inner<D>, key: string, requestHash: string, op: Command<D>, source: Source,
                            known: Known)
    requires key in s.cache
    ensures Live(ctx, Idempotent(s, key, requestHash, op), source, [], NOTHING_GENERATED, known)
         == Finished(s, Remembered(s.cache[key], requestHash), NOTHING_GENERATED, known)
  {
  }

  lemma ReplayUnderUsedKey<D>(ctx: Context, s: Inner<D>, key: string, requestHash: string, op: Command<D>, tape: Generated,
                              known: Known)
    requires key in s.cache
    ensures Replay(ctx, Idempotent(s, key, requestHash, op), tape, [], NOTHING_USED, known)
         == if tape == NOTHING_GENERATED then Finished(s, Remembered(s.cache[key], requestHash), tape, known)
            else Failed(ReplayDrift)
  {
    assert FullyUsed(tape) == NOTHING_USED <==> tape == NOTHING_GENERATED;
  }

  // --- One mutation ------------------------------------------------------------------------------------

  /** The row a mutation leaves: it names the command, the principal and the key id, carries the sealed
      arguments, and comes after every row before it. */
  ghost predicate RowOf(before: seq<Entry>, after: seq<Entry>, call: Call, sealed: seq<Value>, intentId: string,
                        activeKeyId: string, gap: nat)
  {
    && |after| == |before| + 1 && after[..|before|] == before
    && var i := after[|before|].intent;
    && i.commandName == call.name && i.principal == call.principal && i.arguments == sealed
    && i.intentId == intentId && i.leaseKeyId == activeKeyId && i.journalVersion == 1
    && i.sequence == (if before == [] then 0 else before[|before| - 1].intent.sequence) + 1 + gap
  }

  /** What the outcome of a row says about the reply and what was generated for it. */
  ghost predicate Reports(crypto: Crypto, outcome: Option<Outcome>, reply: Reply, generated: Generated)
  {
    && outcome.Some? && outcome.value.succeeded == reply.Succeeded? && outcome.value.generated == generated
    && outcome.value.errorCode == (if reply.Rejected? then Some(reply.error.code) else None)
    && outcome.value.resultHash == crypto.Digest(OutcomeEnvelope(reply, generated))
  }

  /** A mutation whose appends are stored, on a ready machine. Under a key already used it answers from the
      record, or refuses another request, and leaves the machine alone. Under a new key it runs the
      service's operation on the service's state: the answer is the operation's, the machine's state and
      tokens are the operation's, and exactly a success is remembered. An operation that ends in neither an
      answer nor a known error stops the process and leaves the row without an outcome. */
  lemma MutationServes<D(!new)>(w: World<D>, sys: System<D>, call: Call, intentId: string, gap: nat, source: Source)
    requires sys.process.Some? && sys.process.value.Ready? && sys.process.value.activeKeyId in w.keys
    requires call.name in MUTATION_NAMES && IsUuid(intentId) && !IdTaken(sys.rows, intentId)
    requires Seal(w.crypto, call.name, call.arguments, sys.process.value.machine.known).Ok?
    ensures var (after, answer) := MutateStep(w, sys, call, intentId, gap, source, Stored, Stored);
      var p := sys.process.value;
      var m, key, requestHash := p.machine, w.cacheKey(call), w.crypto.Digest(w.request(call));
      var live := Live(Context(w.crypto, w.apiCodes, intentId, w.keys[p.activeKeyId]), w.operation(m.inner.domain, call),
                       source, [], NOTHING_GENERATED, m.known);
      && RowOf(sys.rows, after.rows, call, Seal(w.crypto, call.name, call.arguments, m.known).value, intentId,
               p.activeKeyId, gap)
      && var outcome := after.rows[|sys.rows|].outcome;
      if key in m.inner.cache then
        var reply := if m.inner.cache[key].requestHash == requestHash then Succeeded(m.inner.cache[key].response)
                     else Rejected(CONFLICT);
        && answer == Ok(reply) && after.process == sys.process && Reports(w.crypto, outcome, reply, NOTHING_GENERATED)
        && after.answered == sys.answered + [Answered(|sys.rows|, call, reply)]
      else if live.Failed? then
        && answer == Err(Unavailable) && after.process == Some(Stopped(p.activeKeyId)) && outcome == None
        && after.answered == sys.answered
      else
        && answer == Ok(live.reply) && Reports(w.crypto, outcome, live.reply, live.generated)
        && after.answered == sys.answered + [Answered(|sys.rows|, call, live.reply)]
        && after.process.Some? && after.process.value.Ready? && after.process.value.activeKeyId == p.activeKeyId
        && var next := after.process.value.machine;
        && next.inner.domain == live.state && next.known == live.known
        && next.inner.cache == (if live.reply.Succeeded? then m.inner.cache[key := Cached(requestHash, live.reply.result)]
                                else m.inner.cache)
  {
    hide Live, Seal, IsUuid, IdTaken, Idempotent, OutcomeEnvelope, IntentEnvelope, Remembered, LastSequence;
    var p := sys.process.value;
    var m, key, requestHash := p.machine, w.cacheKey(call), w.RequestHash(call);
    var sealed := Seal(w.crypto, call.name, call.arguments, m.known).value;
    var ctx := Context(w.crypto, w.apiCodes, intentId, w.keys[p.activeKeyId]);
    var op := w.operation(m.inner.domain, call);
    assert w.ContextOf(NewIntent(w, sys.rows, call, sealed, intentId, gap, p.activeKeyId)) == ctx;
    if key in m.inner.cache {
      LiveUnderUsedKey(ctx, m.inner, key, requestHash, op, source, m.known);
    } else {
      LiveUnderNewKey(ctx, m.inner, key, requestHash, op, source, [], NOTHING_GENERATED, m.known);
    }
    NewIntentSays(w, sys.rows, call, sealed, intentId, gap, p.activeKeyId);
    RememberedSays(m.inner, key, requestHash);
    hide NewIntent;
  }

  lemma RememberedSays<D>(s: Inner<D>, key: string, requestHash: string)
    ensures key in s.cache ==>
      Remembered(s.cache[key], requestHash)
      == if s.cache[key].requestHash == requestHash then Succeeded(s.cache[key].response) else Rejected(CONFLICT)
  {
  }

  lemma NewIntentSays<D(!new)>(w: World<D>, rows: seq<Entry>, call: Call, sealed: seq<Value>, intentId: string, gap: nat,
                               activeKeyId: string)
    ensures var row := Entry(NewIntent(w, rows, call, sealed, intentId, gap, activeKeyId), None);
      && RowOf(rows, rows + [row], call, sealed, intentId, activeKeyId, gap)
      && forall outcome :: RowOf(rows, rows + [row.(outcome := outcome)], call, sealed, intentId, activeKeyId, gap)
  {
    hide IntentEnvelope;
  }

  // --- One row -------------------------------------------------------------------------------------------

  /** What a completed row says was served: under a key already used, nothing but the answer; under a new
      key, one run of the service's operation on the service's state, given exactly the values on the row. */
  ghost predicate Serves<D(!new)>(w: World<D>, m: Machine<D>, e: Entry, call: Call, next: Machine<D>, reply: Reply)
  {
    && e.outcome.Some? && e.intent.leaseKeyId in w.keys
    && var key, requestHash, tape := w.cacheKey(call), w.crypto.Digest(w.request(call)), e.outcome.value.generated;
    && Reports(w.crypto, e.outcome, reply, tape)
    && if key in m.inner.cache then
         && next == m && tape == NOTHING_GENERATED
         && reply == (if m.inner.cache[key].requestHash == requestHash then Succeeded(m.inner.cache[key].response)
                      else Rejected(CONFLICT))
       else
         && var done := Replay(Context(w.crypto, w.apiCodes, e.intent.intentId, w.keys[e.intent.leaseKeyId]),
                               w.operation(m.inner.domain, call), tape, [], NOTHING_USED, m.known);
         && done.Finished? && reply == done.reply && next.inner.domain == done.state && next.known == done.known
         && next.inner.cache == (if reply.Succeeded? then m.inner.cache[key := Cached(requestHash, reply.result)]
                                 else m.inner.cache)
  }

  /** Replaying a row serves its call. */
  lemma ReplayServes<D(!new)>(w: World<D>, m: Machine<D>, e: Entry, arguments: seq<Value>)
    requires e.outcome.Some? && ReplayRow(w, m, e).Ok?
    requires Unseal(e.intent.commandName, e.intent.arguments, m.known) == Ok(arguments)
    ensures var (next, reply) := ReplayRow(w, m, e).value;
      Serves(w, m, e, Call(e.intent.commandName, e.intent.principal, arguments), next, reply)
  {
    var call := CallOf(e.intent, arguments);
    var ctx, key, requestHash := w.ContextOf(e.intent), w.cacheKey(call), w.RequestHash(call);
    var op, tape := w.operation(m.inner.domain, call), e.outcome.value.generated;
    ReplayKeepsItsTape(ctx, w.InnerCommand(m.inner, call), tape, [], NOTHING_USED, m.known);
    if key in m.inner.cache {
      ReplayUnderUsedKey(ctx, m.inner, key, requestHash, op, tape, m.known);
    } else {
      ReplayUnderNewKey(ctx, m.inner, key, requestHash, op, tape, [], NOTHING_USED, m.known);
    }
    hide Replay, Unseal, Idempotent, OutcomeEnvelope;
  }

  /** A service that cannot tell a call from its JSON serves both alike. */
  lemma ServesJson<D(!new)>(w: World<D>, m: Machine<D>, e: Entry, a: Call, b: Call, next: Machine<D>, reply: Reply)
    requires w.RespectsJson() && a == b.Json() && Serves(w, m, e, a, next, reply)
    ensures Serves(w, m, e, b, next, reply)
  {
    assert w.RespectsJsonOf(m.inner.domain, b);
    hide Replay, Reports;
  }

  // --- Whole runs --------------------------------------------------------------------------------------------

  /** A history of the service: from the empty service, every row serves its call. */
  ghost predicate History<D(!new)>(w: World<D>, rows: seq<Entry>, calls: seq<Call>, ms: seq<Machine<D>>, replies: seq<Reply>)
  {
    && |rows| == |calls| == |replies| && |ms| == |rows| + 1
    && ms[0] == Machine(Inner(w.initial, map[]), map[])
    && forall i | 0 <= i < |rows| :: Serves(w, ms[i], rows[i], calls[i], ms[i + 1], replies[i])
  }

  lemma {:induction false} RebuiltIsHistory<D(!new)>(w: World<D>, rows: seq<Entry>, calls: seq<Call>)
    returns (ms: seq<Machine<D>>, replies: seq<Reply>)
    requires w.RespectsJson() && Rebuilt(w, rows).Some? && Carries(w, rows, calls)
    ensures History(w, rows, calls, ms, replies) && Rebuilt(w, rows) == Some(ms[|rows|])
    ensures forall i | 0 <= i < |rows| :: Rebuilt(w, rows[..i]) == Some(ms[i])
    ensures forall i | 0 <= i < |rows| :: RecordedAt(w, rows, i) == Some((JsonArguments(calls[i].arguments), replies[i]))
    decreases |rows|
  {
    hide ReplayRow, Unseal, Serves;
    if rows == [] {
      ms, replies := [Fresh(w)], [];
    } else {
      var k := |rows| - 1;
      var init := rows[..k];
      RebuiltPrefix(w, rows, k);
      PrefixCarries(w, rows, calls, k);
      ms, replies := RebuiltIsHistory(w, init, calls[..k]);
      var m, e := ms[k], rows[k];
      assert init[..k] == init;
      assert CarriesAt(w, rows, k, calls[k]);
      var (next, reply) := ReplayRow(w, m, e).value;
      ReplayServes(w, m, e, JsonArguments(calls[k].arguments));
      ServesJson(w, m, e, calls[k].Json(), calls[k], next, reply);
      forall i | 0 <= i < k
        ensures rows[..i] == init[..i]
        ensures RecordedAt(w, rows, i) == Some((JsonArguments(calls[i].arguments), replies[i]))
      {
        assert rows[..i] == init[..i];
        assert RecordedAt(w, init, i) == RecordedAt(w, rows, i);
      }
      ms, replies := ms + [next], replies + [reply];
    }
  }

  lemma PrefixCarries<D(!new)>(w: World<D>, rows: seq<Entry>, calls: seq<Call>, k: nat)
    requires k <= |rows| && Carries(w, rows, calls)
    ensures Carries(w, rows[..k], calls[..k])
  {
    hide Rebuilt, Unseal;
    forall i | 0 <= i < k ensures CarriesAt(w, rows[..k], i, calls[..k][i]) {
      assert CarriesAt(w, rows, i, calls[i]);
      assert rows[..k][..i] == rows[..i];
    }
  }

  /** Exactly once and in order: in every reachable ready state, after any crashes, lost appends and
      recoveries, the service is what serving every journaled call once, in the order of the rows, makes of
      the empty service, and every answer a caller has been given is the reply of its row. */
  lemma ServiceIsItsHistory<D(!new)>(w: World<D>, steps: seq<Step>) returns (ms: seq<Machine<D>>, replies: seq<Reply>)
    requires w.RespectsJson()
    requires var sys := Run(w, Empty<D>(), steps); sys.process.Some? && sys.process.value.Ready?
    ensures var sys := Run(w, Empty<D>(), steps);
      && History(w, sys.rows, Submitted(w, Empty<D>(), steps), ms, replies)
      && sys.process.value.machine == ms[|sys.rows|]
      && forall a | a in sys.answered ::
           && a.row < |sys.rows| && replies[a.row] == a.reply
           && a.call.Json() == Submitted(w, Empty<D>(), steps)[a.row].Json()
  {
    hide Run, Rebuilt, Unseal, WellFormedRows, Submitted, RecordedAt, Serves, ReplayRow;
    EmptyIsSound(w);
    RunKeepsSound(w, Empty<D>(), steps);
    RunCarries(w, Empty<D>(), steps, []);
    var sys, calls := Run(w, Empty<D>(), steps), Submitted(w, Empty<D>(), steps);
    assert [] + calls == calls;
    ms, replies := RebuiltIsHistory(w, sys.rows, calls);
    forall a | a in sys.answered
      ensures a.row < |sys.rows| && replies[a.row] == a.reply && a.call.Json() == calls[a.row].Json()
    {
      assert Confirmed(w, sys.rows, a);
      assert CarriesAt(w, sys.rows, a.row, calls[a.row]);
    }
  }
}
