/**
 Consequences of the command journal's soundness for its callers: a successful command may be
 retried after any crash, and a replay that differs from what was recorded is noticed.
 */
module JournalRetry {
  import opened Outcomes
  import opened JournalCore
  import opened JournalProtocol
  import opened Digits

  // --- What a replayed row does to the idempotency records and the known tokens ----------------

  lemma IdempotentEnding<D>(s: Inner<D>, key: string, requestHash: string, op: Command<D>, h: seq<Answer>)
    requires var ending := Idempotent(s, key, requestHash, op).next(h); ending.Return? || ending.Throw?
    ensures var ending := Idempotent(s, key, requestHash, op).next(h);
            && Extends(s.cache, ending.state.cache)
            && (ending.Return? ==> key in ending.state.cache
                                   && ending.state.cache[key] == Cached(requestHash, ending.result))
  {
  }

  lemma ReplayRowRecords<D(!new)>(w: World<D>, m: Machine<D>, e: Entry)
    requires e.outcome.Some? && ReplayRow(w, m, e).Ok?
    requires Unseal(e.intent.commandName, e.intent.arguments, m.known).Ok?
    ensures var (next, reply) := ReplayRow(w, m, e).value;
            var call := CallOf(e.intent, Unseal(e.intent.commandName, e.intent.arguments, m.known).value);
            && Extends(m.inner.cache, next.inner.cache)
            && (reply.Succeeded? ==> w.cacheKey(call) in next.inner.cache
                                     && next.inner.cache[w.cacheKey(call)] == Cached(w.RequestHash(call), reply.result))
  {
    var ctx := w.ContextOf(e.intent);
    var call := CallOf(e.intent, Unseal(e.intent.commandName, e.intent.arguments, m.known).value);
    var cmd := w.InnerCommand(m.inner, call);
    var _, last := ReplayEndsTheCommand(ctx, cmd, e.outcome.value.generated, [], NOTHING_USED, m.known);
    IdempotentEnding(m.inner, w.cacheKey(call), w.RequestHash(call), w.operation(m.inner.domain, call), last);
  }

  /** The lease tokens that a completed row issued. */
  ghost function TokensOf<D(!new)>(w: World<D>, e: Entry): set<string>
  {
    if e.outcome.None? || e.intent.leaseKeyId !in w.keys then {}
    else set i | 0 <= i < e.outcome.value.generated.leaseCount :: w.ContextOf(e.intent).Token(i)
  }

  /** The lease tokens that a journal has issued. */
  ghost function IssuedTokens<D(!new)>(w: World<D>, rows: seq<Entry>): set<string>
  {
    if rows == [] then {} else IssuedTokens(w, rows[..|rows| - 1]) + TokensOf(w, rows[|rows| - 1])
  }

  /** A row has issued a token: it is completed, and the token is that of one of its lease counters. */
  ghost predicate Issued<D(!new)>(w: World<D>, e: Entry, token: string)
  {
    && e.outcome.Some? && e.intent.leaseKeyId in w.keys
    && exists k: nat :: k < e.outcome.value.generated.leaseCount
                        && token == w.crypto.LeaseToken(w.keys[e.intent.leaseKeyId], e.intent.intentId, k)
  }

  /** The tokens issued are those of the lease counters on the completed rows. */
  lemma {:induction false} IssuedTokensAre<D(!new)>(w: World<D>, rows: seq<Entry>, token: string)
    ensures token in IssuedTokens(w, rows) <==> exists i | 0 <= i < |rows| :: Issued(w, rows[i], token)
  {
    if rows != [] {
      var init, last := rows[..|rows| - 1], rows[|rows| - 1];
      IssuedTokensAre(w, init, token);
      assert forall i | 0 <= i < |init| :: init[i] == rows[i];
      TokensOfRow(w, last, token);
    }
    hide Issued, TokensOf;
  }

  lemma TokensOfRow<D(!new)>(w: World<D>, e: Entry, token: string)
    ensures token in TokensOf(w, e) <==> Issued(w, e, token)
  {
    if Issued(w, e, token) {
      var k: nat :| k < e.outcome.value.generated.leaseCount
                    && token == w.crypto.LeaseToken(w.keys[e.intent.leaseKeyId], e.intent.intentId, k);
      assert token == w.ContextOf(e.intent).Token(k);
    }
    if token in TokensOf(w, e) {
      var k :| 0 <= k < e.outcome.value.generated.leaseCount && token == w.ContextOf(e.intent).Token(k);
      assert token == w.crypto.LeaseToken(w.keys[e.intent.leaseKeyId], e.intent.intentId, k);
    }
  }

  lemma ReplayRowLearns<D(!new)>(w: World<D>, m: Machine<D>, e: Entry, tokens: set<string>)
    requires KeyedByDigest(w.crypto, m.known)
    requires e.outcome.Some? && ReplayRow(w, m, e).Ok?
    ensures var next := ReplayRow(w, m, e).value.0;
      KeyedByDigest(w.crypto, next.known)
      && (Separated(w.crypto, tokens) && m.known.Values <= tokens && TokensOf(w, e) <= tokens ==>
            Extends(m.known, next.known) && next.known.Values <= tokens)
  {
    hide Separated, KeyedByDigest, Extends;
    var call := CallOf(e.intent, Unseal(e.intent.commandName, e.intent.arguments, m.known).value);
    var ctx, tape := w.ContextOf(e.intent), e.outcome.value.generated;
    if TokensOf(w, e) <= tokens {
      forall i | 0 <= i < tape.leaseCount ensures ctx.Token(i) in tokens {
        assert ctx.Token(i) in TokensOf(w, e);
      }
    }
    ReplayOnlyLearns(ctx, w.InnerCommand(m.inner, call), tape, [], NOTHING_USED, m.known, tokens);
  }

  /** Replaying more rows keeps every idempotency record. */
  lemma {:induction false} RebuiltKeepsRecords<D(!new)>(w: World<D>, rows: seq<Entry>, i: nat)
    requires i <= |rows| && Rebuilt(w, rows).Some? && Rebuilt(w, rows[..i]).Some?
    ensures Extends(Rebuilt(w, rows[..i]).value.inner.cache, Rebuilt(w, rows).value.inner.cache)
    decreases |rows|
  {
    hide ReplayRow;
    if i == |rows| {
      assert rows[..i] == rows;
    } else {
      var init, e := rows[..|rows| - 1], rows[|rows| - 1];
      RebuiltPrefix(w, rows, |rows| - 1);
      assert init[..i] == rows[..i];
      RebuiltKeepsRecords(w, init, i);
      ReplayedRowUnseals(w, Rebuilt(w, init).value, e);
      ReplayRowRecords(w, Rebuilt(w, init).value, e);
    }
  }

  /** Replaying files every token under its digest and, if the tokens the journal has issued are
      separated, forgets none. */
  lemma {:induction false} RebuiltOnlyLearns<D(!new)>(w: World<D>, rows: seq<Entry>, i: nat, tokens: set<string>)
    requires i <= |rows| && Rebuilt(w, rows).Some? && Rebuilt(w, rows[..i]).Some?
    ensures KeyedByDigest(w.crypto, Rebuilt(w, rows).value.known)
    ensures Separated(w.crypto, tokens) && IssuedTokens(w, rows) <= tokens ==>
      Extends(Rebuilt(w, rows[..i]).value.known, Rebuilt(w, rows).value.known) && Rebuilt(w, rows).value.known.Values <= tokens
    decreases |rows|
  {
    hide Separated, KeyedByDigest, ReplayRow, TokensOf, Extends;
    if rows == [] {
      FreshIsKeyed(w);
      assert rows[..i] == rows;
      ExtendsItself(Rebuilt(w, rows).value.known);
    } else {
      var init, e := rows[..|rows| - 1], rows[|rows| - 1];
      var j := if i < |rows| then i else i - 1;
      RebuiltPrefix(w, rows, |rows| - 1);
      RebuiltPrefix(w, rows, j);
      assert init[..j] == rows[..j];
      RebuiltOnlyLearns(w, init, j, tokens);
      var before, m, after := Rebuilt(w, rows[..j]).value, Rebuilt(w, init).value, Rebuilt(w, rows).value;
      ReplayRowLearns(w, m, e, tokens);
      ExtendsItself(after.known);
      if Extends(before.known, m.known) && Extends(m.known, after.known) {
        ExtendsTransitive(before.known, m.known, after.known);
      }
      if i == |rows| { assert rows[..i] == rows; }
    }
  }

  lemma FreshIsKeyed<D(!new)>(w: World<D>)
    ensures KeyedByDigest(w.crypto, Fresh(w).known) && Fresh(w).known.Values == {}
  {
  }

  // --- Sealing again -------------------------------------------------------------------------------

  /** A mutation that takes a lease token can find it: it is still known under its digest. */
  ghost predicate TokenKnown(crypto: Crypto, name: string, arguments: seq<Value>, known: Known)
  {
    name in LEASE_TOKEN_MUTATIONS ==>
      var json := JsonArguments(arguments);
      && |json| > 3 && json[3].Obj? && "leaseToken" in json[3].fields && json[3].fields["leaseToken"].Str?
      && var token := json[3].fields["leaseToken"].s;
         crypto.Digest(Str(token)) in known && known[crypto.Digest(Str(token))] == token
  }

  lemma SealsIffTokenKnown(crypto: Crypto, name: string, arguments: seq<Value>, known: Known)
    ensures Seal(crypto, name, arguments, known).Ok? <==> TokenKnown(crypto, name, arguments, known)
  {
  }

  /** Arguments that were unsealed before name a token that was known before, so they can be sealed again
      unless another token has taken its place. */
  lemma UnsealedSealsAgain(crypto: Crypto, name: string, sealed: seq<Value>, arguments: seq<Value>, before: Known, now: Known)
    requires KeyedByDigest(crypto, before)
    requires Unseal(name, sealed, before) == Ok(JsonArguments(arguments))
    ensures TokenKnown(crypto, name, arguments, before)
    ensures Extends(before, now) ==> TokenKnown(crypto, name, arguments, now)
    ensures Seal(crypto, name, arguments, now).Ok? || Seal(crypto, name, arguments, now) == Err(SecretReferenceUnknown)
  {
    if name in LEASE_TOKEN_MUTATIONS {
      var json := JsonArguments(sealed);
      var tokenHash := ReferencedHash(json[3].fields["leaseToken"]).value;
      var input := JsonArguments(arguments)[3].fields;
      assert input["leaseToken"] == Str(before[tokenHash]);
      assert crypto.Digest(Str(before[tokenHash])) == tokenHash;
    }
  }

  // --- Retrying a successful command -------------------------------------------------------------------

  /** In a sound state, the machine still holds the idempotency record of every answered success. */
  lemma AnswerIsCached<D(!new)>(w: World<D>, rows: seq<Entry>, a: Answered)
    requires w.RespectsJson()
    requires Rebuilt(w, rows).Some? && Confirmed(w, rows, a) && a.reply.Succeeded?
    ensures var m := Rebuilt(w, rows).value;
      w.cacheKey(a.call) in m.inner.cache
      && m.inner.cache[w.cacheKey(a.call)] == Cached(w.RequestHash(a.call), a.reply.result)
  {
    hide ReplayRow, Unseal, Rebuilt;
    var i := a.row;
    var m := Rebuilt(w, rows[..i]).value;
    var e := rows[i];
    RebuiltPrefix(w, rows, i);
    RebuiltPrefix(w, rows, i + 1);
    RebuiltKeepsRecords(w, rows, i + 1);
    ReplayedRowUnseals(w, m, e);
    ReplayRowRecords(w, m, e);
    assert rows[..i + 1] == rows[..i] + [e];
    RebuiltSnoc(w, rows[..i], e);
    assert CallOf(e.intent, JsonArguments(a.call.arguments)) == a.call.Json();
    assert w.RespectsJsonOf(w.initial, a.call);
  }

  /** The lease token of an answered command is still known if the tokens issued are separated; and if it
      is not, sealing the command again is refused for that reason. */
  lemma AnswerCanBeSealed<D(!new)>(w: World<D>, rows: seq<Entry>, a: Answered)
    requires Rebuilt(w, rows).Some? && Confirmed(w, rows, a)
    ensures var known := Rebuilt(w, rows).value.known;
      (Separated(w.crypto, IssuedTokens(w, rows)) ==> TokenKnown(w.crypto, a.call.name, a.call.arguments, known))
      && (var sealed := Seal(w.crypto, a.call.name, a.call.arguments, known);
          sealed.Ok? || sealed == Err(SecretReferenceUnknown))
  {
    hide Separated, KeyedByDigest, Extends, ReplayRow, Unseal, Seal, Rebuilt, TokenKnown, IssuedTokens;
    var i := a.row;
    var e := rows[i];
    RebuiltPrefix(w, rows, i);
    assert rows[..i][..i] == rows[..i];
    RebuiltOnlyLearns(w, rows[..i], i, {});
    RebuiltOnlyLearns(w, rows, i, IssuedTokens(w, rows));
    var before := Rebuilt(w, rows[..i]).value;
    ReplayedRowUnseals(w, before, e);
    UnsealedSealsAgain(w.crypto, a.call.name, e.intent.arguments, a.call.arguments, before.known, Rebuilt(w, rows).value.known);
  }

  /** A command whose success a caller has seen, repeated in any later ready state after any number of
      crashes, answers the recorded result, leaves the service and the known tokens as they are and
      generates nothing, if and only if the lease token it names is still known; a command that takes no
      lease token always does. Otherwise it is refused and changes nothing at all. */
  lemma RetryAnswersIffTokenKnown<D(!new)>(w: World<D>, steps: seq<Step>, a: Answered, intentId: string, gap: nat,
                                           source: Source)
    requires w.RespectsJson()
    requires var sys := Run(w, Empty<D>(), steps);
             && a in sys.answered && a.reply.Succeeded?
             && sys.process.Some? && sys.process.value.Ready?
             && IsUuid(intentId) && !IdTaken(sys.rows, intentId)
    ensures var sys := Run(w, Empty<D>(), steps);
            var (after, answer) := MutateStep(w, sys, a.call, intentId, gap, source, Stored, Stored);
            if TokenKnown(w.crypto, a.call.name, a.call.arguments, sys.process.value.machine.known) then
              && answer == Ok(a.reply)
              && after.process == sys.process
              && |after.rows| == |sys.rows| + 1
              && after.rows[|sys.rows|].outcome == Some(OutcomeOf(w.crypto, a.reply, NOTHING_GENERATED))
            else answer == Err(SecretReferenceUnknown) && after == sys
  {
    hide Run, Rebuilt, Seal, Unseal, ReplayRow, Parses, WellFormedRows, Recoverable, IssuedTokens, TokenKnown;
    EmptyIsSound(w);
    RunKeepsSound(w, Empty<D>(), steps);
    var sys := Run(w, Empty<D>(), steps);
    var p := sys.process.value;
    AnswerIsCached(w, sys.rows, a);
    AnswerCanBeSealed(w, sys.rows, a);
    AnsweredIsAMutation(w, sys.rows, a);
    SealsIffTokenKnown(w.crypto, a.call.name, a.call.arguments, p.machine.known);
    var sealed := Seal(w.crypto, a.call.name, a.call.arguments, p.machine.known);
    if sealed.Ok? {
      var row := Entry(NewIntent(w, sys.rows, a.call, sealed.value, intentId, gap, p.activeKeyId), None);
      CachedCommandRepeats(w, w.ContextOf(row.intent), p.machine, a.call, source);
    }
  }

  /** And the token is still known whenever the finitely many tokens that the journal has issued have
      different digests. */
  lemma RetryAnswersTheRecordedResult<D(!new)>(w: World<D>, steps: seq<Step>, a: Answered, intentId: string, gap: nat,
                                               source: Source)
    requires w.RespectsJson()
    requires var sys := Run(w, Empty<D>(), steps);
             && a in sys.answered && a.reply.Succeeded?
             && sys.process.Some? && sys.process.value.Ready?
             && IsUuid(intentId) && !IdTaken(sys.rows, intentId)
             && Separated(w.crypto, IssuedTokens(w, sys.rows))
    ensures var sys := Run(w, Empty<D>(), steps);
            var (after, answer) := MutateStep(w, sys, a.call, intentId, gap, source, Stored, Stored);
            && answer == Ok(a.reply)
            && after.process == sys.process
            && |after.rows| == |sys.rows| + 1
            && after.rows[|sys.rows|].outcome == Some(OutcomeOf(w.crypto, a.reply, NOTHING_GENERATED))
  {
    hide Run, Rebuilt, ReplayRow, Parses, WellFormedRows, Recoverable, IssuedTokens, TokenKnown, Separated, MutateStep;
    EmptyIsSound(w);
    RunKeepsSound(w, Empty<D>(), steps);
    AnswerCanBeSealed(w, Run(w, Empty<D>(), steps).rows, a);
    RetryAnswersIffTokenKnown(w, steps, a, intentId, gap, source);
  }

  /** There is cryptography that separates all lease tokens whatever, with different tokens for the first
      ten to the 64th leases of an intent. */
  lemma SomeCryptoSeparates() returns (crypto: Crypto)
    ensures forall key, intentId, i: nat, key', intentId', i': nat
              | crypto.Digest(Str(crypto.LeaseToken(key, intentId, i))) == crypto.Digest(Str(crypto.LeaseToken(key', intentId', i'))) ::
              crypto.LeaseToken(key, intentId, i) == crypto.LeaseToken(key', intentId', i')
    ensures forall key, intentId, i: nat, j: nat | |NatText(i)| <= 64 && |NatText(j)| <= 64 && i != j ::
              crypto.LeaseToken(key, intentId, i) != crypto.LeaseToken(key, intentId, j)
  {
    crypto := Crypto(CopiedToken, (key: string, intentId: string, index: nat) => Filled(index));
    forall key: string, intentId: string, i: nat ensures crypto.Digest(Str(crypto.LeaseToken(key, intentId, i))) == "sha256:" + Filled(i) {
      assert crypto.LeaseToken(key, intentId, i)[4..] == Filled(i);
    }
    forall i: nat, j: nat | "sha256:" + Filled(i) == "sha256:" + Filled(j) ensures Filled(i) == Filled(j) {
      assert ("sha256:" + Filled(i))[7..] == Filled(i) && ("sha256:" + Filled(j))[7..] == Filled(j);
    }
    forall key: string, intentId: string, i: nat, j: nat | |NatText(i)| <= 64 && |NatText(j)| <= 64 && i != j
      ensures crypto.LeaseToken(key, intentId, i) != crypto.LeaseToken(key, intentId, j)
    {
      FilledReads(i);
      FilledReads(j);
      assert crypto.LeaseToken(key, intentId, i)[4..] == Filled(i) && crypto.LeaseToken(key, intentId, j)[4..] == Filled(j);
    }
  }

  /** The decimal digits of a number, filled up to 64. */
  function Filled(n: nat): (s: Hex64)
    ensures IsDigits(s)
  {
    NatTextIsCanonical(n);
    if |NatText(n)| <= 64 then Zeros(64 - |NatText(n)|) + NatText(n) else Zeros(64)
  }

  function CopiedToken(v: Value): Hex64
  {
    if v.Str? && |v.s| == 68 && IsHex64(v.s[4..]) then v.s[4..] else Zeros(64)
  }

  lemma FilledReads(n: nat)
    requires |NatText(n)| <= 64
    ensures Read(Filled(n)) == n
  {
    var digits := NatText(n);
    NatTextIsCanonical(n);
    assert Filled(n) == Zeros(64 - |digits|) + digits;
    hide Filled, NatText, Zeros, Read;
    ZerosInFront(64 - |digits|, digits);
  }

  lemma AnsweredIsAMutation<D(!new)>(w: World<D>, rows: seq<Entry>, a: Answered)
    requires WellFormedRows(w, rows) && Confirmed(w, rows, a)
    ensures a.call.name in MUTATION_NAMES
  {
    hide RecordedAt;
    assert LegalRow(w, rows[a.row]);
  }

  lemma CachedCommandRepeats<D(!new)>(w: World<D>, ctx: Context, m: Machine<D>, call: Call, source: Source)
    requires w.cacheKey(call) in m.inner.cache
    requires m.inner.cache[w.cacheKey(call)].requestHash == w.RequestHash(call)
    ensures Live(ctx, w.InnerCommand(m.inner, call), source, [], NOTHING_GENERATED, m.known)
         == Finished(m.inner, Succeeded(m.inner.cache[w.cacheKey(call)].response), NOTHING_GENERATED, m.known)
  {
  }

  // --- Detecting drift ---------------------------------------------------------------------------------

  /** Two replies that print the same JSON. */
  ghost predicate SameInJson(a: Reply, b: Reply)
  {
    match (a, b)
    case (Succeeded(x), Succeeded(y)) => JsonForm(x) == JsonForm(y) && (x == Undefined <==> y == Undefined)
    case (Rejected(x), Rejected(y)) => x.code == y.code && x.message == y.message && JsonForm(x.details) == JsonForm(y.details)
    case _ => false
  }

  /** Two replies with the same status and error code whose outcomes print different JSON with the same
      digest: a collision of the hash at exactly these two values. */
  ghost predicate Collide(crypto: Crypto, a: Reply, b: Reply, generated: Generated)
  {
    var x, y := OutcomeEnvelope(a, generated), OutcomeEnvelope(b, generated);
    && a.Succeeded? == b.Succeeded? && (a.Rejected? ==> a.error.code == b.error.code)
    && JsonForm(x) != JsonForm(y) && crypto.Digest(x) == crypto.Digest(y)
  }

  /** Whatever code wrote a row and whatever code replays it: a replay that runs to its end is accepted if
      and only if it arrives at the reply that was recorded, up to JSON, or its outcome collides with the
      recorded one. A service whose behaviour has changed cannot silently change an answer. */
  lemma ReplayAcceptedIffSameReply<D(!new)>(w: World<D>, m: Machine<D>, e: Entry, recorded: Reply, generated: Generated)
    requires e.outcome == Some(OutcomeOf(w.crypto, recorded, generated)) && e.intent.leaseKeyId in w.keys
    requires Unseal(e.intent.commandName, e.intent.arguments, m.known).Ok?
    requires Replayed(w, m, e, generated).Finished?
    ensures var reply := Replayed(w, m, e, generated).reply;
      && (ReplayRow(w, m, e).Ok? <==> SameInJson(recorded, reply) || Collide(w.crypto, recorded, reply, generated))
      && (ReplayRow(w, m, e).Ok? ==> ReplayRow(w, m, e).value.1 == reply)
  {
    var reply := Replayed(w, m, e, generated).reply;
    OutcomeKeepsGenerated(w.crypto, recorded, generated);
    var arguments := Unseal(e.intent.commandName, e.intent.arguments, m.known).value;
    ReplayKeepsItsTape(w.ContextOf(e.intent), w.InnerCommand(m.inner, CallOf(e.intent, arguments)),
                       generated, [], NOTHING_USED, m.known);
    SameOutcomeIffSameReply(w.crypto, recorded, reply, generated);
    hide OutcomeOf, SameInJson, Collide, Replay;
  }

  /** The execution that replaying a row on a tape gives. */
  ghost function Replayed<D(!new)>(w: World<D>, m: Machine<D>, e: Entry, generated: Generated): Execution<Inner<D>>
    requires e.intent.leaseKeyId in w.keys && Unseal(e.intent.commandName, e.intent.arguments, m.known).Ok?
  {
    var arguments := Unseal(e.intent.commandName, e.intent.arguments, m.known).value;
    Replay(w.ContextOf(e.intent), w.InnerCommand(m.inner, CallOf(e.intent, arguments)), generated, [], NOTHING_USED, m.known)
  }

  lemma OutcomeKeepsGenerated(crypto: Crypto, reply: Reply, generated: Generated)
    ensures OutcomeOf(crypto, reply, generated).generated == generated
  {
  }

  lemma SameOutcomeIffSameReply(crypto: Crypto, a: Reply, b: Reply, generated: Generated)
    ensures OutcomeOf(crypto, a, generated) == OutcomeOf(crypto, b, generated)
       <==> SameInJson(a, b) || Collide(crypto, a, b, generated)
  {
    SameJsonIffSameReply(a, b, generated);
    var x, y := OutcomeEnvelope(a, generated), OutcomeEnvelope(b, generated);
    if JsonForm(x) == JsonForm(y) { assert crypto.Digest(x) == crypto.Digest(y); }
    hide OutcomeEnvelope, JsonForm;
  }

  lemma SameJsonIffSameReply(a: Reply, b: Reply, generated: Generated)
    ensures SameInJson(a, b) <==> JsonForm(OutcomeEnvelope(a, generated)) == JsonForm(OutcomeEnvelope(b, generated))
  {
    EnvelopeParts(a, generated);
    EnvelopeParts(b, generated);
    EnvelopeStatus(a, generated);
    EnvelopeStatus(b, generated);
    if SameInJson(a, b) { SameReplySameJson(a, b, generated); }
    hide OutcomeEnvelope, JsonForm;
  }

  lemma EnvelopeStatus(reply: Reply, generated: Generated)
    ensures var x := JsonForm(OutcomeEnvelope(reply, generated));
      x.Obj? && "status" in x.fields && x.fields["status"] == Str(if reply.Succeeded? then "succeeded" else "rejected")
  {
    assert OutcomeEnvelope(reply, generated).fields["status"] == Str(if reply.Succeeded? then "succeeded" else "rejected");
  }

  lemma SameReplySameJson(a: Reply, b: Reply, generated: Generated)
    requires SameInJson(a, b)
    ensures JsonForm(OutcomeEnvelope(a, generated)) == JsonForm(OutcomeEnvelope(b, generated))
  {
    var x, y := OutcomeEnvelope(a, generated).fields, OutcomeEnvelope(b, generated).fields;
    assert x.Keys == y.Keys;
    if a.Rejected? {
      SameErrorSameJson(a.error, b.error);
      hide ErrorEnvelope;
    }
    forall k | k in x ensures JsonForm(x[k]) == JsonForm(y[k]) && (x[k] == Undefined <==> y[k] == Undefined) {
    }
    SameFieldsSameJson(x, y);
  }

  lemma SameErrorSameJson(a: Failure, b: Failure)
    requires a.code == b.code && a.message == b.message && JsonForm(a.details) == JsonForm(b.details)
    ensures JsonForm(ErrorEnvelope(a)) == JsonForm(ErrorEnvelope(b))
  {
    var x, y := ErrorEnvelope(a).fields, ErrorEnvelope(b).fields;
    assert x.Keys == y.Keys;
    forall k | k in x ensures JsonForm(x[k]) == JsonForm(y[k]) && (x[k] == Undefined <==> y[k] == Undefined) {
    }
    SameFieldsSameJson(x, y);
  }

  lemma SameFieldsSameJson(x: map<string, Value>, y: map<string, Value>)
    requires x.Keys == y.Keys
    requires forall k | k in x :: JsonForm(x[k]) == JsonForm(y[k]) && (x[k] == Undefined <==> y[k] == Undefined)
    ensures JsonForm(Obj(x)) == JsonForm(Obj(y))
  {
    assert JsonForm(Obj(x)).fields == JsonForm(Obj(y)).fields;
  }

  lemma EnvelopeParts(reply: Reply, generated: Generated)
    ensures var x := JsonForm(OutcomeEnvelope(reply, generated)).fields;
            match reply
            case Succeeded(result) =>
              "result" in x <==> result != Undefined
            case Rejected(error) =>
              && "error" in x && x["error"].Obj?
              && var fields := x["error"].fields;
              && "code" in fields && fields["code"] == Str(error.code)
              && "message" in fields && fields["message"] == Str(error.message)
              && "details" in fields && fields["details"] == JsonForm(error.details)
    ensures var x := JsonForm(OutcomeEnvelope(reply, generated)).fields;
            reply.Succeeded? && reply.result != Undefined ==> x["result"] == JsonForm(reply.result)
  {
    var envelope := OutcomeEnvelope(reply, generated).fields;
    if reply.Rejected? {
      assert envelope["error"] == ErrorEnvelope(reply.error);
      hide ErrorEnvelope;
      ErrorParts(reply.error);
    } else {
      assert envelope["result"] == reply.result;
    }
  }

  lemma ErrorParts(error: Failure)
    ensures ErrorEnvelope(error).Obj? && JsonForm(ErrorEnvelope(error)).Obj?
    ensures var fields := JsonForm(ErrorEnvelope(error)).fields;
      && "code" in fields && fields["code"] == Str(error.code)
      && "message" in fields && fields["message"] == Str(error.message)
      && "details" in fields && fields["details"] == JsonForm(error.details)
  {
    var fields, printed := ErrorEnvelope(error).fields, JsonForm(ErrorEnvelope(error)).fields;
    assert printed["code"] == JsonForm(fields["code"]) && printed["message"] == JsonForm(fields["message"]);
    assert printed["details"] == JsonForm(fields["details"]);
  }
}
