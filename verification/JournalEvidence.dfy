/**
 What a journal row is evidence of: its hashes bind what it says, its identifiers have their exact shape, and
 the end of a command is reported as it was.
 */
module JournalEvidence {
  import opened Outcomes
  import opened JournalCore
  import opened JournalProtocol

  // --- Shapes of identifiers ----------------------------------------------------------------------------

  predicate HexDigit(c: char)
  {
    c in "0123456789abcdefABCDEF"
  }

  /** A journaled intent id, character by character. */
  lemma UuidByPosition(s: string)
    ensures IsUuid(s)
       <==> |s| == 36 && forall i | 0 <= i < 36 ::
              if i in {8, 13, 18, 23} then s[i] == '-'
              else if i == 14 then s[i] in "12345678"
              else if i == 19 then s[i] in "89abAB"
              else HexDigit(s[i])
  {
    if |s| == 36 {
      HexTextByPosition(s, 0, 8);
      HexTextByPosition(s, 9, 13);
      HexTextByPosition(s, 14, 18);
      HexTextByPosition(s, 19, 23);
      HexTextByPosition(s, 24, 36);
      assert s[24..] == s[24..36] && s[..8] == s[0..8];
      hide IsHexText;
    }
  }

  lemma HexTextByPosition(s: string, from: nat, to: nat)
    requires from <= to <= |s|
    ensures IsHexText(s[from..to]) <==> forall i | from <= i < to :: HexDigit(s[i])
  {
    var part := s[from..to];
    forall c ensures HexDigit(c) <==> '0' <= c <= '9' || 'a' <= c <= 'f' || 'A' <= c <= 'F' { HexRange(c); }
    if IsHexText(part) {
      forall i | from <= i < to ensures HexDigit(s[i]) { assert part[i - from] in part; }
    }
    hide HexDigit;
  }

  lemma HexRange(c: char)
    ensures HexDigit(c) <==> '0' <= c <= '9' || 'a' <= c <= 'f' || 'A' <= c <= 'F'
  {
  }

  /** The id of a lease key: 3 to 64 of these characters, the first of them a letter or a digit. */
  lemma KeyIdByPosition(s: string)
    ensures IsKeyId(s)
       <==> 3 <= |s| <= 64 && s[0] in "abcdefghijklmnopqrstuvwxyz0123456789"
            && forall i | 0 <= i < |s| :: s[i] in "abcdefghijklmnopqrstuvwxyz0123456789._-"
  {
    forall c ensures c in "abcdefghijklmnopqrstuvwxyz0123456789" <==> 'a' <= c <= 'z' || '0' <= c <= '9' { KeyRange(c); }
    var letters, others := "abcdefghijklmnopqrstuvwxyz0123456789", "._-";
    assert "abcdefghijklmnopqrstuvwxyz0123456789._-" == letters + others;
    forall c ensures c in letters + others <==> c in letters || c in {'.', '_', '-'} {
    }
    if IsKeyId(s) {
      forall i | 0 <= i < |s| ensures s[i] in letters + others { assert s[i] in s; }
    }
  }

  lemma KeyRange(c: char)
    ensures c in "abcdefghijklmnopqrstuvwxyz0123456789" <==> 'a' <= c <= 'z' || '0' <= c <= '9'
  {
  }

  /** A hash on a row: the name of the function and 64 lower-case hexadecimal digits. */
  lemma HashByPosition(s: string)
    ensures IsHash(s) <==> |s| == 71 && (forall i | 0 <= i < 7 :: s[i] == "sha256:"[i])
                           && forall i | 7 <= i < 71 :: s[i] in "0123456789abcdef"
  {
    if |s| == 71 {
      forall c ensures c in "0123456789abcdef" <==> '0' <= c <= '9' || 'a' <= c <= 'f' { LowerHexRange(c); }
      forall i | 7 <= i < 71 ensures s[7..][i - 7] == s[i] {
      }
      forall j | 0 <= j < 64 ensures s[7..][j] == s[j + 7] {
      }
    }
  }

  lemma LowerHexRange(c: char)
    ensures c in "0123456789abcdef" <==> '0' <= c <= '9' || 'a' <= c <= 'f'
  {
  }

  // --- What a hash binds -----------------------------------------------------------------------------------

  /** A field of an object that is not undefined is a field of its JSON form; no other is. */
  lemma JsonField(fields: map<string, Value>, k: string)
    ensures JsonForm(Obj(fields)).Obj?
    ensures k in JsonForm(Obj(fields)).fields <==> k in fields && fields[k] != Undefined
    ensures k in fields && fields[k] != Undefined ==> JsonForm(Obj(fields)).fields[k] == JsonForm(fields[k])
  {
  }

  lemma JsonStrings(items: seq<string>)
    ensures JsonForm(Strings(items)) == Strings(items)
  {
    assert JsonForm(Strings(items)).items == Strings(items).items;
  }

  lemma StringsAreInjective(a: seq<string>, b: seq<string>)
    requires Strings(a) == Strings(b)
    ensures a == b
  {
    assert |Strings(a).items| == |a| && |Strings(b).items| == |b|;
    forall i | 0 <= i < |a| ensures a[i] == b[i] { assert Strings(a).items[i] == Str(a[i]) && Strings(b).items[i] == Str(b[i]); }
  }

  lemma OptionalStrings(a: Option<seq<string>>, b: Option<seq<string>>, x: map<string, Value>, y: map<string, Value>, k: string)
    requires k in x && x[k] == (if a.Some? then Strings(a.value) else Undefined)
    requires k in y && y[k] == (if b.Some? then Strings(b.value) else Undefined)
    requires JsonForm(Obj(x)) == JsonForm(Obj(y))
    ensures a == b
  {
    JsonField(x, k);
    JsonField(y, k);
    if a.Some? && b.Some? {
      JsonStrings(a.value);
      JsonStrings(b.value);
      StringsAreInjective(a.value, b.value);
    }
    hide JsonForm;
  }

  lemma PrincipalIsBound(a: Principal, b: Principal)
    requires JsonForm(PrincipalValue(a)) == JsonForm(PrincipalValue(b))
    ensures a == b
  {
    var x, y := PrincipalValue(a).fields, PrincipalValue(b).fields;
    JsonField(x, "id");
    JsonField(y, "id");
    assert JsonForm(Str(a.id)) == Str(a.id) && JsonForm(Str(b.id)) == Str(b.id);
    hide JsonForm;
    OptionalStrings(Some(a.participantVersionIds), Some(b.participantVersionIds), x, y, "participantVersionIds");
    OptionalStrings(a.roles, b.roles, x, y, "roles");
    OptionalStrings(a.runAgentIds, b.runAgentIds, x, y, "runAgentIds");
  }

  /** What an intent says: everything but its place in the journal. */
  ghost predicate SameIntent(a: Intent, b: Intent)
  {
    && a.intentId == b.intentId && a.commandName == b.commandName && a.journalVersion == b.journalVersion
    && a.principal == b.principal && a.leaseKeyId == b.leaseKeyId
    && JsonArguments(a.arguments) == JsonArguments(b.arguments)
  }

  lemma CommandIsBound(a: Intent, b: Intent)
    requires JsonForm(IntentEnvelope(a)) == JsonForm(IntentEnvelope(b))
    ensures a.commandName == b.commandName && a.journalVersion == b.journalVersion && a.leaseKeyId == b.leaseKeyId
  {
    var x, y := IntentEnvelope(a).fields, IntentEnvelope(b).fields;
    JsonField(x, "command");
    JsonField(y, "command");
    JsonField(x, "lease");
    JsonField(y, "lease");
    JsonField(x["command"].fields, "name");
    JsonField(y["command"].fields, "name");
    JsonField(x["command"].fields, "version");
    JsonField(y["command"].fields, "version");
    JsonField(x["lease"].fields, "hmacKeyId");
    JsonField(y["lease"].fields, "hmacKeyId");
    JsonAtoms(a);
    JsonAtoms(b);
    hide JsonForm;
  }

  lemma JsonAtoms(a: Intent)
    ensures JsonForm(Str(a.commandName)) == Str(a.commandName) && JsonForm(Str(a.leaseKeyId)) == Str(a.leaseKeyId)
    ensures JsonForm(Num(a.journalVersion)) == Num(a.journalVersion) && JsonForm(Str(a.intentId)) == Str(a.intentId)
    ensures JsonForm(Arr(a.arguments)) == Arr(JsonArguments(a.arguments))
  {
  }

  lemma EnvelopeBindsIntent(a: Intent, b: Intent)
    ensures JsonForm(IntentEnvelope(a)) == JsonForm(IntentEnvelope(b)) <==> SameIntent(a, b)
  {
    JsonAtoms(a);
    JsonAtoms(b);
    if JsonForm(IntentEnvelope(a)) == JsonForm(IntentEnvelope(b)) {
      var x, y := IntentEnvelope(a).fields, IntentEnvelope(b).fields;
      CommandIsBound(a, b);
      JsonField(x, "intentId");
      JsonField(y, "intentId");
      JsonField(x, "principal");
      JsonField(y, "principal");
      JsonField(x, "arguments");
      JsonField(y, "arguments");
      PrincipalIsBound(a.principal, b.principal);
      hide JsonForm;
    }
    if SameIntent(a, b) { SameIntentSameEnvelope(a, b); }
  }

  lemma SameIntentSameEnvelope(a: Intent, b: Intent)
    requires SameIntent(a, b)
    ensures JsonForm(IntentEnvelope(a)) == JsonForm(IntentEnvelope(b))
  {
    JsonAtoms(a);
    JsonAtoms(b);
    var x, y := IntentEnvelope(a).fields, IntentEnvelope(b).fields;
    assert x.Keys == y.Keys;
    forall k | k in x ensures x[k] == y[k] || (k == "arguments" && JsonForm(x[k]) == JsonForm(y[k])) {
    }
    hide IntentEnvelope, PrincipalValue, SameIntent, JsonArguments;
    SameFieldsSameForm(x, y);
  }

  lemma SameFieldsSameForm(x: map<string, Value>, y: map<string, Value>)
    requires x.Keys == y.Keys
    requires forall k | k in x :: x[k] == y[k] || (k == "arguments" && JsonForm(x[k]) == JsonForm(y[k]))
    requires "arguments" in x ==> x["arguments"] != Undefined && y["arguments"] != Undefined
    ensures JsonForm(Obj(x)) == JsonForm(Obj(y))
  {
    assert JsonForm(Obj(x)).fields == JsonForm(Obj(y)).fields;
  }

  /** A row that is read back is the row that was written: two intents that both pass the check on reading
      and carry the same hash say the same, unless the hash collides at exactly these two. */
  lemma IntentsAreTamperEvident(crypto: Crypto, written: Intent, read: Intent)
    requires ParsesIntent(crypto, written) && ParsesIntent(crypto, read)
    ensures SameIntent(written, read) ==> written.requestHash == read.requestHash
    ensures written.requestHash == read.requestHash && !SameIntent(written, read) ==>
      var x, y := JsonForm(IntentEnvelope(written)), JsonForm(IntentEnvelope(read));
      x != y && crypto.Digest(IntentEnvelope(written)) == crypto.Digest(IntentEnvelope(read))
  {
    EnvelopeBindsIntent(written, read);
  }

  /** The hash of an outcome binds what was generated for it, value by value. */
  lemma OutcomeBindsGenerated(a: Reply, g: Generated, b: Reply, g': Generated)
    requires JsonForm(OutcomeEnvelope(a, g)) == JsonForm(OutcomeEnvelope(b, g'))
    ensures g == g'
  {
    var x, y := OutcomeEnvelope(a, g).fields, OutcomeEnvelope(b, g').fields;
    JsonField(x, "generated");
    JsonField(y, "generated");
    GeneratedIsBound(g, g');
    hide JsonForm;
  }

  lemma JsonNumbers(items: seq<int>)
    ensures JsonForm(Numbers(items)) == Numbers(items)
  {
    assert JsonForm(Numbers(items)).items == Numbers(items).items;
  }

  lemma NumbersAreInjective(a: seq<int>, b: seq<int>)
    requires Numbers(a) == Numbers(b)
    ensures a == b
  {
    assert |Numbers(a).items| == |a| && |Numbers(b).items| == |b|;
    forall i | 0 <= i < |a| ensures a[i] == b[i] { assert Numbers(a).items[i] == Num(a[i]) && Numbers(b).items[i] == Num(b[i]); }
  }

  lemma GeneratedIsBound(g: Generated, g': Generated)
    requires JsonForm(GeneratedValue(g)) == JsonForm(GeneratedValue(g'))
    ensures g == g'
  {
    var x, y := GeneratedValue(g).fields, GeneratedValue(g').fields;
    JsonField(x, "ids");
    JsonField(y, "ids");
    JsonField(x, "timestamps");
    JsonField(y, "timestamps");
    JsonField(x, "leaseCounterCount");
    JsonField(y, "leaseCounterCount");
    JsonStrings(g.ids);
    JsonStrings(g'.ids);
    JsonNumbers(g.timestamps);
    JsonNumbers(g'.timestamps);
    assert JsonForm(Num(g.leaseCount)) == Num(g.leaseCount) && JsonForm(Num(g'.leaseCount)) == Num(g'.leaseCount);
    hide JsonForm;
    StringsAreInjective(g.ids, g'.ids);
    NumbersAreInjective(g.timestamps, g'.timestamps);
  }

  /** Recovery reads no row that is not well formed: one such row, wherever it is, and nothing is replayed. */
  lemma UnreadableRowsStopRecovery<D(!new)>(w: World<D>, rows: seq<Entry>, i: nat, sources: nat -> Source, fates: nat -> Fate)
    requires i < |rows|
    requires var e := rows[i];
      || w.crypto.Digest(IntentEnvelope(e.intent)) != e.intent.requestHash || e.intent.commandName !in MUTATION_NAMES
      || !IsUuid(e.intent.intentId) || !IsKeyId(e.intent.leaseKeyId) || e.intent.journalVersion != 1
      || (e.outcome.Some? &&
            (|| !IsHash(e.outcome.value.resultHash) || e.outcome.value.succeeded != e.outcome.value.errorCode.None?
             || |e.outcome.value.generated.ids| > 100000 || |e.outcome.value.generated.timestamps| > 100000))
    ensures Recover(w, rows, sources, fates) == (rows, Err(Corrupt))
  {
    hide IsUuid, IsKeyId, IsHash, IntentEnvelope;
    assert !Parses(w.crypto, rows[i]);
  }

  /** A value stands for a lease token exactly if it holds a reference of that kind with the token's hash. */
  lemma ReferencesByField(v: Value, hash: string)
    ensures ReferencedHash(v) == Some(hash)
       <==> v.Obj? && "$secretRef" in v.fields && v.fields["$secretRef"].Obj?
            && var reference := v.fields["$secretRef"].fields;
               && "kind" in reference && reference["kind"] == Str("lease-token-hash")
               && "tokenHash" in reference && reference["tokenHash"] == Str(hash)
  {
  }

  // --- How a command's end is reported -------------------------------------------------------------------------

  /** A rejected reply says what was thrown: the service's own error as it is, another domain error under its
      code if the API knows the code and as a failed validation otherwise. */
  ghost predicate ReportsThrown(apiCodes: set<string>, error: Thrown, failure: Failure)
  {
    match error
    case ServiceError(code, message, details) => failure.code == code && failure.message == message && failure.details == details
    case DomainError(code, message) =>
      && failure.message == message && failure.details == Undefined
      && (code in apiCodes ==> failure.code == code) && (code !in apiCodes ==> failure.code == "VALIDATION_FAILED")
    case OtherError => false
  }

  /** How a live execution ends: with the result the command returned, with the error it threw, or in a failure,
      because it threw something unknown, asked for more than its bound, or was given an unusable value. */
  ghost predicate EndsAt<S(!new)>(ctx: Context, cmd: Command<S>, last: seq<Answer>, e: Execution<S>)
  {
    var request := cmd.next(last);
    match e
    case Finished(state, Succeeded(result), _, _) => request == Return(state, result)
    case Finished(state, Rejected(failure), _, _) =>
      request.Throw? && request.state == state && ReportsThrown(ctx.apiCodes, request.error, failure)
    case Failed(code) =>
      if request.Throw? then request.error == OtherError && code == Unavailable
      else !request.Return? && (code == InvalidConfiguration ==> !request.AwaitLease?)
           && code in {Unavailable, InvalidConfiguration} && (code == Unavailable ==> |last| >= cmd.limit)
  }

  lemma {:induction false} LiveEnds<S(!new)>(ctx: Context, cmd: Command<S>, source: Source, h: seq<Answer>, gen: Generated,
                                       known: Known) returns (last: seq<Answer>)
    ensures h <= last && EndsAt(ctx, cmd, last, Live(ctx, cmd, source, h, gen, known))
    decreases cmd.limit - |h|
  {
    var request := cmd.next(h);
    last := h;
    if !request.Return? && !request.Throw? && |h| < cmd.limit {
      match request
      case AwaitId =>
        var id := source.ids(|gen.ids|);
        if 1 <= |id| <= 512 && |gen.ids| < MAX_GENERATED_VALUES {
          last := LiveEnds(ctx, cmd, source, h + [AnId(id)], gen.(ids := gen.ids + [id]), known);
        }
      case AwaitTime =>
        var time := source.times(|gen.timestamps|);
        if time.Some? && |gen.timestamps| < MAX_GENERATED_VALUES {
          last := LiveEnds(ctx, cmd, source, h + [ATime(time.value)],
                           gen.(timestamps := gen.timestamps + [time.value]), known);
        }
      case AwaitLease =>
        last := LiveEnds(ctx, cmd, source, h + [ALease(ctx.Token(gen.leaseCount))],
                         gen.(leaseCount := gen.leaseCount + 1), ctx.Learn(known, gen.leaseCount));
      case _ =>
    }
  }
}
