/** The delegation service: each command runs its statements in order, while other transactions go on. */
module DelegationService {
  import opened Outcomes
  import opened Sequences
  import opened DelegationProtocol
  import opened DelegationSafety
  import opened DelegationRuns
  import opened DelegationEffects

  datatype Error = NotAuthorized | IdempotencyConflict | SecretNotRecoverable | DelegationNotFound | CredentialNotFound
                 | VersionConflict | StateConflict | Unavailable

  /** Why a stored row keeps a command from going on, if it does. */
  function KeyRefusal(h: Hashes, db: Database, key: string, command: Command): Option<Error>
  {
    if key !in db.outbox then None
    else if db.outbox[key].requestHash != h.request(command) || db.outbox[key].command != command.Name() then Some(IdempotencyConflict)
    else if command.Issue? then Some(SecretNotRecoverable)
    else None
  }

  /** Why the delegation row keeps a command from going on, in the order of the checks. */
  function RowRefusal(db: Database, command: Command, now: int): Option<Error>
  {
    match command
    case Issue(owner, purpose, d, version, _) =>
      if d !in db.delegations || db.delegations[d].owner != owner then Some(DelegationNotFound)
      else if db.delegations[d].version != version then Some(VersionConflict)
      else if db.delegations[d].revoked || db.delegations[d].expiresAt <= now then Some(StateConflict)
      else if db.delegations[d].purpose != purpose then Some(NotAuthorized)
      else None
    case Revoke(owner, _, d, version) =>
      if d !in db.delegations || db.delegations[d].owner != owner then Some(DelegationNotFound)
      else if !db.delegations[d].revoked && db.delegations[d].version != version then Some(VersionConflict)
      else None
    case RevokeOne(owner, _, c) =>
      if c !in db.credentials || db.credentials[c].delegation !in db.delegations
         || db.delegations[db.credentials[c].delegation].owner != owner then Some(CredentialNotFound)
      else None
    case Create(_, _, _, _) => None
  }

  /** The checks refuse a command exactly when the lock statement would not let it proceed. */
  lemma RefusedIffMayNotProceed(db: Database, command: Command, now: int)
    requires command.Issue? || command.Revoke?
    ensures RowRefusal(db, command, now).None?
       <==> command.delegation in db.delegations && MayProceed(command, db.delegations[command.delegation], now)
  {
  }

  /** Whose row it is and what state it is in decide the refusal: a row of another owner does not exist, then
      a stale version, then a dead delegation, then another purpose. */
  lemma RefusalsSayWhy(db: Database, command: Command, now: int)
    requires command.Issue? || command.Revoke?
    ensures var d, refusal := command.delegation, RowRefusal(db, command, now);
      var mine := d in db.delegations && db.delegations[d].owner == command.owner;
      && (refusal == Some(DelegationNotFound) <==> !mine)
      && (command.Issue? ==>
            && (refusal == Some(VersionConflict) <==> mine && command.version != db.delegations[d].version)
            && (refusal == Some(StateConflict) <==> mine && command.version == db.delegations[d].version
                                                    && (db.delegations[d].revoked || now >= db.delegations[d].expiresAt))
            && (refusal == Some(NotAuthorized) <==> mine && command.version == db.delegations[d].version
                                                    && !db.delegations[d].revoked && now < db.delegations[d].expiresAt
                                                    && command.purpose != db.delegations[d].purpose))
      && (command.Revoke? ==>
            && (refusal == Some(VersionConflict) <==>
                  mine && !db.delegations[d].revoked && command.version != db.delegations[d].version)
            && refusal in {None, Some(DelegationNotFound), Some(VersionConflict)})
  {
  }

  /** A credential does not exist for anyone but the owner of its delegation; nothing else is refused here. */
  lemma CredentialRefusalSaysWhy(db: Database, command: Command, now: int)
    requires command.RevokeOne?
    ensures var c := command.credential;
      var mine := c in db.credentials && db.credentials[c].delegation in db.delegations
                  && db.delegations[db.credentials[c].delegation].owner == command.owner;
      RowRefusal(db, command, now) == if mine then None else Some(CredentialNotFound)
  {
  }

  /** A used key is refused for another request; for the same one only a command that issues a secret is. */
  lemma UsedKeysAreRefused(h: Hashes, db: Database, key: string, command: Command)
    ensures var refusal := KeyRefusal(h, db, key, command);
      && (refusal == Some(IdempotencyConflict) <==>
            key in db.outbox && !(h.request(command) == db.outbox[key].requestHash && command.Name() == db.outbox[key].command))
      && (refusal == Some(SecretNotRecoverable) <==>
            key in db.outbox && h.request(command) == db.outbox[key].requestHash && command.Name() == db.outbox[key].command
            && command.Issue?)
      && refusal in {None, Some(IdempotencyConflict), Some(SecretNotRecoverable)}
  {
  }

  function ByTransaction(t: nat): Event -> bool
  {
    (e: Event) => e.t == t
  }

  /** The events of one transaction within a run, in order. */
  function Own(t: nat, es: seq<Event>): seq<Event>
  {
    Keep(ByTransaction(t), es)
  }

  lemma OwnAppend(t: nat, es: seq<Event>, fs: seq<Event>)
    ensures Own(t, es + fs) == Own(t, es) + Own(t, fs)
  {
    KeepAppend(ByTransaction(t), es, fs);
  }

  lemma OwnOne(e: Event)
    ensures Own(e.t, [e]) == [e]
  {
    assert [e][..0] == [];
    assert Keep(ByTransaction(e.t), [e]) == Keep(ByTransaction(e.t), []) + [e];
  }

  predicate Elsewhere(t: nat, es: seq<Event>)
  {
    forall i | 0 <= i < |es| :: es[i].t != t
  }

  lemma OwnElsewhere(t: nat, es: seq<Event>)
    requires Elsewhere(t, es)
    ensures Own(t, es) == []
  {
    KeepNone(ByTransaction(t), es);
  }

  /** What other transactions do does not touch transaction `t`. */
  lemma {:induction false} OthersKeep(h: Hashes, s: System, t: nat, es: seq<Event>)
    requires Elsewhere(t, es)
    ensures (t in Run(h, s, es).running) == (t in s.running)
    ensures t in s.running ==> Run(h, s, es).running[t] == s.running[t]
    decreases |es|
  {
    hide Statement, Over;
    if es != [] {
      OthersKeep(h, After(h, s, es[0]), t, es[1..]);
    }
  }

  /** Everything the database has gone through since it was empty, and where it stands. */
  class DelegationStore {
    const hashes: Hashes
    var system: System
    ghost var trace: seq<Event>

    ghost predicate Valid()
      reads this
    {
      system == Run(hashes, Empty, trace)
    }

    constructor (hashes: Hashes)
      ensures Valid() && trace == [] && this.hashes == hashes
    {
      this.hashes := hashes;
      system := Empty;
      trace := [];
    }

    /** Time passes: other transactions run. */
    method Wait(t: nat, others: seq<Event>)
      requires Valid() && Elsewhere(t, others)
      modifies this
      ensures Valid() && trace == old(trace) + others
      ensures Own(t, trace) == Own(t, old(trace))
      ensures (t in system.running) == (t in old(system).running)
      ensures t in system.running ==> system.running[t] == old(system).running[t]
    {
      OthersKeep(hashes, system, t, others);
      RunsCompose(hashes, Empty, trace, others);
      OwnAppend(t, trace, others);
      OwnElsewhere(t, others);
      system := Run(hashes, system, others);
      trace := trace + others;
    }

    /** One statement, if it can run now. */
    method Query(e: Event) returns (ok: bool)
      requires Valid()
      modifies this
      ensures Valid() && trace == old(trace) + [e] && system == After(hashes, old(system), e)
      ensures ok == Next(hashes, old(system), e).Some?
      ensures Own(e.t, trace) == Own(e.t, old(trace)) + [e]
    {
      hide Next;
      RunsCompose(hashes, Empty, trace, [e]);
      assert Run(hashes, system, [e]) == After(hashes, system, e) by { RunOne(hashes, system, e); }
      OwnAppend(e.t, trace, [e]);
      OwnOne(e);
      ok := Next(hashes, system, e).Some?;
      system := After(hashes, system, e);
      trace := trace + [e];
    }
  }

  lemma RunOne(h: Hashes, s: System, e: Event)
    ensures Run(h, s, [e]) == After(h, s, e)
  {
    hide After;
    assert [e][1..] == [];
    assert Run(h, After(h, s, e), []) == After(h, s, e);
  }

  /** What a call meets: what happens elsewhere before each of its statements, what the live authorization
      and delegate checks say, and the id and clock it draws. */
  datatype Surroundings = Surroundings(others: seq<seq<Event>>, authorized: bool, delegateLive: bool, id: Id, now: int)

  /** The surroundings leave the transaction of the call alone. */
  predicate Fair(t: nat, w: Surroundings)
  {
    |w.others| == 9 && forall i | 0 <= i < |w.others| :: Elsewhere(t, w.others[i])
  }

  /** A refusal that the rows do not explain: of the live checks, of a lock, or of an id already in use. */
  predicate FromOutside(e: Error)
  {
    e == NotAuthorized || e == Unavailable
  }

  /** What a statement that ran means for its own transaction. */
  ghost predicate Advanced(e: Event, tx: Transaction, after: Transaction)
  {
    && after.key == tx.key && after.command == tx.command
    && match e
       case LockDelegation(_, _) => after.phase.Locked? && (tx.command.Issue? || tx.command.Revoke?) && after.delegation == Some(tx.command.delegation)
       case LockOwningDelegation(_) => after.phase.Locked?
       case MarkDelegation(_) => after.phase.Marked? && after.delegation == tx.delegation
       case RevokeActive(_, first) =>
         after.delegation == tx.delegation && (if tx.phase.Marked? then after.phase.Written? else after.phase == Cleared(first))
       case InsertCredential(_, id, _) =>
         && tx.delegation.Some? && id in after.writes.credentials
         && after.writes.credentials[id].delegation == tx.delegation.value && tx.command.Issue?
         && (if tx.command.rotate then tx.phase.Cleared? && after.phase == Inserted(tx.phase.previous, id)
             else after.phase.Written? && after.phase.reply.CredentialIssued?
                  && after.phase.reply.id == id && after.phase.reply.delegation == tx.delegation.value)
       case LinkRotation(_) =>
         && tx.phase.Inserted? && tx.phase.id in tx.writes.credentials
         && after.phase.Written? && after.phase.reply.CredentialIssued? && after.phase.reply.id == tx.phase.id
         && after.phase.reply.delegation == tx.writes.credentials[tx.phase.id].delegation
       case InsertDelegation(_, id, now) =>
         && tx.command.Create? && after.phase.Written? && after.phase.reply.DelegationCreated? && after.phase.reply.id == id
         && after.phase.reply.view.expiresAt == now + tx.command.seconds
       case MarkCredential(_) => after.phase.Written?
       case Record(_) => after.phase.Recorded?
       case _ => true
  }

  /** Statements after the key has been read. */
  predicate IsStatement(e: Event)
  {
    !e.Begin? && !e.Commit? && !e.Abort?
  }

  lemma StatementAdvances(h: Hashes, s: System, tx: Transaction, e: Event, after: Transaction)
    requires Statement(h, s, e.t, tx, e) == Some(after)
    ensures Advanced(e, tx, after)
  {
    hide KeyFree, DelegationFree, CredentialsFree, CredentialIdFree, DelegationIdFree, MayProceed;
  }

  /** The last event, a commit, has done what the command says. */
  ghost predicate LastEffect(h: Hashes, before: Database, after: Database, trace: seq<Event>, t: nat, key: string,
                             command: Command, reply: Reply)
  {
    trace != [] && Effect(h, before, after, trace[..|trace| - 1], t, key, command, reply)
  }

  lemma ReplayedIsStored(h: Hashes, es: seq<Event>, t: nat)
    requires var s := Run(h, Empty, es); t in s.running && s.running[t].phase.Replayed?
    ensures var s := Run(h, Empty, es); var tx := s.running[t];
      && tx.key in s.db.outbox && s.db.outbox[tx.key].reply == tx.phase.reply
      && s.db.outbox[tx.key].requestHash == h.request(tx.command) && tx.writes == Nothing && Over(s.db, tx.writes) == s.db
  {
    hide Run, Sound, TransactionOk;
    EmptyIsSound(h);
    RunKeepsSound(h, Empty, es);
    var s := Run(h, Empty, es);
    SoundTransaction(h, s, t);
    ReplayedIsOk(h, s.db, s.nextIssue, s.running[t]);
  }

  lemma ReplayedIsOk(h: Hashes, db: Database, next: nat, tx: Transaction)
    requires TransactionOk(h, db, next, tx) && tx.phase.Replayed?
    ensures tx.key in db.outbox && db.outbox[tx.key] == Stored(tx.command.Name(), h.request(tx.command), tx.phase.reply)
    ensures tx.writes == Nothing && Over(db, tx.writes) == db
  {
    hide WritesWithin, PhaseOk;
  }

  class PlatformDelegationService {
    const store: DelegationStore

    constructor (store: DelegationStore)
      ensures this.store == store
    {
      this.store := store;
    }

    /** The transaction `t` of a call has failed and rolled back. */
    twostate predicate Failed(t: nat, own: seq<Event>)
      reads store
    {
      && t !in store.system.running && Commit(t) !in own
      && Own(t, store.trace) == Own(t, old(store.trace)) + own
    }

    /** The transaction of a call has committed, and its reply is the last answer given. */
    twostate predicate Committed(t: nat, key: string, command: Command, reply: Reply, own: seq<Event>)
      reads store
    {
      && t !in store.system.running && Own(t, store.trace) == Own(t, old(store.trace)) + own
      && store.system.answers != []
      && store.system.answers[|store.system.answers| - 1] == Answer(key, command, reply)
    }

    /** The last commit has done what the command says to the rows before it, and nothing else. */
    ghost predicate Did(t: nat, key: string, command: Command, reply: Reply)
      reads store
    {
      exists before :: LastEffect(store.hashes, before, store.system.db, store.trace, t, key, command, reply)
    }

    /** The key had been answered before, for the same request. */
    ghost predicate Repeated(key: string, command: Command, reply: Reply)
      reads store
    {
      && key in store.system.db.outbox && store.system.db.outbox[key].reply == reply
      && store.system.db.outbox[key].requestHash == store.hashes.request(command)
    }

    /** A failed call rolls back. */
    method Fail(t: nat)
      requires store.Valid() && t in store.system.running
      modifies store
      ensures store.Valid() && t !in store.system.running && store.system.db == old(store.system.db)
      ensures Own(t, store.trace) == Own(t, old(store.trace)) + [Abort(t)]
    {
      var _ := store.Query(Abort(t));
    }

    /** One statement of the transaction, once it has waited its turn; if it cannot run, the transaction
        rolls back. */
    method Perform(e: Event, others: seq<Event>) returns (ok: bool, ghost own: seq<Event>)
      requires store.Valid() && e.t in store.system.running && Elsewhere(e.t, others) && IsStatement(e)
      modifies store
      ensures store.Valid() && Own(e.t, store.trace) == Own(e.t, old(store.trace)) + own
      ensures own == if ok then [e] else [e, Abort(e.t)]
      ensures ok <==> e.t in store.system.running
      ensures ok ==> Advanced(e, old(store.system.running[e.t]), store.system.running[e.t])
    {
      hide Run, Own, Statement, Advanced;
      var tx := store.system.running[e.t];
      store.Wait(e.t, others);
      var before := store.system;
      ok := store.Query(e);
      own := [e];
      if ok {
        StatementAdvances(store.hashes, before, tx, e, store.system.running[e.t]);
      } else {
        Fail(e.t);
        own := own + [Abort(e.t)];
      }
    }

    /** Begin, take the lock of the idempotency key and look for a stored row; the stored reply, if any. */
    method ReadReplay(t: nat, key: string, command: Command, w: Surroundings)
      returns (r: Result<Option<Reply>, Error>, ghost own: seq<Event>)
      requires store.Valid() && t !in store.system.running && Fair(t, w)
      modifies store
      ensures store.Valid()
      ensures r.Err? ==> Failed(t, own)
      ensures r.Err? ==> FromOutside(r.error) || KeyRefusal(store.hashes, store.system.db, key, command) == Some(r.error)
      ensures r.Ok? ==> t in store.system.running && Own(t, store.trace) == Own(t, old(store.trace)) + own
      ensures r.Ok? ==> own == [Begin(t, key, command), LockKey(t), ReadKey(t)]
      ensures r.Ok? ==> store.system.running[t]
                        == Transaction(key, command, if r.value.None? then Fresh else Replayed(r.value.value), None, None, Nothing)
      ensures r.Ok? && command.Issue? ==> r.value.None?
    {
      hide Run, Own, KeyFree;
      own := [Begin(t, key, command)];
      var began := store.Query(Begin(t, key, command));
      if !w.authorized {
        Fail(t);
        own := own + [Abort(t)];
        return Err(NotAuthorized), own;
      }
      store.Wait(t, w.others[0]);
      own := own + [LockKey(t)];
      var locked := store.Query(LockKey(t));
      if !locked {
        Fail(t);
        own := own + [Abort(t)];
        return Err(Unavailable), own;
      }
      store.Wait(t, w.others[1]);
      var refusal := KeyRefusal(store.hashes, store.system.db, key, command);
      if refusal.Some? {
        Fail(t);
        own := own + [Abort(t)];
        return Err(refusal.value), own;
      }
      own := own + [ReadKey(t)];
      var read := store.Query(ReadKey(t));
      var phase := store.system.running[t].phase;
      r := Ok(if phase.Replayed? then Some(phase.reply) else None);
    }

    /** Write the outbox row and commit. */
    method RecordMutation(t: nat, w: Surroundings) returns (reply: Reply, ghost own: seq<Event>)
      requires store.Valid() && Fair(t, w) && t in store.system.running && store.system.running[t].phase.Written?
      modifies store
      ensures store.Valid() && own == [Record(t), Commit(t)]
      ensures reply == old(store.system.running[t].phase.reply)
      ensures Committed(t, old(store.system.running[t].key), old(store.system.running[t].command), reply, own)
      ensures Did(t, old(store.system.running[t].key), old(store.system.running[t].command), reply)
    {
      hide Run, Own, Effect;
      reply := store.system.running[t].phase.reply;
      ghost var key, command := store.system.running[t].key, store.system.running[t].command;
      store.Wait(t, w.others[7]);
      var recorded := store.Query(Record(t));
      store.Wait(t, w.others[8]);
      ghost var before, trace := store.system.db, store.trace;
      CommitsDoExactly(store.hashes, trace, t);
      var committed := store.Query(Commit(t));
      assert store.trace[..|store.trace| - 1] == trace;
      assert LastEffect(store.hashes, before, store.system.db, store.trace, t, key, command, reply);
      own := [Record(t), Commit(t)];
    }

    /** Commit a transaction that has only found its stored reply. */
    method CommitReplay(t: nat, w: Surroundings) returns (ghost own: seq<Event>)
      requires store.Valid() && Fair(t, w) && t in store.system.running && store.system.running[t].phase.Replayed?
      modifies store
      ensures store.Valid() && own == [Commit(t)]
      ensures Committed(t, old(store.system.running[t].key), old(store.system.running[t].command),
                        old(store.system.running[t].phase.reply), own)
      ensures Repeated(old(store.system.running[t].key), old(store.system.running[t].command),
                       old(store.system.running[t].phase.reply))
    {
      hide Run, Own;
      store.Wait(t, w.others[8]);
      ReplayedIsStored(store.hashes, store.trace, t);
      var committed := store.Query(Commit(t));
      own := [Commit(t)];
    }

    method CreateDelegation(t: nat, key: string, command: Command, w: Surroundings)
      returns (r: Result<Reply, Error>, ghost own: seq<Event>)
      requires store.Valid() && t !in store.system.running && Fair(t, w) && command.Create?
      modifies store
      ensures store.Valid()
      ensures r.Err? ==> Failed(t, own)
      ensures r.Err? ==> FromOutside(r.error) || KeyRefusal(store.hashes, store.system.db, key, command) == Some(r.error)
      ensures r.Ok? ==> Committed(t, key, command, r.value, own)
      ensures r.Ok? ==>
        own == [Begin(t, key, command), LockKey(t), ReadKey(t), Commit(t)]
        || own == [Begin(t, key, command), LockKey(t), ReadKey(t), InsertDelegation(t, w.id, w.now), Record(t), Commit(t)]
      ensures r.Ok? ==>
        if |own| == 4 then Repeated(key, command, r.value)
        else Did(t, key, command, r.value) && r.value.DelegationCreated? && r.value.id == w.id
             && r.value.view.expiresAt == w.now + command.seconds
    {
      hide Run, Own, KeyRefusal, Statement, Effect;
      var replay;
      replay, own := ReadReplay(t, key, command, w);
      if replay.Err? { return Err(replay.error), own; }
      if replay.value.Some? {
        ghost var last := CommitReplay(t, w);
        return Ok(replay.value.value), own + last;
      }
      var inserted, insertedOwn := Perform(InsertDelegation(t, w.id, w.now), w.others[2]);
      own := own + insertedOwn;
      if !inserted { return Err(Unavailable), own; }
      ghost var last;
      var reply;
      reply, last := RecordMutation(t, w);
      return Ok(reply), own + last;
    }

    /** Any one of a set of ids: the row an update happens to return first. */
    method SomeOf(ids: set<Id>) returns (first: Option<Id>)
      ensures IsOneOf(first, ids)
    {
      if ids == {} { return None; }
      var id :| id in ids;
      first := Some(id);
    }

    /** Open a call on existing rows: look for a stored reply, check the row and lock it. The stored reply,
        if any; the row is locked if there is none. */
    method OpenRow(t: nat, key: string, command: Command, w: Surroundings)
      returns (r: Result<Option<Reply>, Error>, ghost own: seq<Event>)
      requires store.Valid() && t !in store.system.running && Fair(t, w) && !command.Create?
      modifies store
      ensures store.Valid()
      ensures r.Err? ==> Failed(t, own)
      ensures r.Err? ==> Refused(store.hashes, store.system.db, key, command, w.now, r.error)
      ensures r.Ok? ==> t in store.system.running && Own(t, store.trace) == Own(t, old(store.trace)) + own
      ensures r.Ok? ==> store.system.running[t].key == key && store.system.running[t].command == command
      ensures r.Ok? && r.value.Some? ==>
        store.system.running[t].phase == Replayed(r.value.value) && own == Opening(t, key, command) && !command.Issue?
      ensures r.Ok? && r.value.None? ==>
        store.system.running[t].phase.Locked? && own == Opening(t, key, command) + Locking(t, command, w.now)
        && (!command.RevokeOne? ==> store.system.running[t].delegation == Some(command.delegation))
    {
      hide Run, Own, KeyRefusal, Statement;
      r, own := ReadReplay(t, key, command, w);
      if r.Err? || r.value.Some? { return; }
      store.Wait(t, w.others[2]);
      var refusal := RowRefusal(store.system.db, command, w.now);
      if refusal.Some? {
        Fail(t);
        own := own + [Abort(t)];
        return Err(refusal.value), own;
      }
      if command.RevokeOne? {
        var rowLocked, rowOwn := Perform(LockCredential(t), []);
        own := own + rowOwn;
        if !rowLocked { return Err(Unavailable), own; }
      }
      var locked, lockedOwn := Perform(if command.RevokeOne? then LockOwningDelegation(t) else LockDelegation(t, w.now), []);
      own := own + lockedOwn;
      if !locked { return Err(Unavailable), own; }
    }

    /** Issue a credential, or rotate the active one. */
    method IssueCredential(t: nat, key: string, command: Command, w: Surroundings)
      returns (r: Result<Reply, Error>, ghost own: seq<Event>)
      requires store.Valid() && t !in store.system.running && Fair(t, w) && command.Issue?
      modifies store
      ensures store.Valid()
      ensures r.Err? ==> Failed(t, own)
      ensures r.Err? ==>
        Refused(store.hashes, store.system.db, key, command, w.now, r.error)
        || (r.error == StateConflict && command.rotate && ActiveIn(store.system.db.credentials, command.delegation) == {})
      ensures r.Ok? ==> Committed(t, key, command, r.value, own)
      ensures r.Ok? ==> r.value.CredentialIssued? && r.value.id == w.id && r.value.delegation == command.delegation
      ensures r.Ok? ==> Did(t, key, command, r.value)
      ensures r.Ok? ==> exists first: Option<Id> ::
        own == Opening(t, key, command) + Locking(t, command, w.now)
               + ([RevokeActive(t, first), InsertCredential(t, w.id, w.now)]
                  + (if command.rotate then [LinkRotation(t)] else [])) + [Record(t), Commit(t)]
    {
      hide Run, Own, Statement, Locking, Refused, Effect;
      var found;
      found, own := OpenRow(t, key, command, w);
      if found.Err? { return Err(found.error), own; }
      if !w.delegateLive {
        Fail(t);
        RefusedFromOutside(store.hashes, store.system.db, key, command, w.now, NotAuthorized);
        return Err(NotAuthorized), FailedOwn(t, key, command, w.now, own, [Abort(t)]);
      }
      store.Wait(t, w.others[3]);
      var active := ActiveIn(store.system.db.credentials, command.delegation);
      if command.rotate && active == {} {
        Fail(t);
        return Err(StateConflict), FailedOwn(t, key, command, w.now, own, [Abort(t)]);
      }
      var first := SomeOf(active);
      var written, writtenOwn := WriteCredential(t, first, w);
      if !written {
        RefusedFromOutside(store.hashes, store.system.db, key, command, w.now, Unavailable);
        return Err(Unavailable), FailedOwn(t, key, command, w.now, own, writtenOwn);
      }
      own := own + writtenOwn;
      var reply, last := RecordMutation(t, w);
      return Ok(reply), own + last;
    }

    /** Revoke what is active, insert the new credential, and link the rotated one to it. */
    method WriteCredential(t: nat, first: Option<Id>, w: Surroundings) returns (ok: bool, ghost own: seq<Event>)
      requires store.Valid() && Fair(t, w) && t in store.system.running && store.system.running[t].phase.Locked?
      requires store.system.running[t].command.Issue? && store.system.running[t].delegation.Some?
      modifies store
      ensures store.Valid() && Own(t, store.trace) == Own(t, old(store.trace)) + own
      ensures ok <==> t in store.system.running
      ensures !ok ==> Commit(t) !in own
      ensures ok ==> own == [RevokeActive(t, first), InsertCredential(t, w.id, w.now)]
                            + (if old(store.system.running[t].command.rotate) then [LinkRotation(t)] else [])
      ensures ok ==>
        var tx := store.system.running[t];
        tx.key == old(store.system.running[t].key) && tx.command == old(store.system.running[t].command)
        && tx.phase.Written? && tx.phase.reply.CredentialIssued? && tx.phase.reply.id == w.id
        && Some(tx.phase.reply.delegation) == old(store.system.running[t].delegation)
    {
      hide Run, Own, Statement;
      var rotate := store.system.running[t].command.rotate;
      ok, own := Perform(RevokeActive(t, first), []);
      if !ok { return; }
      ghost var insertedOwn;
      ok, insertedOwn := Perform(InsertCredential(t, w.id, w.now), w.others[4]);
      own := own + insertedOwn;
      if !ok || !rotate { return; }
      ghost var linkedOwn;
      ok, linkedOwn := Perform(LinkRotation(t), w.others[5]);
      own := own + linkedOwn;
    }

    method RevokeDelegation(t: nat, key: string, command: Command, w: Surroundings)
      returns (r: Result<Reply, Error>, ghost own: seq<Event>)
      requires store.Valid() && t !in store.system.running && Fair(t, w) && command.Revoke?
      modifies store
      ensures store.Valid()
      ensures r.Err? ==> Failed(t, own) && Refused(store.hashes, store.system.db, key, command, w.now, r.error)
      ensures r.Ok? ==> if own == Opening(t, key, command) + [Commit(t)] then Repeated(key, command, r.value)
                        else Did(t, key, command, r.value)
      ensures r.Ok? ==> Committed(t, key, command, r.value, own)
      ensures r.Ok? ==>
        own == Opening(t, key, command) + [Commit(t)]
        || exists first: Option<Id> ::
             own == Opening(t, key, command) + Locking(t, command, w.now) + [MarkDelegation(t), RevokeActive(t, first)]
                    + [Record(t), Commit(t)]
    {
      hide Run, Own, Statement, Locking, Refused, Effect;
      var found;
      found, own := OpenRow(t, key, command, w);
      if found.Err? { return Err(found.error), own; }
      if found.value.Some? {
        ghost var last := CommitReplay(t, w);
        return Ok(found.value.value), own + last;
      }
      var first, written, writtenOwn := WriteRevocation(t, w);
      if !written {
        RefusedFromOutside(store.hashes, store.system.db, key, command, w.now, Unavailable);
        return Err(Unavailable), FailedOwn(t, key, command, w.now, own, writtenOwn);
      }
      own := own + writtenOwn;
      var reply, last := RecordMutation(t, w);
      return Ok(reply), own + last;
    }

    /** Revoke the delegation and what is active of it. */
    method WriteRevocation(t: nat, w: Surroundings) returns (first: Option<Id>, ok: bool, ghost own: seq<Event>)
      requires store.Valid() && Fair(t, w) && t in store.system.running && store.system.running[t].phase.Locked?
      requires store.system.running[t].command.Revoke?
      requires store.system.running[t].delegation == Some(store.system.running[t].command.delegation)
      modifies store
      ensures store.Valid() && Own(t, store.trace) == Own(t, old(store.trace)) + own
      ensures ok <==> t in store.system.running
      ensures !ok ==> Commit(t) !in own
      ensures ok ==> own == [MarkDelegation(t), RevokeActive(t, first)]
      ensures ok ==>
        var tx := store.system.running[t];
        tx.key == old(store.system.running[t].key) && tx.command == old(store.system.running[t].command) && tx.phase.Written?
    {
      hide Run, Own, Statement;
      var d := store.system.running[t].command.delegation;
      ok, own := Perform(MarkDelegation(t), w.others[3]);
      if !ok { return None, ok, own; }
      store.Wait(t, w.others[4]);
      first := SomeOf(ActiveIn(store.system.db.credentials, d));
      ghost var clearedOwn;
      ok, clearedOwn := Perform(RevokeActive(t, first), []);
      own := own + clearedOwn;
    }

    method RevokeCredential(t: nat, key: string, command: Command, w: Surroundings)
      returns (r: Result<Reply, Error>, ghost own: seq<Event>)
      requires store.Valid() && t !in store.system.running && Fair(t, w) && command.RevokeOne?
      modifies store
      ensures store.Valid()
      ensures r.Err? ==> Failed(t, own) && Refused(store.hashes, store.system.db, key, command, w.now, r.error)
      ensures r.Ok? ==> if own == Opening(t, key, command) + [Commit(t)] then Repeated(key, command, r.value)
                        else Did(t, key, command, r.value)
      ensures r.Ok? ==> Committed(t, key, command, r.value, own)
      ensures r.Ok? ==>
        own == Opening(t, key, command) + [Commit(t)]
        || own == Opening(t, key, command) + Locking(t, command, w.now) + [MarkCredential(t)] + [Record(t), Commit(t)]
    {
      hide Run, Own, Statement, Locking, Refused, Effect;
      var found;
      found, own := OpenRow(t, key, command, w);
      if found.Err? { return Err(found.error), own; }
      if found.value.Some? {
        ghost var last := CommitReplay(t, w);
        return Ok(found.value.value), own + last;
      }
      var marked, markedOwn := Perform(MarkCredential(t), w.others[3]);
      if !marked {
        RefusedFromOutside(store.hashes, store.system.db, key, command, w.now, Unavailable);
        return Err(Unavailable), FailedOwn(t, key, command, w.now, own, markedOwn);
      }
      own := own + markedOwn;
      var reply, last := RecordMutation(t, w);
      return Ok(reply), own + last;
    }
  }

  function Opening(t: nat, key: string, command: Command): seq<Event>
  {
    [Begin(t, key, command), LockKey(t), ReadKey(t)]
  }

  function Locking(t: nat, command: Command, now: int): seq<Event>
  {
    if command.RevokeOne? then [LockCredential(t), LockOwningDelegation(t)] else [LockDelegation(t, now)]
  }

  /** The rows, or something outside them, explain a refusal. */
  predicate Refused(h: Hashes, db: Database, key: string, command: Command, now: int, e: Error)
  {
    FromOutside(e) || KeyRefusal(h, db, key, command) == Some(e) || RowRefusal(db, command, now) == Some(e)
  }

  lemma RefusedFromOutside(h: Hashes, db: Database, key: string, command: Command, now: int, e: Error)
    requires FromOutside(e)
    ensures Refused(h, db, key, command, now, e)
  {
  }

  /** The events of a call that has failed after its row was locked. */
  ghost function FailedOwn(t: nat, key: string, command: Command, now: int, own: seq<Event>, more: seq<Event>): (all: seq<Event>)
    requires own == Opening(t, key, command) + Locking(t, command, now) && Commit(t) !in more
    ensures all == own + more && Commit(t) !in all
  {
    own + more
  }
}
