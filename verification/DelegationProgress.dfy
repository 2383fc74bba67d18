/** The other half of safety: locks are all that delegation commands wait for. A command that the rows allow
    and whose locks nobody else holds runs to its end, statement by statement, and commits. */
module DelegationProgress {
  import opened Outcomes
  import opened DelegationProtocol

  /** Nobody else holds the advisory lock of a key. */
  ghost predicate SlotFree(h: Hashes, s: System, t: nat, key: string)
  {
    forall u | u in s.running && u != t && !s.running[u].phase.Begun? :: h.slot(s.running[u].key) != h.slot(key)
  }

  ghost predicate RowFree(s: System, t: nat, d: Id)
  {
    forall u | u in s.running && u != t :: s.running[u].delegation != Some(d)
  }

  /** Nobody else has locked or updated a credential. */
  ghost predicate CredentialFree(s: System, t: nat, c: Id)
  {
    forall u | u in s.running && u != t :: s.running[u].credential != Some(c) && c !in s.running[u].writes.credentials
  }

  ghost predicate NewId(s: System, id: Id)
  {
    && id !in s.db.delegations && id !in s.db.credentials
    && forall u | u in s.running :: id !in s.running[u].writes.delegations && id !in s.running[u].writes.credentials
  }

  /** The system with transaction `t` at a given point. */
  ghost function With(s: System, t: nat, tx: Transaction, nextIssue: nat): System
  {
    s.(running := s.running[t := tx], nextIssue := nextIssue)
  }

  /** What a call leaves behind when it has committed. */
  ghost predicate WentThrough(s: System, after: System, key: string, command: Command, reply: Reply)
  {
    && after.running == s.running && after.answers == s.answers + [Answer(key, command, reply)]
    && after.mutations == s.mutations + [key]
  }

  lemma Step(h: Hashes, s: System, t: nat, tx: Transaction, n: nat, e: Event, after: Transaction)
    requires e.t == t && !e.Begin? && !e.Commit? && !e.Abort?
    requires Statement(h, With(s, t, tx, n), t, tx, e) == Some(after)
    ensures After(h, With(s, t, tx, n), e) == With(s, t, after, Tick(e, n))
  {
    hide Statement;
    assert With(s, t, tx, n).running[t := after] == s.running[t := after];
  }

  lemma RunOne(h: Hashes, s: System, e: Event)
    ensures Run(h, s, [e]) == After(h, s, e)
  {
    hide After;
    assert [e][1..] == [];
    assert Run(h, After(h, s, e), []) == After(h, s, e);
  }

  lemma RunMore(h: Hashes, s: System, es: seq<Event>, e: Event)
    ensures Run(h, s, es + [e]) == After(h, Run(h, s, es), e)
  {
    hide After;
    RunsCompose(h, s, es, [e]);
    RunOne(h, Run(h, s, es), e);
  }

  /** Where the key's outbox row sends a call: on, or straight to its stored reply. */
  ghost function Opened(db: Database, key: string): Phase
  {
    if key in db.outbox then Replayed(db.outbox[key].reply) else Fresh
  }

  lemma OpeningRuns(h: Hashes, s: System, t: nat, key: string, command: Command)
    requires t !in s.running && SlotFree(h, s, t, key)
    requires key in s.db.outbox ==> !command.Issue? && s.db.outbox[key].requestHash == h.request(command)
                                    && s.db.outbox[key].command == command.Name()
    ensures Run(h, s, [Begin(t, key, command), LockKey(t), ReadKey(t)])
         == With(s, t, Transaction(key, command, Opened(s.db, key), None, None, Nothing), s.nextIssue)
  {
    var begun := Transaction(key, command, Begun, None, None, Nothing);
    var held := begun.(phase := KeyHeld);
    var looked := begun.(phase := Opened(s.db, key));
    assert After(h, s, Begin(t, key, command)) == With(s, t, begun, s.nextIssue);
    Step(h, s, t, begun, s.nextIssue, LockKey(t), held);
    Step(h, s, t, held, s.nextIssue, ReadKey(t), looked);
    hide After, With;
    RunOne(h, s, Begin(t, key, command));
    RunMore(h, s, [Begin(t, key, command)], LockKey(t));
    RunMore(h, s, [Begin(t, key, command), LockKey(t)], ReadKey(t));
    assert [Begin(t, key, command)] + [LockKey(t)] == [Begin(t, key, command), LockKey(t)];
    assert [Begin(t, key, command), LockKey(t)] + [ReadKey(t)] == [Begin(t, key, command), LockKey(t), ReadKey(t)];
  }

  lemma ClosingRuns(h: Hashes, s: System, t: nat, tx: Transaction, n: nat)
    requires t !in s.running && tx.phase.Written?
    ensures WentThrough(s, Run(h, With(s, t, tx, n), [Record(t), Commit(t)]), tx.key, tx.command, tx.phase.reply)
  {
    var row := Stored(tx.command.Name(), h.request(tx.command), tx.phase.reply);
    var recorded := tx.(phase := Recorded(tx.phase.reply), writes := tx.writes.(outbox := map[tx.key := row]));
    var s' := With(s, t, tx, n);
    Step(h, s, t, tx, n, Record(t), recorded);
    RunOne(h, s', Record(t));
    RunMore(h, s', [Record(t)], Commit(t));
    assert [Record(t)] + [Commit(t)] == [Record(t), Commit(t)];
    assert s.running[t := recorded] - {t} == s.running;
    hide Run, Statement;
  }

  /** A call with a key already answered for the same request, unless it issues a secret, gets the stored
      reply and changes no row. */
  lemma RepeatGoesThrough(h: Hashes, s: System, t: nat, key: string, command: Command)
    requires t !in s.running && SlotFree(h, s, t, key) && !command.Issue?
    requires key in s.db.outbox && s.db.outbox[key].requestHash == h.request(command) && s.db.outbox[key].command == command.Name()
    ensures var after := Run(h, s, [Begin(t, key, command), LockKey(t), ReadKey(t)] + [Commit(t)]);
      && after.running == s.running && after.answers == s.answers + [Answer(key, command, s.db.outbox[key].reply)]
      && after.mutations == s.mutations && after.db == s.db
  {
    var looked := Transaction(key, command, Opened(s.db, key), None, None, Nothing);
    OpeningRuns(h, s, t, key, command);
    RunMore(h, s, [Begin(t, key, command), LockKey(t), ReadKey(t)], Commit(t));
    assert s.running[t := looked] - {t} == s.running;
    assert Over(s.db, Nothing) == s.db;
    hide Run, Statement;
  }

  lemma CreationGoesThrough(h: Hashes, s: System, t: nat, key: string, command: Command, id: Id, now: int)
    requires t !in s.running && SlotFree(h, s, t, key) && key !in s.db.outbox && command.Create? && NewId(s, id)
    ensures var es := [Begin(t, key, command), LockKey(t), ReadKey(t)] + [InsertDelegation(t, id, now)] + [Record(t), Commit(t)];
      WentThrough(s, Run(h, s, es), key, command,
                  DelegationCreated(id, Delegation(owner := command.owner, delegate := command.delegate, purpose := command.purpose,
                                                   expiresAt := now + command.seconds, revoked := false, version := 1)))
  {
    var opening, e, closing := [Begin(t, key, command), LockKey(t), ReadKey(t)], InsertDelegation(t, id, now), [Record(t), Commit(t)];
    var looked := Transaction(key, command, Fresh, None, None, Nothing);
    var row := Delegation(owner := command.owner, delegate := command.delegate, purpose := command.purpose,
                          expiresAt := now + command.seconds, revoked := false, version := 1);
    var written := looked.(phase := Written(DelegationCreated(id, row)), writes := Database(map[id := row], map[], map[]));
    OpeningRuns(h, s, t, key, command);
    Step(h, s, t, looked, s.nextIssue, e, written);
    hide Statement, After, With, WentThrough, Run;
    RunMore(h, s, opening, e);
    RunsCompose(h, s, opening + [e], closing);
    ClosingRuns(h, s, t, written, s.nextIssue);
  }

  /** The rows allow an issue or a rotation. */
  ghost predicate MayIssue(s: System, t: nat, command: Command, now: int, first: Option<Id>)
    requires command.Issue?
  {
    var d := command.delegation;
    && d in s.db.delegations && RowFree(s, t, d)
    && var row := s.db.delegations[d];
    && row.owner == command.owner && row.version == command.version && !row.revoked && now < row.expiresAt
    && row.purpose == command.purpose
    && (forall c | c in s.db.credentials && s.db.credentials[c].delegation == d && !s.db.credentials[c].revoked ::
          first.Some? && CredentialFree(s, t, c))
    && (first.Some? ==> first.value in s.db.credentials && s.db.credentials[first.value].delegation == d
                        && !s.db.credentials[first.value].revoked)
    && (command.rotate ==> first.Some?)
  }

  lemma IssueGoesThrough(h: Hashes, s: System, t: nat, key: string, command: Command, first: Option<Id>, id: Id,
                         locked: int, now: int)
    requires t !in s.running && SlotFree(h, s, t, key) && key !in s.db.outbox && command.Issue? && NewId(s, id)
    requires MayIssue(s, t, command, locked, first)
    ensures var d := command.delegation;
      var es := [Begin(t, key, command), LockKey(t), ReadKey(t)] + [LockDelegation(t, locked)] + [RevokeActive(t, first)]
                + [InsertCredential(t, id, now)] + (if command.rotate then [LinkRotation(t)] else []) + [Record(t), Commit(t)];
      var expiresAt := if s.db.delegations[d].expiresAt <= now + 900 then s.db.delegations[d].expiresAt else now + 900;
      WentThrough(s, Run(h, s, es), key, command, CredentialIssued(id, d, expiresAt))
  {
    hide Statement, After, With, WentThrough, Run, SlotFree;
    var opening, closing := [Begin(t, key, command), LockKey(t), ReadKey(t)], [Record(t), Commit(t)];
    var n, d := s.nextIssue, command.delegation;
    var looked := Transaction(key, command, Fresh, None, None, Nothing);
    OpeningRuns(h, s, t, key, command);
    var held := looked.(phase := Locked, delegation := Some(d));
    LockDelegationRuns(h, s, t, looked, locked);
    var cleared := held.(phase := Cleared(first), writes := Database(map[], RevokedRows(s.db.credentials, d), map[]));
    RevokeActiveRuns(h, s, t, held, first);
    var expiresAt := if s.db.delegations[d].expiresAt <= now + 900 then s.db.delegations[d].expiresAt else now + 900;
    var row := Credential(d, expiresAt, false, None, n);
    var written := InsertCredentialRuns(h, s, t, cleared, id, now, row);
    RunMore(h, s, opening, LockDelegation(t, locked));
    RunMore(h, s, opening + [LockDelegation(t, locked)], RevokeActive(t, first));
    var so := opening + [LockDelegation(t, locked)] + [RevokeActive(t, first)];
    RunMore(h, s, so, InsertCredential(t, id, now));
    so := so + [InsertCredential(t, id, now)];
    if command.rotate {
      var linked := LinkRotationRuns(h, s, t, written, id, row);
      RunMore(h, s, so, LinkRotation(t));
      RunsCompose(h, s, so + [LinkRotation(t)], closing);
      ClosingRuns(h, s, t, linked, n + 1);
    } else {
      assert so + [] == so;
      RunsCompose(h, s, so, closing);
      ClosingRuns(h, s, t, written, n + 1);
    }
  }

  lemma LockDelegationRuns(h: Hashes, s: System, t: nat, tx: Transaction, now: int)
    requires t !in s.running && tx.phase.Fresh? && tx.delegation.None?
    requires match tx.command
             case Issue(_, _, d, _, _) => exists first :: MayIssue(s, t, tx.command, now, first)
             case Revoke(_, _, d, _) => MayRevoke(s, t, tx.command)
             case _ => false
    ensures tx.command.Issue? || tx.command.Revoke?
    ensures After(h, With(s, t, tx, s.nextIssue), LockDelegation(t, now))
         == With(s, t, tx.(phase := Locked, delegation := Some(tx.command.delegation)), s.nextIssue)
  {
    Step(h, s, t, tx, s.nextIssue, LockDelegation(t, now), tx.(phase := Locked, delegation := Some(tx.command.delegation)));
  }

  lemma RevokeActiveRuns(h: Hashes, s: System, t: nat, tx: Transaction, first: Option<Id>)
    requires t !in s.running && tx.phase.Locked? && tx.command.Issue? && tx.delegation == Some(tx.command.delegation)
    requires tx.writes == Nothing && exists now :: MayIssue(s, t, tx.command, now, first)
    ensures After(h, With(s, t, tx, s.nextIssue), RevokeActive(t, first))
         == With(s, t, tx.(phase := Cleared(first),
                           writes := Database(map[], RevokedRows(s.db.credentials, tx.command.delegation), map[])), s.nextIssue)
  {
    var d := tx.command.delegation;
    assert CredentialsFree(With(s, t, tx, s.nextIssue), t, ActiveIn(s.db.credentials, d));
    Step(h, s, t, tx, s.nextIssue, RevokeActive(t, first),
         tx.(phase := Cleared(first), writes := Database(map[], RevokedRows(s.db.credentials, d), map[])));
  }

  lemma InsertCredentialRuns(h: Hashes, s: System, t: nat, tx: Transaction, id: Id, now: int, row: Credential)
    returns (after: Transaction)
    requires t !in s.running && tx.phase.Cleared? && tx.command.Issue? && tx.delegation.Some? && NewId(s, id)
    requires id !in tx.writes.credentials && tx.delegation.value in s.db.delegations
    requires var d := tx.delegation.value;
             var expires := s.db.delegations[d].expiresAt;
             row == Credential(d, if expires <= now + 900 then expires else now + 900, false, None, s.nextIssue)
    ensures after == tx.(phase := if tx.command.rotate then Inserted(tx.phase.previous, id)
                                  else Written(CredentialIssued(id, tx.delegation.value, row.expiresAt)),
                         writes := tx.writes.(credentials := tx.writes.credentials[id := row]))
    ensures After(h, With(s, t, tx, s.nextIssue), InsertCredential(t, id, now)) == With(s, t, after, s.nextIssue + 1)
  {
    after := tx.(phase := if tx.command.rotate then Inserted(tx.phase.previous, id)
                          else Written(CredentialIssued(id, tx.delegation.value, row.expiresAt)),
                 writes := tx.writes.(credentials := tx.writes.credentials[id := row]));
    Step(h, s, t, tx, s.nextIssue, InsertCredential(t, id, now), after);
  }

  lemma LinkRotationRuns(h: Hashes, s: System, t: nat, tx: Transaction, id: Id, row: Credential)
    returns (after: Transaction)
    requires t !in s.running && tx.phase.Inserted? && tx.phase.previous.Some? && tx.phase.id == id
    requires id in tx.writes.credentials && tx.writes.credentials[id] == row
    ensures after.key == tx.key && after.command == tx.command
    ensures after.phase == Written(CredentialIssued(id, row.delegation, row.expiresAt))
    ensures After(h, With(s, t, tx, s.nextIssue + 1), LinkRotation(t)) == With(s, t, after, s.nextIssue + 1)
  {
    after := Statement(h, With(s, t, tx, s.nextIssue + 1), t, tx, LinkRotation(t)).value;
    Step(h, s, t, tx, s.nextIssue + 1, LinkRotation(t), after);
  }

  /** The rows allow the revocation of a delegation. */
  ghost predicate MayRevoke(s: System, t: nat, command: Command)
    requires command.Revoke?
  {
    var d := command.delegation;
    && d in s.db.delegations && RowFree(s, t, d) && s.db.delegations[d].owner == command.owner
    && (s.db.delegations[d].revoked || s.db.delegations[d].version == command.version)
    && forall c | c in s.db.credentials && s.db.credentials[c].delegation == d && !s.db.credentials[c].revoked ::
         CredentialFree(s, t, c)
  }

  lemma RevocationGoesThrough(h: Hashes, s: System, t: nat, key: string, command: Command, first: Option<Id>, now: int)
    requires t !in s.running && SlotFree(h, s, t, key) && key !in s.db.outbox && command.Revoke?
    requires MayRevoke(s, t, command)
    requires if first.Some? then first.value in ActiveIn(s.db.credentials, command.delegation)
             else ActiveIn(s.db.credentials, command.delegation) == {}
    ensures var d := command.delegation;
      var es := [Begin(t, key, command), LockKey(t), ReadKey(t)] + [LockDelegation(t, now)] + [MarkDelegation(t)]
                + [RevokeActive(t, first)] + [Record(t), Commit(t)];
      var row := s.db.delegations[d];
      WentThrough(s, Run(h, s, es), key, command, DelegationRevoked(d, if row.revoked then row.version else row.version + 1))
  {
    hide Statement, After, With, WentThrough, Run, SlotFree;
    var opening, closing := [Begin(t, key, command), LockKey(t), ReadKey(t)], [Record(t), Commit(t)];
    var n, d := s.nextIssue, command.delegation;
    var looked := Transaction(key, command, Fresh, None, None, Nothing);
    OpeningRuns(h, s, t, key, command);
    var held := looked.(phase := Locked, delegation := Some(d));
    LockDelegationRuns(h, s, t, looked, now);
    var marked, written := MarkAndClearRun(h, s, t, held, first);
    RunMore(h, s, opening, LockDelegation(t, now));
    RunMore(h, s, opening + [LockDelegation(t, now)], MarkDelegation(t));
    var so := opening + [LockDelegation(t, now)] + [MarkDelegation(t)];
    RunMore(h, s, so, RevokeActive(t, first));
    RunsCompose(h, s, so + [RevokeActive(t, first)], closing);
    ClosingRuns(h, s, t, written, n);
  }

  lemma MarkRuns(h: Hashes, s: System, t: nat, tx: Transaction) returns (marked: Transaction)
    requires t !in s.running && tx.phase.Locked? && tx.command.Revoke? && tx.delegation == Some(tx.command.delegation)
    requires tx.writes == Nothing && tx.command.delegation in s.db.delegations
    ensures After(h, With(s, t, tx, s.nextIssue), MarkDelegation(t)) == With(s, t, marked, s.nextIssue)
    ensures marked == tx.(phase := Marked, writes := marked.writes)
    ensures var d := tx.command.delegation; var row := s.db.delegations[d];
      marked.writes == Database(if row.revoked then map[] else map[d := row.(revoked := true, version := row.version + 1)], map[], map[])
  {
    marked := Statement(h, With(s, t, tx, s.nextIssue), t, tx, MarkDelegation(t)).value;
    Step(h, s, t, tx, s.nextIssue, MarkDelegation(t), marked);
  }

  lemma ActiveAreFree(s: System, t: nat, tx: Transaction)
    requires tx.command.Revoke? && MayRevoke(s, t, tx.command)
    ensures CredentialsFree(With(s, t, tx, s.nextIssue), t, ActiveIn(s.db.credentials, tx.command.delegation))
  {
  }

  lemma MarkAndClearRun(h: Hashes, s: System, t: nat, tx: Transaction, first: Option<Id>)
    returns (marked: Transaction, written: Transaction)
    requires t !in s.running && tx.phase.Locked? && tx.command.Revoke? && tx.delegation == Some(tx.command.delegation)
    requires tx.writes == Nothing && MayRevoke(s, t, tx.command) && tx.command.delegation in s.db.delegations
    requires IsOneOf(first, ActiveIn(s.db.credentials, tx.command.delegation))
    ensures After(h, With(s, t, tx, s.nextIssue), MarkDelegation(t)) == With(s, t, marked, s.nextIssue)
    ensures After(h, With(s, t, marked, s.nextIssue), RevokeActive(t, first)) == With(s, t, written, s.nextIssue)
    ensures written.key == tx.key && written.command == tx.command
    ensures var row := s.db.delegations[tx.command.delegation];
      written.phase == Written(DelegationRevoked(tx.command.delegation, if row.revoked then row.version else row.version + 1))
  {
    var n, d := s.nextIssue, tx.command.delegation;
    marked := MarkRuns(h, s, t, tx);
    ActiveAreFree(s, t, marked);
    hide CredentialsFree, ActiveIn, MayRevoke, RevokedRows;
    written := Statement(h, With(s, t, marked, n), t, marked, RevokeActive(t, first)).value;
    Step(h, s, t, marked, n, RevokeActive(t, first), written);
  }

  lemma CredentialRevocationGoesThrough(h: Hashes, s: System, t: nat, key: string, command: Command)
    requires t !in s.running && SlotFree(h, s, t, key) && key !in s.db.outbox && command.RevokeOne?
    requires var c := command.credential;
      && c in s.db.credentials && CredentialFree(s, t, c)
      && var d := s.db.credentials[c].delegation;
      d in s.db.delegations && RowFree(s, t, d) && s.db.delegations[d].owner == command.owner
    ensures var c := command.credential;
      var es := [Begin(t, key, command), LockKey(t), ReadKey(t)] + [LockCredential(t)] + [LockOwningDelegation(t)]
                + [MarkCredential(t)] + [Record(t), Commit(t)];
      WentThrough(s, Run(h, s, es), key, command, CredentialRevoked(c, s.db.credentials[c].delegation))
  {
    var opening, closing := [Begin(t, key, command), LockKey(t), ReadKey(t)], [Record(t), Commit(t)];
    var n, c := s.nextIssue, command.credential;
    var looked := Transaction(key, command, Fresh, None, None, Nothing);
    OpeningRuns(h, s, t, key, command);
    var rowHeld := looked.(phase := CredentialHeld, credential := Some(c));
    Step(h, s, t, looked, n, LockCredential(t), rowHeld);
    var held := rowHeld.(phase := Locked, delegation := Some(s.db.credentials[c].delegation));
    Step(h, s, t, rowHeld, n, LockOwningDelegation(t), held);
    var written := Statement(h, With(s, t, held, n), t, held, MarkCredential(t)).value;
    Step(h, s, t, held, n, MarkCredential(t), written);
    hide Statement, After, With, WentThrough, Run, SlotFree;
    RunMore(h, s, opening, LockCredential(t));
    RunMore(h, s, opening + [LockCredential(t)], LockOwningDelegation(t));
    var so := opening + [LockCredential(t)] + [LockOwningDelegation(t)];
    RunMore(h, s, so, MarkCredential(t));
    RunsCompose(h, s, so + [MarkCredential(t)], closing);
    ClosingRuns(h, s, t, written, n);
  }
}
