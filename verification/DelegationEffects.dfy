/** What a committed command has done to the rows, told in terms of the rows before it, the command and the
    clock its statements read. */
module DelegationEffects {
  import opened Outcomes
  import opened DelegationProtocol
  import opened DelegationSafety
  import opened DelegationRuns

  // --- What a transaction has done so far ------------------------------------------------------------------

  /** What held of the delegation row when it was locked, and holds of it until the transaction ends. */
  ghost predicate Held(rows: map<Id, Credential>, row: Delegation, es: seq<Event>, t: nat, tx: Transaction)
  {
    match tx.command
    case Issue(owner, purpose, d, version, _) =>
      && tx.delegation == Some(d) && row.owner == owner && row.purpose == purpose && row.version == version && !row.revoked
      && exists now :: LockDelegation(t, now) in es && now < row.expiresAt
    case Revoke(owner, _, d, version) =>
      tx.delegation == Some(d) && row.owner == owner && (row.revoked || row.version == version)
    case RevokeOne(owner, _, c) => c in rows && row.owner == owner
    case Create(_, _, _, _) => false
  }

  /** The active rows among `rows`, revoked. */
  ghost function Cleared(rows: map<Id, Credential>): map<Id, Credential>
  {
    map c | c in rows && !rows[c].revoked :: rows[c].(revoked := true)
  }

  ghost predicate ActiveRow(rows: map<Id, Credential>, c: Id)
  {
    c in rows && !rows[c].revoked
  }

  ghost function Expiry(row: Delegation, now: int): int
  {
    if row.expiresAt <= now + 900 then row.expiresAt else now + 900
  }

  /** The new credential `id` has been inserted over the revoked rows. */
  ghost predicate HasInserted(rows: map<Id, Credential>, row: Delegation, es: seq<Event>, t: nat, d: Id, id: Id,
                              credential: Credential)
  {
    && id !in rows
    && (exists now :: InsertCredential(t, id, now) in es && credential.expiresAt == Expiry(row, now))
    && credential == Credential(d, credential.expiresAt, false, None, credential.issue)
  }

  ghost predicate IssueWrites(rows: map<Id, Credential>, row: Delegation, es: seq<Event>, t: nat, tx: Transaction, d: Id,
                              reply: Reply)
  {
    && reply.CredentialIssued? && reply.delegation == d && tx.writes.delegations == map[]
    && reply.id in tx.writes.credentials
    && var credential := tx.writes.credentials[reply.id];
    && HasInserted(rows, row, es, t, d, reply.id, credential) && credential.expiresAt == reply.expiresAt
    && if tx.command.Issue? && tx.command.rotate then
         exists p :: ActiveRow(rows, p)
                     && tx.writes.credentials == Cleared(rows)[reply.id := credential]
                                                 [p := rows[p].(revoked := true, rotatedTo := Some(reply.id))]
       else tx.writes.credentials == Cleared(rows)[reply.id := credential]
  }

  /** What a transaction that has written every row but the outbox row has written. */
  ghost predicate HasWritten(rows: map<Id, Credential>, row: Delegation, es: seq<Event>, t: nat, tx: Transaction, d: Id,
                             reply: Reply)
  {
    match tx.command
    case Issue(_, _, _, _, _) => IssueWrites(rows, row, es, t, tx, d, reply)
    case Revoke(_, _, _, _) =>
      && tx.writes.delegations == MarkedRow(row, d) && tx.writes.credentials == Cleared(rows)
      && reply == DelegationRevoked(d, if row.revoked then row.version else row.version + 1)
    case RevokeOne(_, _, c) =>
      && c in rows && tx.writes.delegations == map[] && reply == CredentialRevoked(c, d)
      && tx.writes.credentials == (if rows[c].revoked then map[] else map[c := rows[c].(revoked := true)])
    case Create(_, _, _, _) => false
  }

  ghost function MarkedRow(row: Delegation, d: Id): map<Id, Delegation>
  {
    if row.revoked then map[] else map[d := row.(revoked := true, version := row.version + 1)]
  }

  ghost predicate DoesWithin(rows: map<Id, Credential>, row: Delegation, es: seq<Event>, t: nat, tx: Transaction, d: Id)
  {
    && Held(rows, row, es, t, tx)
    && match tx.phase
       case Locked => tx.writes == Nothing
       case Marked =>
         tx.command.Revoke? && tx.writes.delegations == MarkedRow(row, d) && tx.writes.credentials == map[]
       case Cleared(previous) =>
         && tx.command.Issue? && tx.writes.delegations == map[] && tx.writes.credentials == Cleared(rows)
         && (if previous.Some? then ActiveRow(rows, previous.value) else !tx.command.rotate)
       case Inserted(previous, id) =>
         && tx.command.Issue? && tx.command.rotate && previous.Some? && ActiveRow(rows, previous.value)
         && tx.writes.delegations == map[] && id in tx.writes.credentials
         && HasInserted(rows, row, es, t, d, id, tx.writes.credentials[id])
         && tx.writes.credentials == Cleared(rows)[id := tx.writes.credentials[id]]
       case Written(reply) => HasWritten(rows, row, es, t, tx, d, reply)
       case Recorded(reply) => HasWritten(rows, row, es, t, tx, d, reply)
       case _ => false
  }

  ghost predicate HasCreated(db: Database, es: seq<Event>, t: nat, tx: Transaction, reply: Reply)
  {
    && tx.command.Create? && reply.DelegationCreated? && reply.id !in db.delegations
    && tx.writes.delegations == map[reply.id := reply.view] && tx.writes.credentials == map[]
    && NewDelegation(es, t, tx.command, reply.id, reply.view)
  }

  ghost predicate NewDelegation(es: seq<Event>, t: nat, command: Command, id: Id, view: Delegation)
    requires command.Create?
  {
    && (view.owner, view.purpose, view.delegate) == (command.owner, command.purpose, command.delegate)
    && !view.revoked && view.version == 1
    && exists now :: InsertDelegation(t, id, now) in es && view.expiresAt == now + command.seconds
  }

  /** What transaction `t` has done so far. */
  ghost predicate Does(db: Database, es: seq<Event>, t: nat, tx: Transaction)
  {
    match tx.delegation
    case Some(d) => d in db.delegations && DoesWithin(RowsOf(db.credentials, d), db.delegations[d], es, t, tx, d)
    case None =>
      match tx.phase
      case Written(reply) => HasCreated(db, es, t, tx, reply)
      case Recorded(reply) => HasCreated(db, es, t, tx, reply)
      case _ => tx.writes == Nothing
  }

  ghost predicate AllDo(s: System, es: seq<Event>)
  {
    forall t | t in s.running :: Does(s.db, es, t, s.running[t])
  }

  // --- Later events do not matter ------------------------------------------------------------------------------

  lemma HasInsertedLater(rows: map<Id, Credential>, row: Delegation, es: seq<Event>, e: Event, t: nat, d: Id, id: Id,
                         credential: Credential)
    requires HasInserted(rows, row, es, t, d, id, credential)
    ensures HasInserted(rows, row, es + [e], t, d, id, credential)
  {
    var now :| InsertCredential(t, id, now) in es && credential.expiresAt == Expiry(row, now);
    assert InsertCredential(t, id, now) in es + [e];
  }

  lemma HeldLater(rows: map<Id, Credential>, row: Delegation, es: seq<Event>, e: Event, t: nat, tx: Transaction)
    requires Held(rows, row, es, t, tx)
    ensures Held(rows, row, es + [e], t, tx)
  {
    if tx.command.Issue? {
      var now :| LockDelegation(t, now) in es && now < row.expiresAt;
      assert LockDelegation(t, now) in es + [e];
    }
  }

  lemma DoesWithinLater(rows: map<Id, Credential>, row: Delegation, es: seq<Event>, e: Event, t: nat, tx: Transaction, d: Id)
    requires DoesWithin(rows, row, es, t, tx, d)
    ensures DoesWithin(rows, row, es + [e], t, tx, d)
  {
    HeldLater(rows, row, es, e, t, tx);
    hide Held, Cleared;
    if tx.phase.Inserted? {
      HasInsertedLater(rows, row, es, e, t, d, tx.phase.id, tx.writes.credentials[tx.phase.id]);
    }
    if (tx.phase.Written? || tx.phase.Recorded?) && tx.command.Issue? {
      HasInsertedLater(rows, row, es, e, t, d, tx.phase.reply.id, tx.writes.credentials[tx.phase.reply.id]);
    }
    hide HasInserted;
  }

  lemma DoesLater(db: Database, es: seq<Event>, e: Event, t: nat, tx: Transaction)
    requires Does(db, es, t, tx)
    ensures Does(db, es + [e], t, tx)
  {
    if tx.delegation.Some? {
      var d := tx.delegation.value;
      DoesWithinLater(RowsOf(db.credentials, d), db.delegations[d], es, e, t, tx, d);
    } else if tx.phase.Written? || tx.phase.Recorded? {
      var id, view := tx.phase.reply.id, tx.phase.reply.view;
      var now :| InsertDelegation(t, id, now) in es && view.expiresAt == now + tx.command.seconds;
      assert InsertDelegation(t, id, now) in es + [e];
    }
    hide DoesWithin, RowsOf;
  }

  // --- One statement ----------------------------------------------------------------------------------------------

  lemma RevokedRowsAre(creds: map<Id, Credential>, d: Id)
    ensures RevokedRows(creds, d) == Cleared(RowsOf(creds, d))
    ensures forall c :: c in ActiveIn(creds, d) <==> ActiveRow(RowsOf(creds, d), c)
  {
  }

  lemma LockDoes(h: Hashes, s: System, es: seq<Event>, tx: Transaction, e: Event, after: Transaction)
    requires e.LockDelegation? || e.LockOwningDelegation?
    requires Does(s.db, es, e.t, tx) && tx.delegation.None? && tx.writes == Nothing
    requires Statement(h, s, e.t, tx, e) == Some(after)
    ensures Does(s.db, es + [e], e.t, after)
  {
    var d := after.delegation.value;
    assert e in es + [e];
    assert Held(RowsOf(s.db.credentials, d), s.db.delegations[d], es + [e], e.t, after);
  }

  lemma InsertDelegationDoes(h: Hashes, s: System, es: seq<Event>, tx: Transaction, e: Event, after: Transaction)
    requires e.InsertDelegation? && Does(s.db, es, e.t, tx) && tx.delegation.None?
    requires Statement(h, s, e.t, tx, e) == Some(after)
    ensures Does(s.db, es + [e], e.t, after)
  {
    assert e in es + [e];
  }

  lemma MarkDoes(h: Hashes, s: System, es: seq<Event>, tx: Transaction, e: Event, after: Transaction)
    requires (e.MarkDelegation? || e.MarkCredential?) && tx.delegation.Some?
    requires Does(s.db, es, e.t, tx) && Statement(h, s, e.t, tx, e) == Some(after)
    ensures Does(s.db, es + [e], e.t, after)
  {
    var d := tx.delegation.value;
    HeldLater(RowsOf(s.db.credentials, d), s.db.delegations[d], es, e, e.t, tx);
  }

  lemma RevokeActiveDoes(h: Hashes, s: System, es: seq<Event>, tx: Transaction, e: Event, after: Transaction)
    requires e.RevokeActive? && Does(s.db, es, e.t, tx) && Statement(h, s, e.t, tx, e) == Some(after)
    ensures Does(s.db, es + [e], e.t, after)
  {
    var d := tx.delegation.value;
    RevokedRowsAre(s.db.credentials, d);
    HeldLater(RowsOf(s.db.credentials, d), s.db.delegations[d], es, e, e.t, tx);
    hide RowsOf, Cleared, ActiveIn, RevokedRows, CredentialsFree;
  }

  lemma InsertCredentialDoes(h: Hashes, s: System, es: seq<Event>, tx: Transaction, e: Event, after: Transaction)
    requires e.InsertCredential? && Does(s.db, es, e.t, tx) && Statement(h, s, e.t, tx, e) == Some(after)
    ensures Does(s.db, es + [e], e.t, after)
  {
    var d := tx.delegation.value;
    var rows, row := RowsOf(s.db.credentials, d), s.db.delegations[d];
    HeldLater(rows, row, es, e, e.t, tx);
    assert e in es + [e];
    assert HasInserted(rows, row, es + [e], e.t, d, e.id, after.writes.credentials[e.id]);
    hide Held, Cleared, RowsOf, HasInserted, CredentialIdFree;
  }

  lemma LinkDoes(h: Hashes, s: System, es: seq<Event>, tx: Transaction, e: Event, after: Transaction)
    requires e.LinkRotation? && Does(s.db, es, e.t, tx) && tx.delegation.Some?
    requires tx.phase.Inserted? && tx.phase.previous.Some? && tx.phase.id in tx.writes.credentials
    requires Statement(h, s, e.t, tx, e) == Some(after)
    requires DatabaseSound(s.db, s.nextIssue)
    ensures Does(s.db, es + [e], e.t, after)
  {
    hide Held, Cleared, RowsOf, HasInserted, DatabaseSound, Statement, ActiveRow;
    var d := tx.delegation.value;
    var rows, row := RowsOf(s.db.credentials, d), s.db.delegations[d];
    var p, id := tx.phase.previous.value, tx.phase.id;
    ActiveIsUnlinked(s.db, s.nextIssue, d, p);
    InsertedIsNew(rows, row, es, e.t, d, id, tx.writes.credentials[id]);
    LinkEffect(h, s, tx, e, after, rows[p].(revoked := true));
    HeldLater(rows, row, es, e, e.t, tx);
    HeldBySame(rows, row, es + [e], e.t, tx, after);
    HasInsertedLater(rows, row, es, e, e.t, d, id, tx.writes.credentials[id]);
  }

  lemma HeldBySame(rows: map<Id, Credential>, row: Delegation, es: seq<Event>, t: nat, tx: Transaction, after: Transaction)
    requires Held(rows, row, es, t, tx) && after.command == tx.command && after.delegation == tx.delegation
    ensures Held(rows, row, es, t, after)
  {
  }

  lemma InsertedIsNew(rows: map<Id, Credential>, row: Delegation, es: seq<Event>, t: nat, d: Id, id: Id, credential: Credential)
    requires HasInserted(rows, row, es, t, d, id, credential)
    ensures id !in rows && credential.delegation == d
  {
  }

  lemma ActiveIsUnlinked(db: Database, next: nat, d: Id, p: Id)
    requires DatabaseSound(db, next) && d in db.delegations && ActiveRow(RowsOf(db.credentials, d), p)
    ensures p in RowsOf(db.credentials, d) && RowsOf(db.credentials, d)[p].rotatedTo.None?
    ensures p in Cleared(RowsOf(db.credentials, d))
    ensures Cleared(RowsOf(db.credentials, d))[p] == RowsOf(db.credentials, d)[p].(revoked := true)
  {
    assert RowsSound(RowsOf(db.credentials, d), db.delegations[d], next);
    assert Linked(RowsOf(db.credentials, d));
  }

  lemma LinkEffect(h: Hashes, s: System, tx: Transaction, e: Event, after: Transaction, revoked: Credential)
    requires e.LinkRotation? && Statement(h, s, e.t, tx, e) == Some(after)
    requires tx.phase.Inserted? && tx.phase.previous.Some? && tx.phase.previous.value in tx.writes.credentials
    requires tx.writes.credentials[tx.phase.previous.value] == revoked && revoked.revoked && revoked.rotatedTo.None?
    ensures tx.phase.id in tx.writes.credentials
    ensures var row := tx.writes.credentials[tx.phase.id];
      after == tx.(phase := Written(CredentialIssued(tx.phase.id, row.delegation, row.expiresAt)),
                   writes := tx.writes.(credentials := tx.writes.credentials[
                     tx.phase.previous.value := revoked.(rotatedTo := Some(tx.phase.id))]))
  {
  }

  lemma RecordDoes(h: Hashes, s: System, es: seq<Event>, tx: Transaction, e: Event, after: Transaction)
    requires e.Record? && Does(s.db, es, e.t, tx) && Statement(h, s, e.t, tx, e) == Some(after)
    ensures Does(s.db, es + [e], e.t, after)
  {
    DoesLater(s.db, es, e, e.t, tx);
    hide RowsOf, Cleared, HasInserted, Held, NewDelegation;
  }

  lemma StatementDoes(h: Hashes, s: System, es: seq<Event>, tx: Transaction, e: Event, after: Transaction)
    requires Does(s.db, es, e.t, tx) && Statement(h, s, e.t, tx, e) == Some(after)
    requires TransactionOk(h, s.db, s.nextIssue, tx) && DatabaseSound(s.db, s.nextIssue)
    ensures Does(s.db, es + [e], e.t, after)
  {
    hide PhaseOk, KeyOk, DatabaseSound, DoesWithin, HasCreated, KeyFree, DelegationFree, CredentialsFree, MayProceed, RevokedRows;
    match e {
      case InsertDelegation(_, _, _) => InsertDelegationDoes(h, s, es, tx, e, after);
      case LockDelegation(_, _) => LockDoes(h, s, es, tx, e, after);
      case LockOwningDelegation(_) => LockDoes(h, s, es, tx, e, after);
      case MarkDelegation(_) => MarkDoes(h, s, es, tx, e, after);
      case MarkCredential(_) => MarkDoes(h, s, es, tx, e, after);
      case RevokeActive(_, _) => RevokeActiveDoes(h, s, es, tx, e, after);
      case InsertCredential(_, _, _) => InsertCredentialDoes(h, s, es, tx, e, after);
      case LinkRotation(_) => LinkDoes(h, s, es, tx, e, after);
      case Record(_) => RecordDoes(h, s, es, tx, e, after);
      case _ =>
    }
  }

  // --- Commits and whole runs ----------------------------------------------------------------------------------------

  /** What another transaction commits does not change what this one has done. */
  lemma CommitKeepsDoes(h: Hashes, s: System, es: seq<Event>, t: nat, u: nat)
    requires Sound(h, s) && t in s.running && u in s.running && t != u && Does(s.db, es, u, s.running[u])
    ensures Does(Over(s.db, s.running[t].writes), es, u, s.running[u])
  {
    var tx, other := s.running[t], s.running[u];
    assert Apart(h, tx, other) && TransactionOk(h, s.db, s.nextIssue, tx);
    hide Sound, DoesWithin, NewDelegation;
    if other.delegation.Some? {
      OtherDelegation(h, s.db, s.nextIssue, tx, other.delegation.value);
    }
    hide TransactionOk, RowsOf;
  }

  lemma NextDoes(h: Hashes, s: System, es: seq<Event>, e: Event)
    requires Sound(h, s) && AllDo(s, es)
    ensures AllDo(After(h, s, e), es + [e])
  {
    var after := After(h, s, e);
    forall u | u in after.running ensures Does(after.db, es + [e], u, after.running[u]) {
      if u in s.running {
        assert Does(s.db, es, u, s.running[u]) && TransactionOk(h, s.db, s.nextIssue, s.running[u]);
        if after.running[u] == s.running[u] {
          if e.Commit? && after != s { CommitKeepsDoes(h, s, es, e.t, u); }
          assert Does(after.db, es, u, s.running[u]) by { SameRows(h, s, e); }
          DoesLater(after.db, es, e, u, s.running[u]);
        } else {
          assert Statement(h, s, e.t, s.running[u], e) == Some(after.running[u]) && e.t == u;
          StatementDoes(h, s, es, s.running[u], e, after.running[u]);
          SameRows(h, s, e);
        }
      }
      hide Does, Statement, Sound;
    }
  }

  lemma SameRows(h: Hashes, s: System, e: Event)
    ensures !e.Commit? ==> After(h, s, e).db == s.db
  {
  }

  lemma {:induction false} RunDoes(h: Hashes, s: System, before: seq<Event>, es: seq<Event>)
    requires Sound(h, s) && AllDo(s, before)
    ensures AllDo(Run(h, s, es), before + es)
    decreases |es|
  {
    hide Sound, AllDo, After;
    if es == [] {
      assert before + es == before;
    } else {
      NextDoes(h, s, before, es[0]);
      NextKeepsSound(h, s, es[0]);
      RunDoes(h, After(h, s, es[0]), before + [es[0]], es[1..]);
      assert before + [es[0]] + es[1..] == before + es;
    }
  }

  // --- What a commit has done -----------------------------------------------------------------------------------------

  /** A creation: one new row, with the owner, purpose and delegate of the command, that expires the asked
      number of seconds after the clock its insert read. */
  ghost predicate CreatedOnly(before: Database, after: Database, es: seq<Event>, t: nat, command: Command, reply: Reply)
    requires command.Create?
  {
    && reply.DelegationCreated? && reply.id !in before.delegations && after.credentials == before.credentials
    && after.delegations == before.delegations[reply.id := reply.view]
    && reply.view.owner == command.owner && reply.view.purpose == command.purpose && reply.view.delegate == command.delegate
    && !reply.view.revoked && reply.view.version == 1
    && exists now :: InsertDelegation(t, reply.id, now) in es && reply.view.expiresAt == now + command.seconds
  }

  /** An issue or rotation: allowed by the row it locked; one new credential, which expires with the
      delegation or 15 minutes after the clock its insert read; every other credential of the delegation is
      revoked, and a rotation links the one that was active to the new one. Nothing else changes. */
  ghost predicate IssuedOnly(before: Database, after: Database, es: seq<Event>, t: nat, command: Command, reply: Reply)
    requires command.Issue?
  {
    var d := command.delegation;
    && reply.CredentialIssued? && reply.delegation == d && d in before.delegations && after.delegations == before.delegations
    && var row := before.delegations[d];
    && row.owner == command.owner && row.purpose == command.purpose && row.version == command.version && !row.revoked
    && (exists now :: LockDelegation(t, now) in es && now < row.expiresAt)
    && reply.id !in before.credentials && after.credentials.Keys == before.credentials.Keys + {reply.id}
    && after.credentials[reply.id] == Credential(d, reply.expiresAt, false, None, after.credentials[reply.id].issue)
    && (exists now :: InsertCredential(t, reply.id, now) in es
                      && reply.expiresAt == (if row.expiresAt <= now + 900 then row.expiresAt else now + 900))
    && (forall c | c in before.credentials && before.credentials[c].delegation != d ::
          after.credentials[c] == before.credentials[c])
    && (forall c | c in before.credentials && before.credentials[c].delegation == d ::
          after.credentials[c] == before.credentials[c].(
            revoked := true,
            rotatedTo := if command.rotate && !before.credentials[c].revoked then Some(reply.id)
                         else before.credentials[c].rotatedTo))
    && (command.rotate ==> exists c :: c in before.credentials && before.credentials[c].delegation == d
                                       && !before.credentials[c].revoked)
  }

  /** A revocation of a delegation: allowed by the row it locked, the delegation is revoked one version later
      (or was revoked already), and all its credentials are revoked. Nothing else changes. */
  ghost predicate RevokedOnly(before: Database, after: Database, command: Command, reply: Reply)
    requires command.Revoke?
  {
    var d := command.delegation;
    && d in before.delegations && before.delegations[d].owner == command.owner
    && var row := before.delegations[d];
    && (row.revoked || row.version == command.version)
    && after.delegations == before.delegations[
         d := if row.revoked then row else row.(revoked := true, version := row.version + 1)]
    && reply == DelegationRevoked(d, after.delegations[d].version)
    && after.credentials.Keys == before.credentials.Keys
    && (forall c | c in before.credentials ::
          after.credentials[c] == if before.credentials[c].delegation == d then before.credentials[c].(revoked := true)
                                  else before.credentials[c])
  }

  /** A revocation of a credential of the owner: that credential is revoked, and nothing else changes. */
  ghost predicate RevokedOneOnly(before: Database, after: Database, command: Command, reply: Reply)
    requires command.RevokeOne?
  {
    var c := command.credential;
    && c in before.credentials && before.credentials[c].delegation in before.delegations
    && before.delegations[before.credentials[c].delegation].owner == command.owner
    && reply == CredentialRevoked(c, before.credentials[c].delegation)
    && after.delegations == before.delegations
    && after.credentials == before.credentials[c := before.credentials[c].(revoked := true)]
  }

  ghost predicate Effect(h: Hashes, before: Database, after: Database, es: seq<Event>, t: nat, key: string, command: Command,
                         reply: Reply)
  {
    && key !in before.outbox && after.outbox.Keys == before.outbox.Keys + {key}
    && (forall k | k in before.outbox :: after.outbox[k] == before.outbox[k])
    && after.outbox[key].requestHash == h.request(command) && after.outbox[key].reply == reply
    && match command
       case Create(_, _, _, _) =>
         CreatedOnly(before, after, es, t, command, reply) && after.outbox[key].command == CreateDelegation
       case Issue(_, _, _, _, rotate) =>
         && IssuedOnly(before, after, es, t, command, reply)
         && after.outbox[key].command == (if rotate then RotateCredential else IssueCredential)
       case Revoke(_, _, _, _) =>
         RevokedOnly(before, after, command, reply) && after.outbox[key].command == RevokeDelegation
       case RevokeOne(_, _, _) =>
         RevokedOneOnly(before, after, command, reply) && after.outbox[key].command == RevokeCredential
  }

  lemma IssueEffect(db: Database, es: seq<Event>, t: nat, tx: Transaction, d: Id)
    requires tx.phase.Recorded? && tx.command.Issue? && tx.delegation == Some(d) && d in db.delegations
    requires DoesWithin(RowsOf(db.credentials, d), db.delegations[d], es, t, tx, d) && WritesWithin(db, tx)
    requires OneActive(RowsOf(db.credentials, d)) && Linked(RowsOf(db.credentials, d))
    ensures IssuedOnly(db, Over(db, tx.writes), es, t, tx.command, tx.phase.reply)
  {
    var rows, reply, after := RowsOf(db.credentials, d), tx.phase.reply, Over(db, tx.writes);
    var credential := tx.writes.credentials[reply.id];
    assert after.delegations == db.delegations;
    if tx.command.rotate {
      var p :| ActiveRow(rows, p)
               && tx.writes.credentials == Cleared(rows)[reply.id := credential]
                                           [p := rows[p].(revoked := true, rotatedTo := Some(reply.id))];
      assert p in db.credentials && db.credentials[p].delegation == d && !db.credentials[p].revoked;
      forall c | c in db.credentials && db.credentials[c].delegation == d && !db.credentials[c].revoked ensures c == p {
        assert c in rows;
      }
    }
    IssuedRows(db, tx, d, rows);
  }

  lemma IssuedRows(db: Database, tx: Transaction, d: Id, rows: map<Id, Credential>)
    requires rows == RowsOf(db.credentials, d) && tx.phase.Recorded? && tx.phase.reply.CredentialIssued?
    requires tx.phase.reply.id in tx.writes.credentials && tx.phase.reply.id !in rows && WritesWithin(db, tx)
    requires tx.delegation == Some(d)
    requires forall c | c in tx.writes.credentials :: c == tx.phase.reply.id || c in rows
    ensures tx.phase.reply.id !in db.credentials
    ensures Over(db, tx.writes).credentials.Keys == db.credentials.Keys + {tx.phase.reply.id}
    ensures forall c | c in db.credentials && db.credentials[c].delegation != d ::
              Over(db, tx.writes).credentials[c] == db.credentials[c]
  {
  }

  lemma RevokeEffect(db: Database, es: seq<Event>, t: nat, tx: Transaction, d: Id)
    requires tx.phase.Recorded? && tx.command.Revoke? && tx.delegation == Some(d) && d in db.delegations
    requires DoesWithin(RowsOf(db.credentials, d), db.delegations[d], es, t, tx, d)
    ensures RevokedOnly(db, Over(db, tx.writes), tx.command, tx.phase.reply)
  {
    var row := db.delegations[d];
    assert Over(db, tx.writes).delegations
        == db.delegations[d := if row.revoked then row else row.(revoked := true, version := row.version + 1)];
  }

  lemma RevokeOneEffect(db: Database, es: seq<Event>, t: nat, tx: Transaction, d: Id)
    requires tx.phase.Recorded? && tx.command.RevokeOne? && tx.delegation == Some(d) && d in db.delegations
    requires DoesWithin(RowsOf(db.credentials, d), db.delegations[d], es, t, tx, d)
    ensures RevokedOneOnly(db, Over(db, tx.writes), tx.command, tx.phase.reply)
  {
  }

  lemma CreateEffect(db: Database, es: seq<Event>, t: nat, tx: Transaction)
    requires tx.phase.Recorded? && tx.delegation.None? && Does(db, es, t, tx)
    ensures tx.command.Create? && CreatedOnly(db, Over(db, tx.writes), es, t, tx.command, tx.phase.reply)
  {
    assert db.credentials + map[] == db.credentials;
  }

  /** Every mutation that commits, in whatever interleaving, does exactly what its command says: the rows it
      changed, the rows it left alone, the conditions under which it was allowed, its reply and its outbox
      row. */
  lemma CommitsDoExactly(h: Hashes, es: seq<Event>, t: nat)
    requires var s := Run(h, Empty, es); t in s.running && s.running[t].phase.Recorded?
    ensures var s := Run(h, Empty, es);
      Effect(h, s.db, After(h, s, Commit(t)).db, es, t, s.running[t].key, s.running[t].command, s.running[t].phase.reply)
  {
    EmptyIsSound(h);
    RunKeepsSound(h, Empty, es);
    RunDoes(h, Empty, [], es);
    assert [] + es == es;
    var s := Run(h, Empty, es);
    var tx := s.running[t];
    assert Does(s.db, es, t, tx);
    SoundTransaction(h, s, t);
    AfterCommit(h, s, t);
    CommittedOutbox(h, s.db, s.nextIssue, tx);
    SoundRows(h, s);
    hide Run, Sound, After, DoesWithin, CreatedOnly, IssuedOnly, RevokedOnly, RevokedOneOnly, HasCreated, PhaseOk, Over;
    EffectOf(h, s.db, s.nextIssue, es, t, tx);
  }

  lemma SoundRows(h: Hashes, s: System)
    requires Sound(h, s)
    ensures DatabaseSound(s.db, s.nextIssue)
  {
  }

  lemma EffectOf(h: Hashes, db: Database, next: nat, es: seq<Event>, t: nat, tx: Transaction)
    requires TransactionOk(h, db, next, tx) && DatabaseSound(db, next) && tx.phase.Recorded? && Does(db, es, t, tx)
    ensures Effect(h, db, Over(db, tx.writes), es, t, tx.key, tx.command, tx.phase.reply)
  {
    hide TransactionOk, DatabaseSound, DoesWithin, CreatedOnly, IssuedOnly, RevokedOnly, RevokedOneOnly, RowsOf, RowsSound;
    CommittedOutbox(h, db, next, tx);
    if tx.delegation.None? {
      CreateEffect(db, es, t, tx);
    } else {
      var d := tx.delegation.value;
      RecordedParts(h, db, next, es, t, tx, d);
      if tx.command.Issue? { IssueEffect(db, es, t, tx, d); }
      if tx.command.Revoke? { RevokeEffect(db, es, t, tx, d); }
      if tx.command.RevokeOne? { RevokeOneEffect(db, es, t, tx, d); }
    }
  }

  lemma RecordedParts(h: Hashes, db: Database, next: nat, es: seq<Event>, t: nat, tx: Transaction, d: Id)
    requires TransactionOk(h, db, next, tx) && DatabaseSound(db, next) && tx.delegation == Some(d)
    requires Does(db, es, t, tx)
    ensures WritesWithin(db, tx) && !tx.command.Create?
    ensures OneActive(RowsOf(db.credentials, d)) && Linked(RowsOf(db.credentials, d))
  {
    hide KeyOk, PhaseOk, HasWritten;
    RowsAreSound(db, next, d);
  }

  // --- Row locks of credentials ------------------------------------------------------------------------------------------

  /** While a transaction holds the lock of a credential row, no other has locked or updated that row. */
  ghost predicate RowLocksExclude(s: System)
  {
    && (forall u | u in s.running && s.running[u].credential.Some? :: s.running[u].credential.value in s.db.credentials)
    && (forall t, u | t in s.running && u in s.running && t != u && s.running[u].credential.Some? ::
          var c := s.running[u].credential.value;
          s.running[t].credential != Some(c) && c !in s.running[t].writes.credentials)
  }

  /** A revocation of one credential holds the lock of that credential. */
  ghost predicate HoldsItsRow(s: System)
  {
    forall t | t in s.running && s.running[t].command.RevokeOne? ::
      (s.running[t].phase.CredentialHeld? || s.running[t].phase.Locked? ==>
         s.running[t].credential == Some(s.running[t].command.credential))
  }

  /** The credential rows a statement updates. */
  lemma StatementUpdates(h: Hashes, s: System, es: seq<Event>, tx: Transaction, e: Event, after: Transaction, c: Id)
    requires Statement(h, s, e.t, tx, e) == Some(after) && Does(s.db, es, e.t, tx)
    requires after.phase.Inserted? || after.phase.Cleared? || after.phase.Written? ==> e.InsertDelegation? || tx.delegation.Some?
    requires c in after.writes.credentials && c !in tx.writes.credentials && c in s.db.credentials
    ensures CredentialsFree(s, e.t, {c}) || (tx.phase.Locked? && tx.command.RevokeOne? && c == tx.command.credential)
  {
    hide Held, KeyFree, DelegationFree, DelegationIdFree, MayProceed, HasCreated;
  }

  lemma StatementLocks(h: Hashes, s: System, tx: Transaction, e: Event, after: Transaction)
    requires Statement(h, s, e.t, tx, e) == Some(after)
    ensures after.command == tx.command
    ensures after.credential == tx.credential
            || (after.credential.Some? && after.credential.value in s.db.credentials && CredentialsFree(s, e.t, {after.credential.value}))
    ensures after.command.RevokeOne? && after.phase.CredentialHeld? ==> after.credential == Some(after.command.credential)
    ensures after.command.RevokeOne? && after.phase.Locked? ==> tx.phase.CredentialHeld? && after.credential == tx.credential
  {
    hide CredentialsFree, KeyFree, DelegationFree, DelegationIdFree, CredentialIdFree, MayProceed;
  }

  lemma NextExcludes(h: Hashes, s: System, es: seq<Event>, e: Event)
    requires Sound(h, s) && AllDo(s, es) && RowLocksExclude(s) && HoldsItsRow(s)
    ensures RowLocksExclude(After(h, s, e)) && HoldsItsRow(After(h, s, e))
  {
    var after := After(h, s, e);
    if after != s {
      if e.Begin? || e.Abort? || e.Commit? {
        OutsideStatements(h, s, e);
        hide Sound, AllDo, After;
        NoneExcludes(s, after);
      } else {
        var tx' := after.running[e.t];
        assert Statement(h, s, e.t, s.running[e.t], e) == Some(tx');
        assert after == s.(running := s.running[e.t := tx'], nextIssue := after.nextIssue);
        hide Sound, AllDo, After, Statement, RowLocksExclude, HoldsItsRow;
        StepExcludes(h, s, es, e, tx');
      }
    }
  }

  lemma OutsideStatements(h: Hashes, s: System, e: Event)
    requires e.Begin? || e.Abort? || e.Commit?
    ensures var after := After(h, s, e);
      && s.db.credentials.Keys <= after.db.credentials.Keys
      && forall t | t in after.running ::
           (t in s.running && after.running[t] == s.running[t])
           || (after.running[t].credential.None? && after.running[t].writes == Nothing && after.running[t].phase.Begun?)
  {
  }

  lemma NoneExcludes(s: System, after: System)
    requires RowLocksExclude(s) && HoldsItsRow(s) && s.db.credentials.Keys <= after.db.credentials.Keys
    requires forall t | t in after.running ::
               (t in s.running && after.running[t] == s.running[t])
               || (after.running[t].credential.None? && after.running[t].writes == Nothing && after.running[t].phase.Begun?)
    ensures RowLocksExclude(after) && HoldsItsRow(after)
  {
  }

  lemma StatementHolds(h: Hashes, s: System, e: Event, after: Transaction)
    requires HoldsItsRow(s) && e.t in s.running && Statement(h, s, e.t, s.running[e.t], e) == Some(after)
    ensures HoldsItsRow(s.(running := s.running[e.t := after], nextIssue := Tick(e, s.nextIssue)))
  {
    StatementLocks(h, s, s.running[e.t], e, after);
    hide Statement;
  }

  lemma StepExcludes(h: Hashes, s: System, es: seq<Event>, e: Event, tx': Transaction)
    requires Sound(h, s) && AllDo(s, es) && RowLocksExclude(s) && HoldsItsRow(s)
    requires e.t in s.running && Statement(h, s, e.t, s.running[e.t], e) == Some(tx')
    ensures RowLocksExclude(s.(running := s.running[e.t := tx'], nextIssue := Tick(e, s.nextIssue)))
    ensures HoldsItsRow(s.(running := s.running[e.t := tx'], nextIssue := Tick(e, s.nextIssue)))
  {
    StatementHolds(h, s, e, tx');
    var tx := s.running[e.t];
    SoundTransaction(h, s, e.t);
    assert Does(s.db, es, e.t, tx);
    hide Statement, Sound, AllDo, TransactionOk, Does, RowLocksExclude;
    StatementLocks(h, s, tx, e, tx');
    forall c | c in tx'.writes.credentials && c !in tx.writes.credentials && c in s.db.credentials
      ensures CredentialsFree(s, e.t, {c}) || tx.credential == Some(c)
    {
      WritersHaveADelegation(h, s, e, tx, tx');
      StatementUpdates(h, s, es, tx, e, tx', c);
    }
    hide CredentialsFree, HoldsItsRow;
    StatementExcludes(s, e.t, tx', Tick(e, s.nextIssue));
  }

  lemma WritersHaveADelegation(h: Hashes, s: System, e: Event, tx: Transaction, after: Transaction)
    requires TransactionOk(h, s.db, s.nextIssue, tx) && Statement(h, s, e.t, tx, e) == Some(after)
    ensures after.phase.Inserted? || after.phase.Cleared? || after.phase.Written? ==> e.InsertDelegation? || tx.delegation.Some?
  {
    hide PhaseOk, KeyOk, WritesWithin, KeyFree, DelegationFree, CredentialsFree;
  }

  lemma StatementExcludes(s: System, t: nat, after: Transaction, next: nat)
    requires RowLocksExclude(s) && t in s.running
    requires after.credential == s.running[t].credential
             || (after.credential.Some? && after.credential.value in s.db.credentials && CredentialsFree(s, t, {after.credential.value}))
    requires forall c | c in after.writes.credentials && c !in s.running[t].writes.credentials && c in s.db.credentials ::
               CredentialsFree(s, t, {c}) || s.running[t].credential == Some(c)
    ensures RowLocksExclude(s.(running := s.running[t := after], nextIssue := next))
  {
  }

  lemma {:induction false} RunExcludes(h: Hashes, s: System, before: seq<Event>, es: seq<Event>)
    requires Sound(h, s) && AllDo(s, before) && RowLocksExclude(s) && HoldsItsRow(s)
    ensures RowLocksExclude(Run(h, s, es))
    decreases |es|
  {
    hide Sound, AllDo, After, RowLocksExclude, HoldsItsRow;
    if es != [] {
      NextDoes(h, s, before, es[0]);
      NextKeepsSound(h, s, es[0]);
      NextExcludes(h, s, before, es[0]);
      RunExcludes(h, After(h, s, es[0]), before + [es[0]], es[1..]);
    }
  }

  /** In every interleaving a locked credential row is locked by one transaction and updated by no other. */
  lemma LockedRowsAreHeldOnce(h: Hashes, es: seq<Event>, t: nat, u: nat)
    requires var s := Run(h, Empty, es); t in s.running && u in s.running && t != u && s.running[u].credential.Some?
    ensures var s := Run(h, Empty, es);
      var c := s.running[u].credential.value;
      c in s.db.credentials && s.running[t].credential != Some(c) && c !in s.running[t].writes.credentials
  {
    EmptyIsSound(h);
    RunExcludes(h, Empty, [], es);
    hide Run;
  }
}
