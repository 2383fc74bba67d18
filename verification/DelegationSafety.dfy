/** What every interleaving of delegation commands keeps. */
module DelegationSafety {
  import opened Outcomes
  import opened DelegationProtocol

  // --- The rows of one delegation ---------------------------------------------------------------------------

  ghost function RowsOf(creds: map<Id, Credential>, d: Id): map<Id, Credential>
  {
    map c | c in creds && creds[c].delegation == d :: creds[c]
  }

  ghost predicate NoActive(rows: map<Id, Credential>)
  {
    forall c | c in rows :: rows[c].revoked
  }

  ghost predicate OneActive(rows: map<Id, Credential>)
  {
    forall a, b | a in rows && b in rows && !rows[a].revoked && !rows[b].revoked :: a == b
  }

  /** Every rotation link leads from a revoked credential to one of the same delegation inserted later,
      and no two links lead to the same credential. */
  ghost predicate Linked(rows: map<Id, Credential>)
  {
    && (forall c | c in rows && rows[c].rotatedTo.Some? ::
          rows[c].revoked && rows[c].rotatedTo.value in rows && rows[c].issue < rows[rows[c].rotatedTo.value].issue)
    && (forall a, b | a in rows && b in rows && rows[a].rotatedTo.Some? && rows[a].rotatedTo == rows[b].rotatedTo :: a == b)
  }

  ghost predicate Bounded(rows: map<Id, Credential>, row: Delegation, next: nat)
  {
    forall c | c in rows :: rows[c].issue < next && rows[c].expiresAt <= row.expiresAt
  }

  ghost predicate RowsSound(rows: map<Id, Credential>, row: Delegation, next: nat)
  {
    OneActive(rows) && (row.revoked ==> NoActive(rows)) && Linked(rows) && Bounded(rows, row, next)
  }

  /** Rows are only added, revoked and linked. */
  ghost predicate Grown(before: map<Id, Credential>, after: map<Id, Credential>)
  {
    forall c | c in before :: c in after && GrownRow(before[c], after[c])
  }

  ghost predicate GrownRow(a: Credential, b: Credential)
  {
    && b.delegation == a.delegation && b.expiresAt == a.expiresAt && b.issue == a.issue
    && (a.revoked ==> b.revoked) && (a.rotatedTo.Some? ==> b.rotatedTo == a.rotatedTo)
  }

  ghost predicate GrownDelegation(a: Delegation, b: Delegation)
  {
    b == a || (!a.revoked && b == a.(revoked := true, version := a.version + 1))
  }

  // --- How statements change the rows ----------------------------------------------------------------------------

  lemma RowsOfRevokedAll(creds: map<Id, Credential>, d: Id, row: Delegation, next: nat)
    requires RowsSound(RowsOf(creds, d), row, next)
    ensures var rows := RowsOf(creds + RevokedRows(creds, d), d);
      NoActive(rows) && Linked(rows) && Bounded(rows, row, next) && Grown(RowsOf(creds, d), rows)
      && (forall c | c in ActiveIn(creds, d) :: Linkable(rows, c))
  {
    var before, rows := RowsOf(creds, d), RowsOf(creds + RevokedRows(creds, d), d);
    forall c ensures c in rows <==> c in before {
    }
    forall c | c in rows ensures rows[c] == before[c].(revoked := true) {
    }
  }

  lemma RowsOfUpdated(creds: map<Id, Credential>, writes: map<Id, Credential>, d: Id, c: Id, row: Credential)
    requires row.delegation == d
    ensures RowsOf(creds + writes[c := row], d) == RowsOf(creds + writes, d)[c := row]
  {
    assert creds + writes[c := row] == (creds + writes)[c := row];
  }

  lemma InsertKeepsSound(rows: map<Id, Credential>, c: Id, d: Id, expiresAt: int, row: Delegation, next: nat)
    requires RowsSound(rows, row, next) && NoActive(rows) && c !in rows && expiresAt <= row.expiresAt && !row.revoked
    ensures var after := rows[c := Credential(d, expiresAt, false, None, next)];
      RowsSound(after, row, next + 1) && Grown(rows, after) && NotLinked(after, c)
  {
  }

  ghost predicate Linkable(rows: map<Id, Credential>, c: Id)
  {
    c in rows && rows[c].revoked && rows[c].rotatedTo.None?
  }

  ghost predicate NotLinked(rows: map<Id, Credential>, c: Id)
  {
    forall a | a in rows :: rows[a].rotatedTo != Some(c)
  }

  lemma LinkKeepsSound(rows: map<Id, Credential>, p: Id, c: Id, row: Delegation, next: nat)
    requires RowsSound(rows, row, next) && p in rows && c in rows && NotLinked(rows, c)
    requires rows[p].revoked && rows[p].rotatedTo.None? && rows[p].issue < rows[c].issue
    ensures var after := rows[p := rows[p].(rotatedTo := Some(c))];
      RowsSound(after, row, next) && Grown(rows, after)
  {
  }

  lemma RevokeKeepsSound(rows: map<Id, Credential>, c: Id, row: Delegation, next: nat)
    requires RowsSound(rows, row, next) && c in rows
    ensures var after := rows[c := rows[c].(revoked := true)];
      RowsSound(after, row, next) && Grown(rows, after)
  {
  }

  lemma GrownTransitive(a: map<Id, Credential>, b: map<Id, Credential>, c: map<Id, Credential>)
    requires Grown(a, b) && Grown(b, c)
    ensures Grown(a, c)
  {
  }

  // --- The invariant ------------------------------------------------------------------------------------------------

  ghost predicate DatabaseSound(db: Database, next: nat)
  {
    && (forall c | c in db.credentials :: db.credentials[c].delegation in db.delegations)
    && (forall d | d in db.delegations :: RowsSound(RowsOf(db.credentials, d), db.delegations[d], next))
  }

  /** The outbox side of a running transaction. */
  ghost predicate KeyOk(h: Hashes, db: Database, tx: Transaction)
  {
    match tx.phase
    case Begun => tx.writes.outbox == map[]
    case KeyHeld => tx.writes.outbox == map[]
    case Replayed(reply) =>
      tx.writes == Nothing && tx.key in db.outbox && db.outbox[tx.key] == Stored(tx.command.Name(), h.request(tx.command), reply)
    case Recorded(reply) =>
      tx.key !in db.outbox && tx.writes.outbox == map[tx.key := Stored(tx.command.Name(), h.request(tx.command), reply)]
    case _ => tx.key !in db.outbox && tx.writes.outbox == map[]
  }

  /** A transaction writes only rows of the delegation it has locked. */
  ghost predicate WritesWithin(db: Database, tx: Transaction)
  {
    match tx.delegation
    case Some(d) =>
      && d in db.delegations && tx.writes.delegations.Keys <= {d}
      && (forall c | c in tx.writes.credentials ::
            tx.writes.credentials[c].delegation == d
            && (c in db.credentials ==> db.credentials[c].delegation == d))
    case None =>
      && tx.writes.credentials == map[]
      && (forall d | d in tx.writes.delegations :: d !in db.delegations && !tx.writes.delegations[d].revoked)
  }

  /** The delegation row a transaction with a lock sees. */
  ghost function SeenDelegation(db: Database, tx: Transaction, d: Id): Delegation
    requires d in db.delegations
  {
    (db.delegations + tx.writes.delegations)[d]
  }

  ghost function SeenRows(db: Database, tx: Transaction, d: Id): map<Id, Credential>
  {
    RowsOf(db.credentials + tx.writes.credentials, d)
  }

  /** What holds in each phase of the rows that the transaction sees of the delegation it has locked. */
  ghost predicate PhaseOk(tx: Transaction, before: map<Id, Credential>, rows: map<Id, Credential>, committed: Delegation,
                          row: Delegation, next: nat)
  {
    && RowsSound(rows, row.(revoked := false), next) && Grown(before, rows) && GrownDelegation(committed, row)
    && (tx.command.Issue? ==> !row.revoked)
    && (tx.phase.Cleared? || tx.phase.Inserted? ==> tx.command.Issue?)
    && (tx.phase.Locked? && tx.command.RevokeOne? ==> tx.command.credential in before)
    && (tx.phase.Marked? ==> row.revoked && tx.writes.credentials == map[] && tx.command.Revoke?)
    && (tx.phase.Locked? ==> tx.writes.credentials == map[] && row == committed)
    && (tx.phase.Cleared? ==> NoActive(rows) && (tx.phase.previous.Some? ==> Linkable(rows, tx.phase.previous.value)))
    && (tx.phase.Inserted? ==>
          && tx.phase.id in rows && !rows[tx.phase.id].revoked && NotLinked(rows, tx.phase.id) && tx.phase.id in tx.writes.credentials
          && (tx.phase.previous.Some? ==>
                Linkable(rows, tx.phase.previous.value) && rows[tx.phase.previous.value].issue < rows[tx.phase.id].issue))
    && (tx.phase.Written? || tx.phase.Recorded? ==> RowsSound(rows, row, next) && Fulfilled(tx.command, tx.phase.reply, rows, row))
  }

  /** The rows do what the reply says. */
  ghost predicate Fulfilled(command: Command, reply: Reply, rows: map<Id, Credential>, row: Delegation)
  {
    match command
    case Issue(_, _, _, _, _) =>
      reply.CredentialIssued? && reply.id in rows && !rows[reply.id].revoked && rows[reply.id].expiresAt == reply.expiresAt
    case Revoke(_, _, _, _) => reply.DelegationRevoked? && row.revoked && reply.version == row.version
    case RevokeOne(_, _, c) => reply.CredentialRevoked? && reply.id == c && c in rows && rows[c].revoked
    case Create(_, _, _, _) => true
  }

  ghost predicate TransactionOk(h: Hashes, db: Database, next: nat, tx: Transaction)
  {
    && KeyOk(h, db, tx) && WritesWithin(db, tx)
    && (tx.phase.Begun? || tx.phase.KeyHeld? || tx.phase.Fresh? || tx.phase.CredentialHeld? ==>
          tx.delegation.None? && tx.writes == Nothing)
    && (tx.phase.Locked? || tx.phase.Marked? || tx.phase.Cleared? || tx.phase.Inserted? ==> tx.delegation.Some?)
    && (tx.phase.Locked? ==> tx.writes == Nothing)
    && (tx.delegation.Some? ==>
          var d := tx.delegation.value;
          PhaseOk(tx, RowsOf(db.credentials, d), SeenRows(db, tx, d), db.delegations[d], SeenDelegation(db, tx, d), next))
  }

  /** What locks keep apart. */
  ghost predicate Apart(h: Hashes, a: Transaction, b: Transaction)
  {
    && (!a.phase.Begun? && !b.phase.Begun? ==> h.slot(a.key) != h.slot(b.key))
    && (a.delegation.Some? ==> a.delegation != b.delegation)
    && a.writes.credentials.Keys !! b.writes.credentials.Keys
    && a.writes.delegations.Keys !! b.writes.delegations.Keys
  }

  /** Answers are recorded in the outbox, and every key of the outbox comes from one mutation. */
  ghost predicate LedgerOk(h: Hashes, s: System)
  {
    && (forall i | 0 <= i < |s.answers| ::
          var a := s.answers[i];
          a.key in s.db.outbox && s.db.outbox[a.key] == Stored(a.command.Name(), h.request(a.command), a.reply))
    && (forall k :: k in s.mutations <==> k in s.db.outbox)
    && (forall i, j | 0 <= i < j < |s.mutations| :: s.mutations[i] != s.mutations[j])
  }

  ghost predicate Sound(h: Hashes, s: System)
  {
    && DatabaseSound(s.db, s.nextIssue) && LedgerOk(h, s)
    && (forall t | t in s.running :: TransactionOk(h, s.db, s.nextIssue, s.running[t]))
    && (forall t, u | t in s.running && u in s.running && t != u :: Apart(h, s.running[t], s.running[u]))
  }

  // --- One statement ------------------------------------------------------------------------------------------------

  lemma PhaseOkLater(tx: Transaction, before: map<Id, Credential>, rows: map<Id, Credential>, committed: Delegation,
                     row: Delegation, next: nat, later: nat)
    requires PhaseOk(tx, before, rows, committed, row, next) && next <= later
    ensures PhaseOk(tx, before, rows, committed, row, later)
  {
  }

  lemma TransactionOkLater(h: Hashes, db: Database, next: nat, later: nat, tx: Transaction)
    requires TransactionOk(h, db, next, tx) && next <= later
    ensures TransactionOk(h, db, later, tx)
  {
    if tx.delegation.Some? {
      var d := tx.delegation.value;
      PhaseOkLater(tx, RowsOf(db.credentials, d), SeenRows(db, tx, d), db.delegations[d], SeenDelegation(db, tx, d), next, later);
    }
  }

  lemma SeenWithoutWrites(db: Database, tx: Transaction, d: Id)
    requires tx.writes == Nothing && d in db.delegations
    ensures SeenRows(db, tx, d) == RowsOf(db.credentials, d) && SeenDelegation(db, tx, d) == db.delegations[d]
  {
    assert db.credentials + map[] == db.credentials;
  }

  lemma GrownReflexive(rows: map<Id, Credential>)
    ensures Grown(rows, rows)
  {
  }

  /** What a statement of transaction `tx` runs on. */
  ghost predicate Ready(h: Hashes, s: System, tx: Transaction)
  {
    DatabaseSound(s.db, s.nextIssue) && TransactionOk(h, s.db, s.nextIssue, tx)
  }

  lemma StepLockKey(h: Hashes, s: System, t: nat, tx: Transaction, e: Event, after: Transaction)
    requires Ready(h, s, tx) && (e.LockKey? || e.ReadKey? || e.LockCredential?)
    requires Statement(h, s, t, tx, e) == Some(after)
    ensures TransactionOk(h, s.db, s.nextIssue, after)
  {
    hide PhaseOk, DatabaseSound;
  }

  lemma StepInsertDelegation(h: Hashes, s: System, t: nat, tx: Transaction, e: Event, after: Transaction)
    requires Ready(h, s, tx) && e.InsertDelegation?
    requires Statement(h, s, t, tx, e) == Some(after)
    ensures TransactionOk(h, s.db, s.nextIssue, after)
  {
    hide PhaseOk, DatabaseSound;
  }

  /** A transaction that has locked a delegation is sound when its rows are. */
  lemma LockedOk(h: Hashes, db: Database, next: nat, tx: Transaction, d: Id)
    requires tx.delegation == Some(d) && KeyOk(h, db, tx) && WritesWithin(db, tx)
    requires tx.phase.Locked? || tx.phase.Marked? || tx.phase.Cleared? || tx.phase.Inserted? || tx.phase.Written? || tx.phase.Recorded?
    requires tx.phase.Locked? ==> tx.writes == Nothing
    requires PhaseOk(tx, RowsOf(db.credentials, d), SeenRows(db, tx, d), db.delegations[d], SeenDelegation(db, tx, d), next)
    ensures TransactionOk(h, db, next, tx)
  {
    hide PhaseOk;
  }

  lemma LockDelegationEffect(h: Hashes, s: System, t: nat, tx: Transaction, e: Event, after: Transaction)
    requires e.LockDelegation? || e.LockOwningDelegation?
    requires Statement(h, s, t, tx, e) == Some(after)
    ensures tx.phase.Fresh? || tx.phase.CredentialHeld?
    ensures after.delegation.Some? && after.delegation.value in s.db.delegations
    ensures after == tx.(phase := Locked, delegation := after.delegation)
    ensures tx.command.Issue? ==> !s.db.delegations[after.delegation.value].revoked
    ensures tx.command.RevokeOne? ==> tx.command.credential in RowsOf(s.db.credentials, after.delegation.value)
  {
  }

  /** Taking the lock of a delegation. */
  lemma StepLockDelegation(h: Hashes, s: System, t: nat, tx: Transaction, e: Event, after: Transaction)
    requires Ready(h, s, tx) && (e.LockDelegation? || e.LockOwningDelegation?)
    requires Statement(h, s, t, tx, e) == Some(after)
    ensures TransactionOk(h, s.db, s.nextIssue, after)
  {
    hide DatabaseSound, PhaseOk, RowsOf, SeenRows, SeenDelegation;
    LockDelegationEffect(h, s, t, tx, e, after);
    hide Statement;
    LockedRows(s.db, s.nextIssue, after, after.delegation.value);
    LockedOk(h, s.db, s.nextIssue, after, after.delegation.value);
  }

  lemma LockedRows(db: Database, next: nat, after: Transaction, d: Id)
    requires DatabaseSound(db, next) && d in db.delegations && after.phase.Locked? && after.writes == Nothing
    requires after.command.Issue? ==> !db.delegations[d].revoked
    requires after.command.RevokeOne? ==> after.command.credential in RowsOf(db.credentials, d)
    ensures PhaseOk(after, RowsOf(db.credentials, d), SeenRows(db, after, d), db.delegations[d], SeenDelegation(db, after, d), next)
  {
    hide DatabaseSound, RowsOf, SeenRows, Grown, NoActive, OneActive, Linked, SeenDelegation;
    RowsAreSound(db, next, d);
    SeenWithoutWrites(db, after, d);
    GrownReflexive(RowsOf(db.credentials, d));
  }

  lemma StepMarkDelegation(h: Hashes, s: System, t: nat, tx: Transaction, e: Event, after: Transaction)
    requires Ready(h, s, tx) && e.MarkDelegation?
    requires Statement(h, s, t, tx, e) == Some(after)
    ensures TransactionOk(h, s.db, s.nextIssue, after)
  {
    hide RowsOf, Grown, DatabaseSound, OneActive, NoActive, Linked;
  }

  lemma MarkCredentialEffect(h: Hashes, s: System, t: nat, tx: Transaction, e: Event, after: Transaction)
    requires e.MarkCredential? && Statement(h, s, t, tx, e) == Some(after)
    ensures tx.phase.Locked? && tx.command.RevokeOne? && tx.command.credential in s.db.credentials
    ensures var c := tx.command.credential; after.phase == Written(CredentialRevoked(c, s.db.credentials[c].delegation))
    ensures after.command == tx.command && after.key == tx.key && after.delegation == tx.delegation
    ensures after.writes.delegations == tx.writes.delegations && after.writes.outbox == tx.writes.outbox
    ensures var c := tx.command.credential;
            after.writes.credentials == if s.db.credentials[c].revoked then tx.writes.credentials
                                        else map[c := s.db.credentials[c].(revoked := true)]
  {
  }

  /** The rows after revoking one credential. */
  lemma MarkCredentialRows(db: Database, next: nat, tx: Transaction, after: Transaction, d: Id)
    requires DatabaseSound(db, next) && d in db.delegations && tx.command.RevokeOne?
    requires tx.command.credential in RowsOf(db.credentials, d)
    requires after.phase == Written(CredentialRevoked(tx.command.credential, d)) && after.command == tx.command
    requires after.writes.delegations == map[]
    requires var c := tx.command.credential;
             after.writes.credentials == if db.credentials[c].revoked then map[]
                                         else map[c := db.credentials[c].(revoked := true)]
    ensures PhaseOk(after, RowsOf(db.credentials, d), SeenRows(db, after, d), db.delegations[d], SeenDelegation(db, after, d), next)
  {
    hide OneActive, NoActive, Linked, Grown, RowsOf, SeenRows, DatabaseSound;
    var c, rows := tx.command.credential, RowsOf(db.credentials, d);
    RowsAreSound(db, next, d);
    RevokeKeepsSound(rows, c, db.delegations[d], next);
    GrownReflexive(rows);
    MarkedRows(db, after, d, c);
  }

  lemma MarkedRows(db: Database, after: Transaction, d: Id, c: Id)
    requires c in RowsOf(db.credentials, d)
    requires after.writes.credentials == if db.credentials[c].revoked then map[]
                                         else map[c := db.credentials[c].(revoked := true)]
    ensures var rows := RowsOf(db.credentials, d);
      SeenRows(db, after, d) == rows[c := rows[c].(revoked := true)]
  {
    if !db.credentials[c].revoked {
      RowsOfUpdated(db.credentials, map[], d, c, db.credentials[c].(revoked := true));
    }
    assert db.credentials + map[] == db.credentials;
  }

  lemma RowsAreSound(db: Database, next: nat, d: Id)
    requires DatabaseSound(db, next) && d in db.delegations
    ensures RowsSound(RowsOf(db.credentials, d), db.delegations[d], next)
  {
  }

  lemma StepMarkCredential(h: Hashes, s: System, t: nat, tx: Transaction, e: Event, after: Transaction)
    requires Ready(h, s, tx) && e.MarkCredential?
    requires Statement(h, s, t, tx, e) == Some(after)
    ensures TransactionOk(h, s.db, s.nextIssue, after)
  {
    hide DatabaseSound, RowsOf, SeenRows, SeenDelegation, PhaseOk;
    MarkCredentialEffect(h, s, t, tx, e, after);
    hide Statement;
    var d, c := tx.delegation.value, tx.command.credential;
    MarkCredentialWithin(h, s.db, s.nextIssue, tx);
    assert WritesWithin(s.db, after) by {
      forall x | x in after.writes.credentials
        ensures after.writes.credentials[x].delegation == d && (x in s.db.credentials ==> s.db.credentials[x].delegation == d)
      {
        assert x == c;
      }
    }
    assert KeyOk(h, s.db, after);
    hide KeyOk, WritesWithin, TransactionOk;
    MarkCredentialRows(s.db, s.nextIssue, tx, after, d);
    LockedOk(h, s.db, s.nextIssue, after, d);
  }

  lemma MarkCredentialWithin(h: Hashes, db: Database, next: nat, tx: Transaction)
    requires TransactionOk(h, db, next, tx) && tx.phase.Locked? && tx.command.RevokeOne? && tx.delegation.Some?
    ensures tx.delegation.value in db.delegations
    ensures tx.command.credential in RowsOf(db.credentials, tx.delegation.value)
    ensures db.credentials[tx.command.credential].delegation == tx.delegation.value
  {
    hide RowsSound, Grown, KeyOk;
  }

  lemma RevokeActiveEffect(h: Hashes, s: System, t: nat, tx: Transaction, e: Event, after: Transaction)
    requires e.RevokeActive? && Statement(h, s, t, tx, e) == Some(after)
    ensures tx.delegation.Some? && after.delegation == tx.delegation && after.key == tx.key && after.command == tx.command
    ensures after.writes == tx.writes.(credentials := RevokedRows(s.db.credentials, tx.delegation.value))
    ensures tx.phase.Marked? || tx.phase.Locked?
    ensures tx.phase.Marked? ==>
      tx.delegation.value in Over(s.db, tx.writes).delegations
      && after.phase == Written(DelegationRevoked(tx.delegation.value, Over(s.db, tx.writes).delegations[tx.delegation.value].version))
    ensures !tx.phase.Marked? ==> tx.phase.Locked? && tx.command.Issue? && after.phase == Cleared(e.first)
    ensures e.first.Some? ==> e.first.value in ActiveIn(s.db.credentials, tx.delegation.value)
  {
  }

  lemma RevokeActiveRows(db: Database, next: nat, tx: Transaction, after: Transaction, d: Id, first: Option<Id>)
    requires DatabaseSound(db, next) && d in db.delegations
    requires PhaseOk(tx, RowsOf(db.credentials, d), SeenRows(db, tx, d), db.delegations[d], SeenDelegation(db, tx, d), next)
    requires after.command == tx.command && after.writes == tx.writes.(credentials := RevokedRows(db.credentials, d))
    requires if tx.phase.Marked? then after.phase == Written(DelegationRevoked(d, SeenDelegation(db, tx, d).version))
             else tx.command.Issue? && after.phase == Cleared(first)
    requires first.Some? ==> first.value in ActiveIn(db.credentials, d)
    ensures PhaseOk(after, RowsOf(db.credentials, d), SeenRows(db, after, d), db.delegations[d], SeenDelegation(db, after, d), next)
  {
    hide RowsOf, SeenRows, DatabaseSound, Linked, NoActive, OneActive, Grown, RevokedRows, ActiveIn, Linkable;
    RowsAreSound(db, next, d);
    RowsOfRevokedAll(db.credentials, d, db.delegations[d], next);
    SeenRevoked(db, after, d);
    NoneIsOne(SeenRows(db, after, d));
  }

  lemma SeenRevoked(db: Database, after: Transaction, d: Id)
    requires after.writes.credentials == RevokedRows(db.credentials, d)
    ensures SeenRows(db, after, d) == RowsOf(db.credentials + RevokedRows(db.credentials, d), d)
  {
  }

  lemma StepRevokeActive(h: Hashes, s: System, t: nat, tx: Transaction, e: Event, after: Transaction)
    requires Ready(h, s, tx) && e.RevokeActive?
    requires Statement(h, s, t, tx, e) == Some(after)
    ensures TransactionOk(h, s.db, s.nextIssue, after)
  {
    hide DatabaseSound, PhaseOk, RowsOf, SeenRows;
    RevokeActiveEffect(h, s, t, tx, e, after);
    hide Statement;
    var d := tx.delegation.value;
    RevokeActiveRows(s.db, s.nextIssue, tx, after, d, e.first);
    LockedOk(h, s.db, s.nextIssue, after, d);
  }

  lemma NoneIsOne(rows: map<Id, Credential>)
    ensures NoActive(rows) ==> OneActive(rows)
  {
  }

  lemma InsertCredentialEffect(h: Hashes, s: System, t: nat, tx: Transaction, e: Event, after: Transaction)
    requires e.InsertCredential? && Statement(h, s, t, tx, e) == Some(after)
    ensures tx.phase.Cleared? && tx.command.Issue? && tx.delegation.Some? && tx.delegation.value in s.db.delegations
    ensures after.delegation == tx.delegation && after.key == tx.key && after.command == tx.command
    ensures CredentialIdFree(s, e.id)
    ensures exists expiresAt :: expiresAt <= s.db.delegations[tx.delegation.value].expiresAt
              && after.writes == tx.writes.(credentials :=
                   tx.writes.credentials[e.id := Credential(tx.delegation.value, expiresAt, false, None, s.nextIssue)])
    ensures after.phase == Inserted(tx.phase.previous, e.id)
         || after.phase == Written(CredentialIssued(e.id, tx.delegation.value, after.writes.credentials[e.id].expiresAt))
  {
    var d := tx.delegation.value;
    var expiresAt := Least(s.db.delegations[d].expiresAt, e.now + CredentialLifetime);
    assert after.writes == tx.writes.(credentials :=
             tx.writes.credentials[e.id := Credential(d, expiresAt, false, None, s.nextIssue)]);
  }

  lemma InsertCredentialRows(db: Database, next: nat, tx: Transaction, after: Transaction, d: Id, id: Id, expiresAt: int)
    requires d in db.delegations && expiresAt <= db.delegations[d].expiresAt && tx.phase.Cleared?
    requires PhaseOk(tx, RowsOf(db.credentials, d), SeenRows(db, tx, d), db.delegations[d], SeenDelegation(db, tx, d), next)
    requires id !in db.credentials && id !in tx.writes.credentials && after.command == tx.command
    requires after.phase == Inserted(tx.phase.previous, id) || after.phase == Written(CredentialIssued(id, d, expiresAt))
    requires after.writes == tx.writes.(credentials :=
               tx.writes.credentials[id := Credential(d, expiresAt, false, None, next)])
    ensures PhaseOk(after, RowsOf(db.credentials, d), SeenRows(db, after, d), db.delegations[d], SeenDelegation(db, after, d), next + 1)
  {
    var row := Credential(d, expiresAt, false, None, next);
    RowsOfUpdated(db.credentials, tx.writes.credentials, d, id, row);
    var rows := SeenRows(db, tx, d);
    assert id !in rows;
    InsertKeepsSound(rows, id, d, expiresAt, SeenDelegation(db, tx, d), next);
    assert SeenRows(db, after, d) == rows[id := row];
    hide RowsOf, SeenRows, Linked, NoActive, OneActive;
    GrownTransitive(RowsOf(db.credentials, d), rows, rows[id := row]);
    hide Grown;
  }

  lemma StepInsertCredential(h: Hashes, s: System, t: nat, tx: Transaction, e: Event, after: Transaction)
    requires Ready(h, s, tx) && e.InsertCredential? && t in s.running && s.running[t] == tx
    requires Statement(h, s, t, tx, e) == Some(after)
    ensures TransactionOk(h, s.db, s.nextIssue + 1, after)
  {
    hide DatabaseSound, PhaseOk, RowsOf, SeenRows, SeenDelegation;
    InsertCredentialEffect(h, s, t, tx, e, after);
    hide Statement;
    var d := tx.delegation.value;
    var expiresAt :| expiresAt <= s.db.delegations[d].expiresAt && after.writes == tx.writes.(credentials :=
      tx.writes.credentials[e.id := Credential(d, expiresAt, false, None, s.nextIssue)]);
    InsertCredentialRows(s.db, s.nextIssue, tx, after, d, e.id, expiresAt);
    LockedOk(h, s.db, s.nextIssue + 1, after, d);
  }

  lemma LinkRotationEffect(h: Hashes, s: System, t: nat, tx: Transaction, e: Event, after: Transaction)
    requires e.LinkRotation? && Statement(h, s, t, tx, e) == Some(after)
    ensures tx.phase.Inserted? && tx.phase.previous.Some?
    ensures after.delegation == tx.delegation && after.key == tx.key && after.command == tx.command
    ensures tx.phase.id in tx.writes.credentials
    ensures var row := tx.writes.credentials[tx.phase.id];
            after.phase == Written(CredentialIssued(tx.phase.id, row.delegation, row.expiresAt))
    ensures var p, view := tx.phase.previous.value, s.db.credentials + tx.writes.credentials;
      after.writes == if Linkable(view, p) then
                        tx.writes.(credentials := tx.writes.credentials[p := view[p].(rotatedTo := Some(tx.phase.id))])
                      else tx.writes
  {
  }

  /** The previous credential can always be linked: it was active, so it is now revoked and has no link. */
  lemma LinkRotationRows(db: Database, next: nat, tx: Transaction, after: Transaction, d: Id, p: Id, id: Id)
    requires d in db.delegations && tx.phase == Inserted(Some(p), id)
    requires PhaseOk(tx, RowsOf(db.credentials, d), SeenRows(db, tx, d), db.delegations[d], SeenDelegation(db, tx, d), next)
    requires after.command == tx.command && id in tx.writes.credentials && tx.writes.credentials[id].delegation == d
    requires after.phase == Written(CredentialIssued(id, d, tx.writes.credentials[id].expiresAt))
    requires var view := db.credentials + tx.writes.credentials;
      after.writes == if Linkable(view, p) then
                        tx.writes.(credentials := tx.writes.credentials[p := view[p].(rotatedTo := Some(id))])
                      else tx.writes
    ensures p in after.writes.credentials && after.writes.credentials[p].rotatedTo == Some(id)
    ensures after.writes.credentials[p].delegation == d && (p in db.credentials && p !in tx.writes.credentials ==> db.credentials[p].delegation == d)
    ensures PhaseOk(after, RowsOf(db.credentials, d), SeenRows(db, after, d), db.delegations[d], SeenDelegation(db, after, d), next)
  {
    var view, rows := db.credentials + tx.writes.credentials, SeenRows(db, tx, d);
    assert p in rows && rows[p] == view[p] && view[p].delegation == d;
    var row := view[p].(rotatedTo := Some(id));
    RowsOfUpdated(db.credentials, tx.writes.credentials, d, p, row);
    assert SeenRows(db, after, d) == rows[p := row];
    LinkKeepsSound(rows, p, id, SeenDelegation(db, tx, d), next);
    hide RowsOf, SeenRows, Linked, NoActive, OneActive;
    GrownTransitive(RowsOf(db.credentials, d), rows, rows[p := row]);
    hide Grown;
  }

  lemma StepLinkRotation(h: Hashes, s: System, t: nat, tx: Transaction, e: Event, after: Transaction)
    requires Ready(h, s, tx) && e.LinkRotation?
    requires Statement(h, s, t, tx, e) == Some(after)
    ensures TransactionOk(h, s.db, s.nextIssue, after)
  {
    hide DatabaseSound, PhaseOk, RowsOf, SeenRows, SeenDelegation, Linkable;
    LinkRotationEffect(h, s, t, tx, e, after);
    hide Statement;
    var d, p, id := tx.delegation.value, tx.phase.previous.value, tx.phase.id;
    LinkRotationRows(s.db, s.nextIssue, tx, after, d, p, id);
    LockedOk(h, s.db, s.nextIssue, after, d);
  }

  lemma StepRecord(h: Hashes, s: System, t: nat, tx: Transaction, e: Event, after: Transaction)
    requires Ready(h, s, tx) && e.Record?
    requires Statement(h, s, t, tx, e) == Some(after)
    ensures TransactionOk(h, s.db, s.nextIssue, after)
  {
    hide RowsOf, DatabaseSound, RowsSound, Grown;
  }
}
