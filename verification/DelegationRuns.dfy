/** Safety of delegated credentials over whole runs, under every interleaving of transactions. */
module DelegationRuns {
  import opened Outcomes
  import opened DelegationProtocol
  import opened DelegationSafety

  // --- Statements --------------------------------------------------------------------------------------------

  lemma StatementKeepsTransaction(h: Hashes, s: System, t: nat, e: Event, after: Transaction)
    requires Sound(h, s) && t in s.running && Statement(h, s, t, s.running[t], e) == Some(after)
    ensures TransactionOk(h, s.db, Tick(e, s.nextIssue), after)
  {
    var tx := s.running[t];
    hide TransactionOk, DatabaseSound, LedgerOk, Apart, KeyFree, DelegationFree, CredentialsFree, CredentialIdFree;
    match e {
      case LockKey(_) => StepLockKey(h, s, t, tx, e, after);
      case ReadKey(_) => StepLockKey(h, s, t, tx, e, after);
      case LockCredential(_) => StepLockKey(h, s, t, tx, e, after);
      case InsertDelegation(_, _, _) => StepInsertDelegation(h, s, t, tx, e, after);
      case LockDelegation(_, _) => StepLockDelegation(h, s, t, tx, e, after);
      case LockOwningDelegation(_) => StepLockDelegation(h, s, t, tx, e, after);
      case MarkDelegation(_) => StepMarkDelegation(h, s, t, tx, e, after);
      case MarkCredential(_) => StepMarkCredential(h, s, t, tx, e, after);
      case RevokeActive(_, _) => StepRevokeActive(h, s, t, tx, e, after);
      case InsertCredential(_, _, _) => StepInsertCredential(h, s, t, tx, e, after);
      case LinkRotation(_) => StepLinkRotation(h, s, t, tx, e, after);
      case Record(_) => StepRecord(h, s, t, tx, e, after);
      case _ =>
    }
  }

  /** What a statement takes, it takes for itself alone. */
  lemma StatementTakes(h: Hashes, s: System, t: nat, tx: Transaction, e: Event, after: Transaction)
    requires Statement(h, s, t, tx, e) == Some(after)
    ensures after.key == tx.key && !after.phase.Begun?
    ensures tx.phase.Begun? ==> KeyFree(h, s, tx.key)
    ensures after.delegation == tx.delegation || (after.delegation.Some? && DelegationFree(s, after.delegation.value))
  {
    hide KeyFree, DelegationFree, CredentialsFree, CredentialIdFree, DelegationIdFree;
  }

  ghost predicate NewCredentials(s: System, tx: Transaction, after: Transaction)
  {
    forall c | c in after.writes.credentials && c !in s.db.credentials ::
      c in tx.writes.credentials || CredentialIdFree(s, c)
  }

  ghost predicate NewDelegations(s: System, tx: Transaction, after: Transaction)
  {
    forall d | d in after.writes.delegations && d !in s.db.delegations ::
      d in tx.writes.delegations || DelegationIdFree(s, d)
  }

  lemma StatementWrites(h: Hashes, s: System, t: nat, tx: Transaction, e: Event, after: Transaction)
    requires Statement(h, s, t, tx, e) == Some(after)
    ensures NewCredentials(s, tx, after) && NewDelegations(s, tx, after)
  {
    hide KeyFree, DelegationFree, CredentialsFree, CredentialIdFree, DelegationIdFree;
  }

  lemma DisjointWrites(s: System, tx: Transaction, after: Transaction, u: nat)
    requires u in s.running && NewCredentials(s, tx, after) && NewDelegations(s, tx, after)
    requires WritesWithin(s.db, after) && WritesWithin(s.db, s.running[u])
    requires after.delegation.Some? ==> after.delegation != s.running[u].delegation
    requires tx.writes.credentials.Keys !! s.running[u].writes.credentials.Keys
    requires tx.writes.delegations.Keys !! s.running[u].writes.delegations.Keys
    ensures after.writes.credentials.Keys !! s.running[u].writes.credentials.Keys
    ensures after.writes.delegations.Keys !! s.running[u].writes.delegations.Keys
  {
  }

  lemma ApartIsSymmetric(h: Hashes, a: Transaction, b: Transaction)
    requires Apart(h, a, b)
    ensures Apart(h, b, a)
  {
  }

  lemma StatementKeepsApart(h: Hashes, s: System, t: nat, e: Event, after: Transaction, u: nat)
    requires Sound(h, s) && t in s.running && Statement(h, s, t, s.running[t], e) == Some(after)
    requires u in s.running && u != t
    ensures Apart(h, after, s.running[u])
  {
    var tx, other := s.running[t], s.running[u];
    StatementTakes(h, s, t, tx, e, after);
    StatementWrites(h, s, t, tx, e, after);
    StatementKeepsTransaction(h, s, t, e, after);
    assert Apart(h, tx, other) && TransactionOk(h, s.db, s.nextIssue, other);
    hide Statement, Sound, PhaseOk, KeyOk, NewCredentials, NewDelegations;
    assert after.delegation.Some? ==> after.delegation != other.delegation;
    assert WritesWithin(s.db, after) && WritesWithin(s.db, other);
    hide TransactionOk, WritesWithin;
    DisjointWrites(s, tx, after, u);
  }

  lemma StatementKeepsSound(h: Hashes, s: System, t: nat, e: Event, after: Transaction)
    requires Sound(h, s) && t in s.running && Statement(h, s, t, s.running[t], e) == Some(after)
    ensures Sound(h, s.(running := s.running[t := after], nextIssue := Tick(e, s.nextIssue)))
  {
    var s' := s.(running := s.running[t := after], nextIssue := Tick(e, s.nextIssue));
    hide Statement, TransactionOk, Apart, DatabaseSound;
    assert LedgerOk(h, s');
    hide LedgerOk;
    StatementKeepsTransaction(h, s, t, e, after);
    DatabaseSoundLater(s.db, s.nextIssue, s'.nextIssue);
    forall u | u in s'.running ensures TransactionOk(h, s'.db, s'.nextIssue, s'.running[u]) {
      if u != t { TransactionOkLater(h, s.db, s.nextIssue, s'.nextIssue, s.running[u]); }
    }
    forall u | u in s'.running && u != t ensures Apart(h, after, s.running[u]) && Apart(h, s.running[u], after) {
      StatementKeepsApart(h, s, t, e, after, u);
      ApartIsSymmetric(h, after, s.running[u]);
    }
  }

  lemma DatabaseSoundLater(db: Database, next: nat, later: nat)
    requires DatabaseSound(db, next) && next <= later
    ensures DatabaseSound(db, later)
  {
  }

  // --- Commit ----------------------------------------------------------------------------------------------------

  /** A commit leaves the rows of every other delegation as they were. */
  lemma OtherRowsStay(creds: map<Id, Credential>, writes: map<Id, Credential>, others: map<Id, Credential>, d: Id)
    requires forall c | c in writes :: writes[c].delegation != d && (c in creds ==> creds[c].delegation != d)
    requires writes.Keys !! others.Keys
    ensures RowsOf(creds + writes + others, d) == RowsOf(creds + others, d)
  {
  }

  lemma OtherDelegation(h: Hashes, db: Database, next: nat, tx: Transaction, d: Id)
    requires TransactionOk(h, db, next, tx) && d in db.delegations && tx.delegation != Some(d)
    ensures RowsOf((db.credentials + tx.writes.credentials) , d) == RowsOf(db.credentials, d)
    ensures d !in tx.writes.delegations
    ensures forall c | c in tx.writes.credentials :: tx.writes.credentials[c].delegation != d
              && (c in db.credentials ==> db.credentials[c].delegation != d)
  {
    hide KeyOk, PhaseOk;
    OtherRowsStay(db.credentials, tx.writes.credentials, map[], d);
    assert db.credentials + map[] == db.credentials;
    assert db.credentials + tx.writes.credentials + map[] == db.credentials + tx.writes.credentials;
  }

  lemma CommitKeepsOther(h: Hashes, s: System, t: nat, u: nat)
    requires Sound(h, s) && t in s.running && u in s.running && t != u && ReadyToCommit(s.running[t])
    ensures TransactionOk(h, Over(s.db, s.running[t].writes), s.nextIssue, s.running[u])
  {
    var tx, other := s.running[t], s.running[u];
    var db := Over(s.db, tx.writes);
    assert Apart(h, tx, other) && TransactionOk(h, s.db, s.nextIssue, tx) && TransactionOk(h, s.db, s.nextIssue, other);
    hide Sound;
    CommitKeepsKey(h, s.db, s.nextIssue, tx, other);
    CommitKeepsWithin(h, s.db, s.nextIssue, tx, other);
    hide KeyOk;
    if other.delegation.Some? {
      var d := other.delegation.value;
      OtherDelegation(h, s.db, s.nextIssue, tx, d);
      OtherRowsStay(s.db.credentials, tx.writes.credentials, other.writes.credentials, d);
      assert SeenRows(db, other, d) == SeenRows(s.db, other, d);
      assert SeenDelegation(db, other, d) == SeenDelegation(s.db, other, d);
    }
    hide WritesWithin, PhaseOk, RowsOf, SeenRows;
  }

  lemma CommitKeepsKey(h: Hashes, db: Database, next: nat, tx: Transaction, other: Transaction)
    requires TransactionOk(h, db, next, tx) && TransactionOk(h, db, next, other) && Apart(h, tx, other) && ReadyToCommit(tx)
    ensures KeyOk(h, Over(db, tx.writes), other)
  {
    hide WritesWithin, PhaseOk;
  }

  lemma CommitKeepsWithin(h: Hashes, db: Database, next: nat, tx: Transaction, other: Transaction)
    requires TransactionOk(h, db, next, tx) && TransactionOk(h, db, next, other) && Apart(h, tx, other)
    ensures WritesWithin(Over(db, tx.writes), other)
  {
    hide KeyOk, PhaseOk;
  }

  lemma CommitKeepsDatabase(h: Hashes, s: System, t: nat)
    requires Sound(h, s) && t in s.running && ReadyToCommit(s.running[t])
    ensures DatabaseSound(Over(s.db, s.running[t].writes), s.nextIssue)
  {
    var tx := s.running[t];
    var db := Over(s.db, tx.writes);
    assert TransactionOk(h, s.db, s.nextIssue, tx) && DatabaseSound(s.db, s.nextIssue);
    hide Sound, KeyOk, RowsSound;
    forall d | d in db.delegations ensures RowsSound(RowsOf(db.credentials, d), db.delegations[d], s.nextIssue) {
      if tx.delegation == Some(d) {
        CommittedRows(h, s.db, s.nextIssue, tx, d);
      } else if d in s.db.delegations {
        OtherDelegation(h, s.db, s.nextIssue, tx, d);
      } else {
        NewDelegationHasNoRows(h, s.db, s.nextIssue, tx, d);
      }
    }
  }

  lemma CommittedRows(h: Hashes, db: Database, next: nat, tx: Transaction, d: Id)
    requires TransactionOk(h, db, next, tx) && ReadyToCommit(tx) && tx.delegation == Some(d) && DatabaseSound(db, next)
    ensures RowsSound(RowsOf(Over(db, tx.writes).credentials, d), Over(db, tx.writes).delegations[d], next)
  {
    hide RowsSound, Grown, RowsOf;
    assert tx.delegation.Some? && tx.delegation.value == d;
    if tx.phase.Replayed? {
      RowsAreSound(db, next, d);
      assert db.credentials + map[] == db.credentials;
    }
  }

  lemma NewDelegationHasNoRows(h: Hashes, db: Database, next: nat, tx: Transaction, d: Id)
    requires TransactionOk(h, db, next, tx) && DatabaseSound(db, next) && d in tx.writes.delegations && d !in db.delegations
    ensures RowsSound(RowsOf(db.credentials + tx.writes.credentials, d), tx.writes.delegations[d], next)
  {
    hide KeyOk, PhaseOk;
    assert tx.delegation.None?;
    assert db.credentials + map[] == db.credentials;
    assert RowsOf(db.credentials, d) == map[];
  }

  /** The transaction's own outbox row, if it has recorded one, is the only change to the outbox. */
  lemma CommittedOutbox(h: Hashes, db: Database, next: nat, tx: Transaction)
    requires TransactionOk(h, db, next, tx) && ReadyToCommit(tx)
    ensures var outbox, row := Over(db, tx.writes).outbox, Stored(tx.command.Name(), h.request(tx.command), tx.phase.reply);
      if tx.phase.Recorded? then tx.key !in db.outbox && outbox == db.outbox[tx.key := row]
      else tx.key in db.outbox && db.outbox[tx.key] == row && outbox == db.outbox
  {
    hide WritesWithin, PhaseOk;
    assert db.outbox + map[] == db.outbox;
  }

  lemma CommitKeepsLedger(h: Hashes, s: System, t: nat, s': System)
    requires Sound(h, s) && Next(h, s, Commit(t)) == Some(s')
    ensures LedgerOk(h, s')
  {
    hide TransactionOk, DatabaseSound, Apart, Statement;
    CommittedOutbox(h, s.db, s.nextIssue, s.running[t]);
    hide Sound;
    assert LedgerOk(h, s) by { SoundLedger(h, s); }
  }

  lemma SoundLedger(h: Hashes, s: System)
    requires Sound(h, s)
    ensures LedgerOk(h, s)
  {
  }

  // --- Every event keeps the invariant ------------------------------------------------------------------------------

  lemma NextKeepsSound(h: Hashes, s: System, e: Event)
    requires Sound(h, s)
    ensures Sound(h, After(h, s, e))
  {
    hide Statement, TransactionOk, Apart, DatabaseSound, LedgerOk, KeyFree;
    var next := Next(h, s, e);
    if next.None? {
    } else if e.Begin? {
      BeginKeepsSound(h, s, e);
    } else if e.Commit? {
      var s' := next.value;
      CommitKeepsLedger(h, s, e.t, s');
      CommitKeepsDatabase(h, s, e.t);
      forall u | u in s'.running ensures TransactionOk(h, s'.db, s'.nextIssue, s'.running[u]) {
        CommitKeepsOther(h, s, e.t, u);
      }
    } else if e.Abort? {
      assert LedgerOk(h, next.value) by { SameLedger(h, s, next.value); }
    } else {
      StatementKeepsSound(h, s, e.t, e, next.value.running[e.t]);
    }
  }

  lemma SameLedger(h: Hashes, s: System, s': System)
    requires LedgerOk(h, s) && s'.db == s.db && s'.answers == s.answers && s'.mutations == s.mutations
    ensures LedgerOk(h, s')
  {
  }

  lemma BeginKeepsSound(h: Hashes, s: System, e: Event)
    requires Sound(h, s) && e.Begin? && e.t !in s.running
    ensures Sound(h, After(h, s, e))
  {
    var s' := After(h, s, e);
    var tx := s'.running[e.t];
    assert TransactionOk(h, s.db, s.nextIssue, tx);
    SameLedger(h, s, s');
    forall u | u in s.running ensures Apart(h, tx, s.running[u]) && Apart(h, s.running[u], tx) {
    }
    hide TransactionOk, Apart, DatabaseSound, LedgerOk;
  }

  lemma {:induction false} RunKeepsSound(h: Hashes, s: System, es: seq<Event>)
    requires Sound(h, s)
    ensures Sound(h, Run(h, s, es))
    decreases |es|
  {
    hide Sound, Next, After;
    if es != [] {
      NextKeepsSound(h, s, es[0]);
      RunKeepsSound(h, After(h, s, es[0]), es[1..]);
    }
  }

  lemma EmptyIsSound(h: Hashes)
    ensures Sound(h, Empty)
  {
  }

  // --- The database only grows ----------------------------------------------------------------------------------------

  /** Only an unrevoked delegation changes, and never its owner or expiry. */
  ghost predicate DelegationEvolves(a: Delegation, b: Delegation)
  {
    b.owner == a.owner && b.expiresAt == a.expiresAt && b.version >= a.version && (a.revoked ==> b == a)
  }

  ghost predicate Evolves(a: Database, b: Database)
  {
    && (forall d | d in a.delegations :: d in b.delegations && DelegationEvolves(a.delegations[d], b.delegations[d]))
    && Grown(a.credentials, b.credentials)
    && (forall k | k in a.outbox :: k in b.outbox && b.outbox[k] == a.outbox[k])
  }

  lemma CommitEvolves(h: Hashes, s: System, t: nat)
    requires Sound(h, s) && t in s.running
    ensures Evolves(s.db, Over(s.db, s.running[t].writes))
  {
    var tx := s.running[t];
    assert TransactionOk(h, s.db, s.nextIssue, tx);
    hide Sound, TransactionOk;
    CredentialsGrow(h, s.db, s.nextIssue, tx);
    DelegationsGrow(h, s.db, s.nextIssue, tx);
    OutboxGrows(h, s.db, s.nextIssue, tx);
    hide Grown;
  }

  lemma CredentialsGrow(h: Hashes, db: Database, next: nat, tx: Transaction)
    requires TransactionOk(h, db, next, tx)
    ensures Grown(db.credentials, db.credentials + tx.writes.credentials)
  {
    hide TransactionOk;
    forall c | c in db.credentials
      ensures GrownRow(db.credentials[c], (db.credentials + tx.writes.credentials)[c])
    {
      if c in tx.writes.credentials { WrittenRowGrows(h, db, next, tx, c); }
    }
  }

  lemma DelegationsGrow(h: Hashes, db: Database, next: nat, tx: Transaction)
    requires TransactionOk(h, db, next, tx)
    ensures forall d | d in db.delegations :: DelegationEvolves(db.delegations[d], (db.delegations + tx.writes.delegations)[d])
  {
    hide KeyOk, RowsSound, Grown;
    forall d | d in db.delegations && d in tx.writes.delegations
      ensures DelegationEvolves(db.delegations[d], tx.writes.delegations[d])
    {
      assert tx.delegation == Some(d);
      assert GrownDelegation(db.delegations[d], SeenDelegation(db, tx, d));
    }
  }

  lemma OutboxGrows(h: Hashes, db: Database, next: nat, tx: Transaction)
    requires TransactionOk(h, db, next, tx)
    ensures forall k | k in db.outbox :: (db.outbox + tx.writes.outbox)[k] == db.outbox[k]
  {
    hide WritesWithin, PhaseOk;
  }

  lemma WrittenRowGrows(h: Hashes, db: Database, next: nat, tx: Transaction, c: Id)
    requires TransactionOk(h, db, next, tx) && c in tx.writes.credentials && c in db.credentials
    ensures GrownRow(db.credentials[c], tx.writes.credentials[c])
  {
    hide KeyOk, RowsSound, GrownRow;
    var d := tx.delegation.value;
    assert c in RowsOf(db.credentials, d) && RowsOf(db.credentials, d)[c] == db.credentials[c];
    assert SeenRows(db, tx, d)[c] == tx.writes.credentials[c];
  }

  lemma EvolvesTransitive(a: Database, b: Database, c: Database)
    requires Evolves(a, b) && Evolves(b, c)
    ensures Evolves(a, c)
  {
  }

  lemma NextEvolves(h: Hashes, s: System, e: Event)
    requires Sound(h, s)
    ensures Evolves(s.db, After(h, s, e).db)
    ensures forall i | 0 <= i < |s.answers| :: i < |After(h, s, e).answers| && After(h, s, e).answers[i] == s.answers[i]
  {
    hide Statement, Sound;
    if e.Commit? && e.t in s.running { CommitEvolves(h, s, e.t); }
    hide Over;
  }

  lemma {:induction false} RunEvolves(h: Hashes, s: System, es: seq<Event>)
    requires Sound(h, s)
    ensures Evolves(s.db, Run(h, s, es).db) && Sound(h, Run(h, s, es))
    decreases |es|
  {
    hide Sound, After;
    if es != [] {
      NextKeepsSound(h, s, es[0]);
      NextEvolves(h, s, es[0]);
      RunEvolves(h, After(h, s, es[0]), es[1..]);
      EvolvesTransitive(s.db, After(h, s, es[0]).db, Run(h, s, es).db);
    }
  }

  // --- Main results --------------------------------------------------------------------------------------------------------

  ghost function Active(db: Database, d: Id): set<Id>
  {
    set c | c in db.credentials && db.credentials[c].delegation == d && !db.credentials[c].revoked
  }

  /** In every reachable state a delegation has at most one unrevoked credential, and none once revoked. */
  lemma AtMostOneActive(h: Hashes, es: seq<Event>, d: Id)
    ensures var db := Run(h, Empty, es).db;
      (forall a, b | a in Active(db, d) && b in Active(db, d) :: a == b)
      && (d in db.delegations && db.delegations[d].revoked ==> Active(db, d) == {})
  {
    EmptyIsSound(h);
    RunKeepsSound(h, Empty, es);
    var s := Run(h, Empty, es);
    hide Run;
    if d in s.db.delegations {
      RowsAreSound(s.db, s.nextIssue, d);
      forall c | c in Active(s.db, d) ensures c in RowsOf(s.db.credentials, d) && !RowsOf(s.db.credentials, d)[c].revoked {
      }
    }
  }

  /** Once revoked, a delegation stays revoked and never has an unrevoked credential again; a revoked
      credential stays revoked, a rotation link stays as it is, and so does an outbox row. */
  lemma RevocationIsForever(h: Hashes, es: seq<Event>, more: seq<Event>, d: Id)
    requires d in Run(h, Empty, es).db.delegations && Run(h, Empty, es).db.delegations[d].revoked
    ensures var db := Run(h, Run(h, Empty, es), more).db;
      d in db.delegations && db.delegations[d] == Run(h, Empty, es).db.delegations[d] && Active(db, d) == {}
  {
    EmptyIsSound(h);
    RunKeepsSound(h, Empty, es);
    var s := Run(h, Empty, es);
    RunEvolves(h, s, more);
    RunsCompose(h, Empty, es, more);
    AtMostOneActive(h, es + more, d);
  }

  /** The credential at the end of `n` rotation links from `c`. */
  ghost function Follow(creds: map<Id, Credential>, c: Id, n: nat): Option<Id>
  {
    if n == 0 then Some(c)
    else
      var last := Follow(creds, c, n - 1);
      if last.Some? && last.value in creds then creds[last.value].rotatedTo else None
  }

  lemma LinkFacts(db: Database, next: nat, a: Id)
    requires DatabaseSound(db, next) && a in db.credentials && db.credentials[a].rotatedTo.Some?
    ensures var b := db.credentials[a].rotatedTo.value;
      b in db.credentials && db.credentials[b].delegation == db.credentials[a].delegation
      && db.credentials[a].issue < db.credentials[b].issue && db.credentials[a].revoked
  {
    var d := db.credentials[a].delegation;
    RowsAreSound(db, next, d);
    assert a in RowsOf(db.credentials, d);
    assert db.credentials[a].rotatedTo.value in RowsOf(db.credentials, d);
  }

  lemma LinksAreInjective(db: Database, next: nat, a: Id, b: Id)
    requires DatabaseSound(db, next) && a in db.credentials && b in db.credentials
    requires db.credentials[a].rotatedTo.Some? && db.credentials[a].rotatedTo == db.credentials[b].rotatedTo
    ensures a == b
  {
    LinkFacts(db, next, a);
    LinkFacts(db, next, b);
    var d := db.credentials[a].delegation;
    RowsAreSound(db, next, d);
    assert a in RowsOf(db.credentials, d) && b in RowsOf(db.credentials, d);
  }

  /** Following links stays in one delegation and moves strictly later in insertion order, so no chain
      closes on itself. */
  lemma {:induction false} ChainsAscend(db: Database, next: nat, c: Id, n: nat)
    requires DatabaseSound(db, next) && c in db.credentials && n > 0 && Follow(db.credentials, c, n).Some?
    ensures var end := Follow(db.credentials, c, n).value;
      end in db.credentials && end != c && db.credentials[end].delegation == db.credentials[c].delegation
      && db.credentials[c].issue < db.credentials[end].issue
  {
    hide DatabaseSound;
    if n > 1 { ChainsAscend(db, next, c, n - 1); }
    LinkFacts(db, next, Follow(db.credentials, c, n - 1).value);
  }

  /** Two chains that meet are one chain: the one entered earlier runs through the start of the other. */
  lemma {:induction false} ChainsAreDisjoint(db: Database, next: nat, a: Id, m: nat, b: Id, n: nat)
    requires DatabaseSound(db, next) && a in db.credentials && b in db.credentials && m <= n
    requires Follow(db.credentials, a, m).Some? && Follow(db.credentials, a, m) == Follow(db.credentials, b, n)
    ensures Follow(db.credentials, b, n - m) == Some(a)
    decreases m
  {
    hide DatabaseSound;
    if m > 0 {
      if m > 1 { ChainsAscend(db, next, a, m - 1); }
      if n > 1 { ChainsAscend(db, next, b, n - 1); }
      LinksAreInjective(db, next, Follow(db.credentials, a, m - 1).value, Follow(db.credentials, b, n - 1).value);
      ChainsAreDisjoint(db, next, a, m - 1, b, n - 1);
    }
  }

  /** The rotation links of every reachable state form simple chains: every link of the state goes to a
      later credential of the same delegation, and credentials have at most one link in. */
  lemma RotationsFormChains(h: Hashes, es: seq<Event>, a: Id, b: Id, m: nat, n: nat)
    requires var creds := Run(h, Empty, es).db.credentials;
      a in creds && b in creds && m <= n && Follow(creds, a, m).Some?
    ensures var creds := Run(h, Empty, es).db.credentials;
      (Follow(creds, a, m) == Follow(creds, b, n) ==> Follow(creds, b, n - m) == Some(a))
      && (m > 0 ==> Follow(creds, a, m) != Some(a))
  {
    EmptyIsSound(h);
    RunKeepsSound(h, Empty, es);
    var s := Run(h, Empty, es);
    hide Run;
    assert DatabaseSound(s.db, s.nextIssue);
    hide Sound;
    if m > 0 { ChainsAscend(s.db, s.nextIssue, a, m); }
    if Follow(s.db.credentials, a, m) == Follow(s.db.credentials, b, n) {
      ChainsAreDisjoint(s.db, s.nextIssue, a, m, b, n);
    }
  }

  /** Every idempotency key causes at most one mutation: keys of committed mutations never repeat, and a
      key has an outbox row iff one mutation was committed for it. */
  lemma KeysMutateOnce(h: Hashes, es: seq<Event>)
    ensures var s := Run(h, Empty, es);
      (forall i, j | 0 <= i < j < |s.mutations| :: s.mutations[i] != s.mutations[j])
      && (forall k :: k in s.mutations <==> k in s.db.outbox)
  {
    EmptyIsSound(h);
    RunKeepsSound(h, Empty, es);
    hide Run, DatabaseSound, TransactionOk, Apart;
  }

  /** Callers that use the same key for the same command are given the same reply, however the calls are
      interleaved, and a reply, once given, stays the one recorded. */
  lemma SameKeySameReply(h: Hashes, es: seq<Event>, i: nat, j: nat)
    requires i < |Run(h, Empty, es).answers| && j < |Run(h, Empty, es).answers|
    requires Run(h, Empty, es).answers[i].key == Run(h, Empty, es).answers[j].key
    ensures Run(h, Empty, es).answers[i].reply == Run(h, Empty, es).answers[j].reply
    ensures h.request(Run(h, Empty, es).answers[i].command) == h.request(Run(h, Empty, es).answers[j].command)
  {
    EmptyIsSound(h);
    RunKeepsSound(h, Empty, es);
    hide Run, DatabaseSound, TransactionOk, Apart;
  }

  /** A credential never outlives its delegation. */
  lemma CredentialsExpireInTime(h: Hashes, es: seq<Event>, c: Id)
    requires c in Run(h, Empty, es).db.credentials
    ensures var db := Run(h, Empty, es).db;
      var d := db.credentials[c].delegation;
      d in db.delegations && db.credentials[c].expiresAt <= db.delegations[d].expiresAt
  {
    EmptyIsSound(h);
    RunKeepsSound(h, Empty, es);
    var s := Run(h, Empty, es);
    hide Run;
    var d := s.db.credentials[c].delegation;
    RowsAreSound(s.db, s.nextIssue, d);
    assert c in RowsOf(s.db.credentials, d);
  }

  /** A statement that writes an outbox row never meets a row with its key, committed or not, and one that
      inserts a credential never meets another unrevoked one of its delegation: the unique indexes of the
      schema are never violated. */
  lemma UniqueIndexesHold(h: Hashes, es: seq<Event>, e: Event, after: Transaction)
    requires var s := Run(h, Empty, es); e.t in s.running && Statement(h, s, e.t, s.running[e.t], e) == Some(after)
    ensures e.Record? ==> var s := Run(h, Empty, es); KeyUnused(s, e.t, s.running[e.t].key)
    ensures e.InsertCredential? ==> var s := Run(h, Empty, es);
      s.running[e.t].delegation.Some? && NoneActiveAnywhere(s, e.t, s.running[e.t].delegation.value)
  {
    EmptyIsSound(h);
    RunKeepsSound(h, Empty, es);
    var s := Run(h, Empty, es);
    if e.Record? { RecordMeetsNoKey(h, s, e, after); }
    if e.InsertCredential? { InsertMeetsNoActive(h, s, e, after); }
  }

  ghost predicate KeyUnused(s: System, t: nat, key: string)
  {
    key !in s.db.outbox && forall u | u in s.running && u != t :: key !in s.running[u].writes.outbox
  }

  /** No unrevoked credential of the delegation, among the rows transaction `t` sees or another is writing. */
  ghost predicate NoneActiveAnywhere(s: System, t: nat, d: Id)
    requires t in s.running
  {
    && Active(Over(s.db, s.running[t].writes), d) == {}
    && (forall u, c | u in s.running && u != t && c in s.running[u].writes.credentials ::
          s.running[u].writes.credentials[c].delegation != d)
  }

  lemma RecordMeetsNoKey(h: Hashes, s: System, e: Event, after: Transaction)
    requires Sound(h, s) && e.Record? && e.t in s.running && Statement(h, s, e.t, s.running[e.t], e) == Some(after)
    ensures KeyUnused(s, e.t, s.running[e.t].key)
  {
    hide DatabaseSound, LedgerOk, WritesWithin, PhaseOk;
    var tx := s.running[e.t];
    assert TransactionOk(h, s.db, s.nextIssue, tx);
    forall u | u in s.running && u != e.t ensures tx.key !in s.running[u].writes.outbox {
      assert TransactionOk(h, s.db, s.nextIssue, s.running[u]) && Apart(h, tx, s.running[u]);
    }
  }

  lemma InsertMeetsNoActive(h: Hashes, s: System, e: Event, after: Transaction)
    requires Sound(h, s) && e.InsertCredential? && e.t in s.running
    requires Statement(h, s, e.t, s.running[e.t], e) == Some(after)
    ensures s.running[e.t].delegation.Some? && NoneActiveAnywhere(s, e.t, s.running[e.t].delegation.value)
  {
    var tx := s.running[e.t];
    InsertCredentialEffect(h, s, e.t, tx, e, after);
    hide Statement, DatabaseSound, LedgerOk, KeyOk, RowsSound, Grown;
    assert TransactionOk(h, s.db, s.nextIssue, tx);
    var d := tx.delegation.value;
    var view := Over(s.db, tx.writes);
    forall c | c in view.credentials && view.credentials[c].delegation == d ensures view.credentials[c].revoked {
      assert c in SeenRows(s.db, tx, d);
    }
    forall u, c | u in s.running && u != e.t && c in s.running[u].writes.credentials
      ensures s.running[u].writes.credentials[c].delegation != d
    {
      assert TransactionOk(h, s.db, s.nextIssue, s.running[u]) && Apart(h, tx, s.running[u]);
    }
  }

  /** What a command has done when it commits: an issued or rotated credential is the only active one of
      its delegation; a revoked delegation has none; a revoked credential is revoked. */
  lemma CommitsDoWhatTheySay(h: Hashes, es: seq<Event>, t: nat)
    requires var s := Run(h, Empty, es); t in s.running && s.running[t].phase.Recorded? && s.running[t].delegation.Some?
    ensures var s := Run(h, Empty, es);
      var tx, db, d := s.running[t], After(h, s, Commit(t)).db, s.running[t].delegation.value;
      match tx.command
      case Issue(_, _, _, _, _) => tx.phase.reply.CredentialIssued? && Active(db, d) == {tx.phase.reply.id}
      case Revoke(_, _, _, _) => d in db.delegations && db.delegations[d].revoked && Active(db, d) == {}
      case RevokeOne(_, _, c) => c in db.credentials && db.credentials[c].revoked
      case Create(_, _, _, _) => true
  {
    EmptyIsSound(h);
    RunKeepsSound(h, Empty, es);
    var s := Run(h, Empty, es);
    hide Run, After, Sound, TransactionOk, Over, Active;
    AfterCommit(h, s, t);
    SoundTransaction(h, s, t);
    CommitMeans(h, s.db, s.nextIssue, s.running[t], s.running[t].delegation.value);
  }

  lemma AfterCommit(h: Hashes, s: System, t: nat)
    requires t in s.running && s.running[t].phase.Recorded?
    ensures After(h, s, Commit(t)).db == Over(s.db, s.running[t].writes)
  {
    hide Statement, Over;
  }

  lemma SoundTransaction(h: Hashes, s: System, t: nat)
    requires Sound(h, s) && t in s.running
    ensures TransactionOk(h, s.db, s.nextIssue, s.running[t])
  {
  }

  lemma CommitMeans(h: Hashes, before: Database, next: nat, tx: Transaction, d: Id)
    requires TransactionOk(h, before, next, tx) && tx.phase.Recorded? && tx.delegation == Some(d)
    ensures var db := Over(before, tx.writes);
      match tx.command
      case Issue(_, _, _, _, _) => tx.phase.reply.CredentialIssued? && Active(db, d) == {tx.phase.reply.id}
      case Revoke(_, _, _, _) => d in db.delegations && db.delegations[d].revoked && Active(db, d) == {}
      case RevokeOne(_, _, c) => c in db.credentials && db.credentials[c].revoked
      case Create(_, _, _, _) => true
  {
    hide KeyOk, Grown, Linked, Bounded, OneActive, NoActive, Active, RowsOf;
    var db := Over(before, tx.writes);
    assert d in before.delegations;
    hide WritesWithin;
    var rows := SeenRows(before, tx, d);
    assert rows == RowsOf(db.credentials, d);
    ActiveRows(db, d);
    if tx.command.Issue? { OnlyActive(db, d, tx.phase.reply.id); }
    if tx.command.RevokeOne? { RowIsIn(db.credentials, d, tx.command.credential); }
  }

  lemma RowIsIn(creds: map<Id, Credential>, d: Id, c: Id)
    requires c in RowsOf(creds, d)
    ensures c in creds && creds[c] == RowsOf(creds, d)[c]
  {
  }

  lemma ActiveRows(db: Database, d: Id)
    ensures NoActive(RowsOf(db.credentials, d)) ==> Active(db, d) == {}
  {
    forall c | c in Active(db, d) ensures c in RowsOf(db.credentials, d) && !RowsOf(db.credentials, d)[c].revoked {
    }
  }

  lemma OnlyActive(db: Database, d: Id, id: Id)
    requires var rows := RowsOf(db.credentials, d); OneActive(rows) && id in rows && !rows[id].revoked
    ensures Active(db, d) == {id}
  {
    forall c | c in Active(db, d) ensures c in RowsOf(db.credentials, d) && !RowsOf(db.credentials, d)[c].revoked {
    }
  }
}
