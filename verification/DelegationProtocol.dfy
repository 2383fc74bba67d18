/** The life of delegated credentials as interleaved database transactions: each step is one SQL
    statement, which sees the committed rows and its own transaction's rows, and waits for locks that
    other transactions hold. */
module DelegationProtocol {
  import opened Outcomes

  type Id = string

  // --- Rows ---------------------------------------------------------------------------------------------

  datatype Owner = Owner(actor: Id, tenant: Id, project: Id)

  datatype Delegation = Delegation(owner: Owner, delegate: Id, purpose: string, expiresAt: int, revoked: bool, version: nat)

  /** A credential row; `issue` is its place in the order of insertion. */
  datatype Credential = Credential(delegation: Id, expiresAt: int, revoked: bool, rotatedTo: Option<Id>, issue: nat)

  datatype Name = CreateDelegation | IssueCredential | RotateCredential | RevokeDelegation | RevokeCredential

  datatype Command =
    | Create(owner: Owner, purpose: string, delegate: Id, seconds: nat)
    | Issue(owner: Owner, purpose: string, delegation: Id, version: nat, rotate: bool)
    | Revoke(owner: Owner, purpose: string, delegation: Id, version: nat)
    | RevokeOne(owner: Owner, purpose: string, credential: Id)
  {
    function Name(): Name
    {
      match this
      case Create(_, _, _, _) => CreateDelegation
      case Issue(_, _, _, _, rotate) => if rotate then RotateCredential else IssueCredential
      case Revoke(_, _, _, _) => RevokeDelegation
      case RevokeOne(_, _, _) => RevokeCredential
    }
  }

  datatype Reply =
    | DelegationCreated(id: Id, view: Delegation)
    | CredentialIssued(id: Id, delegation: Id, expiresAt: int)
    | DelegationRevoked(id: Id, version: nat)
    | CredentialRevoked(id: Id, delegation: Id)

  /** An outbox row: which command it answers and what it answered. */
  datatype Stored = Stored(command: Name, requestHash: string, reply: Reply)

  datatype Database = Database(delegations: map<Id, Delegation>, credentials: map<Id, Credential>,
                               outbox: map<string, Stored>)

  const Nothing := Database(map[], map[], map[])

  /** The rows a transaction sees: the committed ones, with its own on top. */
  function Over(db: Database, writes: Database): Database
  {
    Database(db.delegations + writes.delegations, db.credentials + writes.credentials, db.outbox + writes.outbox)
  }

  /** The hash of a request, and the advisory lock a key is hashed to. */
  datatype Hashes = Hashes(request: Command -> string, slot: string -> int)

  // --- Transactions ----------------------------------------------------------------------------------------

  datatype Phase =
    | Begun
    | KeyHeld
    | Fresh                   // the key has no outbox row
    | CredentialHeld          // the credential row is locked, its delegation is not yet
    | Locked                  // the delegation row is locked and checked
    | Marked                  // the delegation is revoked
    | Cleared(previous: Option<Id>)   // the active credentials are revoked
    | Inserted(previous: Option<Id>, id: Id)
    | Written(reply: Reply)   // every row is written but the outbox row
    | Recorded(reply: Reply)
    | Replayed(reply: Reply)

  datatype Transaction = Transaction(key: string, command: Command, phase: Phase, delegation: Option<Id>,
                                     credential: Option<Id>, writes: Database)

  datatype Answer = Answer(key: string, command: Command, reply: Reply)

  /** The committed rows, the running transactions, the next place in the order of insertion, the keys of
      the committed mutations in commit order, and what callers have been told. */
  datatype System = System(db: Database, running: map<nat, Transaction>, nextIssue: nat, mutations: seq<string>,
                           answers: seq<Answer>)

  const Empty := System(Nothing, map[], 0, [], [])

  datatype Event =
    | Begin(t: nat, key: string, command: Command)
    | LockKey(t: nat)
    | ReadKey(t: nat)
    | InsertDelegation(t: nat, id: Id, now: int)
    | LockDelegation(t: nat, now: int)
    | LockCredential(t: nat)
    | LockOwningDelegation(t: nat)
    | MarkDelegation(t: nat)
    | MarkCredential(t: nat)
    | RevokeActive(t: nat, first: Option<Id>)   // the row the update happens to return first
    | InsertCredential(t: nat, id: Id, now: int)
    | LinkRotation(t: nat)
    | Record(t: nat)
    | Commit(t: nat)
    | Abort(t: nat)

  function ActiveIn(creds: map<Id, Credential>, d: Id): set<Id>
  {
    set c | c in creds && creds[c].delegation == d && !creds[c].revoked
  }

  /** The active credentials of a delegation, revoked. */
  function RevokedRows(creds: map<Id, Credential>, d: Id): map<Id, Credential>
  {
    map c | c in ActiveIn(creds, d) :: creds[c].(revoked := true)
  }

  predicate KeyFree(h: Hashes, s: System, key: string)
  {
    forall u | u in s.running && s.running[u].phase != Begun :: h.slot(s.running[u].key) != h.slot(key)
  }

  predicate DelegationFree(s: System, d: Id)
  {
    forall u | u in s.running :: s.running[u].delegation != Some(d)
  }

  /** No other transaction has locked or updated any of these credential rows. */
  predicate CredentialsFree(s: System, t: nat, cs: set<Id>)
  {
    forall u | u in s.running && u != t ::
      (s.running[u].credential.Some? ==> s.running[u].credential.value !in cs) && s.running[u].writes.credentials.Keys !! cs
  }

  predicate CredentialIdFree(s: System, id: Id)
  {
    id !in s.db.credentials && forall u | u in s.running :: id !in s.running[u].writes.credentials
  }

  predicate DelegationIdFree(s: System, id: Id)
  {
    id !in s.db.delegations && forall u | u in s.running :: id !in s.running[u].writes.delegations
  }

  /** Whether a command may go on with the delegation row it has read. */
  predicate MayProceed(command: Command, row: Delegation, now: int)
  {
    match command
    case Issue(owner, purpose, _, version, _) =>
      row.owner == owner && row.version == version && !row.revoked && now < row.expiresAt && row.purpose == purpose
    case Revoke(owner, _, _, version) => row.owner == owner && (row.revoked || row.version == version)
    case _ => false
  }

  function Least(a: int, b: int): int
  {
    if a <= b then a else b
  }

  predicate IsOneOf(first: Option<Id>, ids: set<Id>)
  {
    if first.None? then ids == {} else first.value in ids
  }

  const CredentialLifetime := 15 * 60

  /** One statement of transaction `tx`: its new state, or None if the statement cannot run now. */
  function Statement(h: Hashes, s: System, t: nat, tx: Transaction, e: Event): Option<Transaction>
  {
    var view := Over(s.db, tx.writes);
    match e
    case LockKey(_) =>
      if tx.phase.Begun? && KeyFree(h, s, tx.key) then Some(tx.(phase := KeyHeld)) else None
    case ReadKey(_) =>
      if !tx.phase.KeyHeld? then None
      else if tx.key !in s.db.outbox then Some(tx.(phase := Fresh))
      else
        var row := s.db.outbox[tx.key];
        if row.command == tx.command.Name() && row.requestHash == h.request(tx.command) && !tx.command.Issue? then
          Some(tx.(phase := Replayed(row.reply)))
        else None
    case InsertDelegation(_, id, now) =>
      if tx.phase.Fresh? && tx.command.Create? && DelegationIdFree(s, id) then
        var row := Delegation(tx.command.owner, tx.command.delegate, tx.command.purpose, now + tx.command.seconds, false, 1);
        Some(tx.(phase := Written(DelegationCreated(id, row)), writes := Database(map[id := row], map[], map[])))
      else None
    case LockDelegation(_, now) =>
      if tx.phase.Fresh? && (tx.command.Issue? || tx.command.Revoke?)
         && tx.command.delegation in s.db.delegations && DelegationFree(s, tx.command.delegation)
         && MayProceed(tx.command, s.db.delegations[tx.command.delegation], now)
      then Some(tx.(phase := Locked, delegation := Some(tx.command.delegation)))
      else None
    case LockCredential(_) =>
      if tx.phase.Fresh? && tx.command.RevokeOne? && tx.command.credential in s.db.credentials
         && CredentialsFree(s, t, {tx.command.credential})
      then Some(tx.(phase := CredentialHeld, credential := Some(tx.command.credential)))
      else None
    case LockOwningDelegation(_) =>
      if tx.phase.CredentialHeld? && tx.command.RevokeOne? && tx.command.credential in s.db.credentials then
        var d := s.db.credentials[tx.command.credential].delegation;
        if d in s.db.delegations && DelegationFree(s, d) && s.db.delegations[d].owner == tx.command.owner
        then Some(tx.(phase := Locked, delegation := Some(d)))
        else None
      else None
    case MarkDelegation(_) =>
      if tx.phase.Locked? && tx.command.Revoke? && tx.delegation.Some? && tx.delegation.value in s.db.delegations then
        var d := tx.delegation.value;
        var row := s.db.delegations[d];
        Some(tx.(phase := Marked,
                 writes := if row.revoked then tx.writes
                           else tx.writes.(delegations := map[d := row.(revoked := true, version := row.version + 1)])))
      else None
    case MarkCredential(_) =>
      if tx.phase.Locked? && tx.command.RevokeOne? && tx.command.credential in s.db.credentials then
        var c := tx.command.credential;
        var row := s.db.credentials[c];
        Some(tx.(phase := Written(CredentialRevoked(c, row.delegation)),
                 writes := if row.revoked then tx.writes
                           else tx.writes.(credentials := map[c := row.(revoked := true)])))
      else None
    case RevokeActive(_, first) =>
      if tx.delegation.Some? && IsOneOf(first, ActiveIn(s.db.credentials, tx.delegation.value))
         && CredentialsFree(s, t, ActiveIn(s.db.credentials, tx.delegation.value))
         && ((tx.phase.Locked? && tx.command.Issue?) || tx.phase.Marked?)
      then
        var d := tx.delegation.value;
        var rows := tx.writes.(credentials := RevokedRows(s.db.credentials, d));
        if tx.phase.Marked? then
          if d in view.delegations then
            Some(tx.(phase := Written(DelegationRevoked(d, view.delegations[d].version)), writes := rows))
          else None
        else if tx.command.rotate && first.None? then None
        else Some(tx.(phase := Cleared(first), writes := rows))
      else None
    case InsertCredential(_, id, now) =>
      if tx.phase.Cleared? && tx.command.Issue? && tx.delegation.Some? && tx.delegation.value in s.db.delegations
         && CredentialIdFree(s, id)
      then
        var d := tx.delegation.value;
        var expiresAt := Least(s.db.delegations[d].expiresAt, now + CredentialLifetime);
        var row := Credential(d, expiresAt, false, None, s.nextIssue);
        Some(tx.(phase := if tx.command.rotate then Inserted(tx.phase.previous, id)
                          else Written(CredentialIssued(id, d, expiresAt)),
                 writes := tx.writes.(credentials := tx.writes.credentials[id := row])))
      else None
    case LinkRotation(_) =>
      if tx.phase.Inserted? && tx.phase.previous.Some? && tx.phase.id in tx.writes.credentials then
        var p := tx.phase.previous.value;
        var row := tx.writes.credentials[tx.phase.id];
        Some(tx.(phase := Written(CredentialIssued(tx.phase.id, row.delegation, row.expiresAt)),
                 writes := if p in view.credentials && view.credentials[p].revoked && view.credentials[p].rotatedTo.None? then
                             tx.writes.(credentials :=
                               tx.writes.credentials[p := view.credentials[p].(rotatedTo := Some(tx.phase.id))])
                           else tx.writes))
      else None
    case Record(_) =>
      if tx.phase.Written? then
        var row := Stored(tx.command.Name(), h.request(tx.command), tx.phase.reply);
        Some(tx.(phase := Recorded(tx.phase.reply), writes := tx.writes.(outbox := map[tx.key := row])))
      else None
    case _ => None
  }

  predicate ReadyToCommit(tx: Transaction)
  {
    tx.phase.Recorded? || tx.phase.Replayed?
  }

  function Tick(e: Event, next: nat): nat
  {
    if e.InsertCredential? then next + 1 else next
  }

  /** One event: a transaction begins, runs a statement, commits or aborts. None: it cannot happen now. */
  function Next(h: Hashes, s: System, e: Event): Option<System>
  {
    if e.Begin? then
      if e.t in s.running then None
      else Some(s.(running := s.running[e.t := Transaction(e.key, e.command, Begun, None, None, Nothing)]))
    else if e.t !in s.running then None
    else if e.Abort? then Some(s.(running := s.running - {e.t}))
    else if e.Commit? then
      var tx := s.running[e.t];
      if ReadyToCommit(tx) then
        Some(s.(db := Over(s.db, tx.writes), running := s.running - {e.t},
                mutations := s.mutations + (if tx.phase.Recorded? then [tx.key] else []),
                answers := s.answers + [Answer(tx.key, tx.command, tx.phase.reply)]))
      else None
    else
      var tx := Statement(h, s, e.t, s.running[e.t], e);
      if tx.None? then None
      else Some(s.(running := s.running[e.t := tx.value], nextIssue := Tick(e, s.nextIssue)))
  }

  function After(h: Hashes, s: System, e: Event): System
  {
    var next := Next(h, s, e);
    if next.Some? then next.value else s
  }

  /** A whole run; events that cannot happen are skipped. */
  function Run(h: Hashes, s: System, es: seq<Event>): System
    decreases |es|
  {
    if es == [] then s else Run(h, After(h, s, es[0]), es[1..])
  }

  lemma {:induction false} RunsCompose(h: Hashes, s: System, es: seq<Event>, more: seq<Event>)
    ensures Run(h, s, es + more) == Run(h, Run(h, s, es), more)
    decreases |es|
  {
    hide After;
    if es == [] {
      assert es + more == more;
    } else {
      assert (es + more)[0] == es[0] && (es + more)[1..] == es[1..] + more;
      RunsCompose(h, After(h, s, es[0]), es[1..], more);
    }
  }
}
