/** Purpose-bound record grants: the rows of the share table and the audit trail behind them. */
module Shares {
  import opened Basics

  type UserId = nat
  type RecordId = nat

  datatype Permission = EditPermission | ViewPermission

  datatype Purpose = Unspecified | Reimbursement

  datatype Config = Config(permission: Permission, purpose: Purpose, includeDocuments: bool, expiresAt: Option<int>)

  datatype Share = Share(config: Config, sharedBy: UserId, revokedAt: Option<int>)

  /** The unique (record, user) pair of a row. */
  datatype Key = Key(record: RecordId, user: UserId)

  datatype Action = Shared | Revoked

  datatype AuditEntry = AuditEntry(action: Action, actor: UserId, key: Key, reactivated: bool)

  datatype Table = Table(rows: map<Key, Share>, audit: seq<AuditEntry>)

  datatype RecordRef = RecordRef(id: RecordId, owner: UserId, active: bool)

  datatype ShareError = NotOwner | SelfShare

  predicate IsActive(share: Share, now: int) {
    share.revokedAt.None? && (share.config.expiresAt.None? || share.config.expiresAt.value > now)
  }

  predicate ActiveReimbursement(table: Table, key: Key, now: int) {
    key in table.rows && IsActive(table.rows[key], now) && table.rows[key].config.purpose == Reimbursement
  }

  function GrantAccess(table: Table, record: RecordRef, user: UserId, requester: UserId, config: Config, now: int)
    : Result<(Table, bool), ShareError>
  {
    var key := Key(record.id, user);
    var granted := table.rows[key := Share(config, requester, None)];
    if record.owner != requester then Failure(NotOwner)
    else if user == record.owner then Failure(SelfShare)
    else if key !in table.rows then
      Success((Table(granted, table.audit + [AuditEntry(Shared, requester, key, false)]), true))
    else if IsActive(table.rows[key], now) then Success((table, false))
    else Success((Table(granted, table.audit + [AuditEntry(Shared, requester, key, true)]), true))
  }

  function RevokeShare(table: Table, record: RecordRef, actor: UserId, user: UserId, now: int): Result<Table, ShareError>
    requires Key(record.id, user) in table.rows
  {
    var key := Key(record.id, user);
    if record.owner != actor then Failure(NotOwner)
    else if table.rows[key].revokedAt.Some? then Success(table)
    else Success(Table(table.rows[key := table.rows[key].(revokedAt := Some(now))],
                       table.audit + [AuditEntry(Revoked, actor, key, false)]))
  }

  function PackageConfig(expiresAt: Option<int>): Config {
    Config(ViewPermission, Reimbursement, true, expiresAt)
  }

  /** Granting a recipient every active record in turn; the flag is false when a grant raised. */
  function GrantAll(table: Table, records: seq<RecordRef>, recipient: UserId, creator: UserId, expiresAt: Option<int>, now: int)
    : (Table, bool)
    decreases |records|
  {
    if records == [] then (table, true)
    else if !records[0].active then GrantAll(table, records[1..], recipient, creator, expiresAt, now)
    else
      match GrantAccess(table, records[0], recipient, creator, PackageConfig(expiresAt), now)
      case Failure(_) => (table, false)
      case Success((next, _)) => GrantAll(next, records[1..], recipient, creator, expiresAt, now)
  }

  /** Revoking every live reimbursement grant of a recipient in turn; false when a revocation raised. */
  function RevokeAll(table: Table, records: seq<RecordRef>, recipient: UserId, creator: UserId, now: int): (Table, bool)
    decreases |records|
  {
    if records == [] then (table, true)
    else if !ActiveReimbursement(table, Key(records[0].id, recipient), now) then
      RevokeAll(table, records[1..], recipient, creator, now)
    else
      match RevokeShare(table, records[0], creator, recipient, now)
      case Failure(_) => (table, false)
      case Success(next) => RevokeAll(next, records[1..], recipient, creator, now)
  }

  function GrantPackage(table: Table, records: seq<RecordRef>, recipient: Option<UserId>, creator: UserId, expiresAt: Option<int>, now: int)
    : (Table, bool)
  {
    if recipient.None? then (table, true) else GrantAll(table, records, recipient.value, creator, expiresAt, now)
  }

  function RevokePackage(table: Table, records: seq<RecordRef>, recipient: Option<UserId>, creator: UserId, now: int): (Table, bool) {
    if recipient.None? then (table, true) else RevokeAll(table, records, recipient.value, creator, now)
  }

  // ----- Single grants and revocations -----

  /** A grant is refused to all but the record's owner and for the owner; a live row stays as it is;
      otherwise the row becomes the new terms, unrevoked, and one entry is logged. */
  lemma GrantOutcome(table: Table, record: RecordRef, user: UserId, requester: UserId, config: Config, now: int)
    ensures var r, key := GrantAccess(table, record, user, requester, config, now), Key(record.id, user);
            var live := key in table.rows && IsActive(table.rows[key], now);
            && (r == Failure(NotOwner) <==> requester != record.owner)
            && (r == Failure(SelfShare) <==> requester == record.owner == user)
            && (r.Success? && live ==> r.value == (table, false))
            && (r.Success? && !live ==>
                  && r.value.1 && r.value.0.rows == table.rows[key := Share(config, requester, None)]
                  && r.value.0.audit == table.audit + [AuditEntry(Shared, requester, key, key in table.rows)])
  {
  }

  /** A revocation is refused to all but the record's owner; it stamps an unrevoked row once. */
  lemma RevokeOutcome(table: Table, record: RecordRef, actor: UserId, user: UserId, now: int)
    requires Key(record.id, user) in table.rows
    ensures var r, key := RevokeShare(table, record, actor, user, now), Key(record.id, user);
            && (r.Failure? <==> actor != record.owner)
            && (r.Success? && table.rows[key].revokedAt.Some? ==> r.value == table)
            && (r.Success? && table.rows[key].revokedAt.None? ==>
                  && r.value.rows == table.rows[key := table.rows[key].(revokedAt := Some(now))]
                  && r.value.audit == table.audit + [AuditEntry(Revoked, actor, key, false)])
  {
  }

  /** A fresh grant is live from its first moment up to, but not at, its expiry, and never again once
      it has been revoked. */
  lemma GrantLifetime(table: Table, record: RecordRef, user: UserId, config: Config, now: int, later: int, end: int)
    requires user != record.owner && now <= later <= end
    requires Key(record.id, user) !in table.rows
    ensures var key, granted := Key(record.id, user), GrantAccess(table, record, user, record.owner, config, now).value.0;
            && key in granted.rows
            && (IsActive(granted.rows[key], later) <==> config.expiresAt.None? || later < config.expiresAt.value)
            && var revoked := RevokeShare(granted, record, record.owner, user, later).value;
               key in revoked.rows && !IsActive(revoked.rows[key], end)
  {
  }

  // ----- Revocation -----

  predicate AllOwnedBy(records: seq<RecordRef>, creator: UserId) {
    forall r | r in records :: r.owner == creator
  }

  /** The only rows a revocation may touch: live reimbursement grants of this recipient on these records. */
  predicate InScope(table: Table, key: Key, records: seq<RecordRef>, recipient: UserId, now: int) {
    key.user == recipient && ActiveReimbursement(table, key, now) && exists r :: r in records && r.id == key.record
  }

  /** A completed revocation stamps exactly the grants in scope and leaves every other row as it was. */
  lemma {:induction false} RevokeAllExactly(table: Table, records: seq<RecordRef>, recipient: UserId, creator: UserId, now: int)
    ensures var (after, ok) := RevokeAll(table, records, recipient, creator, now);
            && after.rows.Keys == table.rows.Keys
            && (ok ==> forall key | key in table.rows ::
                  after.rows[key] == if InScope(table, key, records, recipient, now)
                                     then table.rows[key].(revokedAt := Some(now)) else table.rows[key])
    decreases |records|
  {
    if records != [] {
      var key := Key(records[0].id, recipient);
      assert records == [records[0]] + records[1..];
      if !ActiveReimbursement(table, key, now) {
        RevokeAllExactly(table, records[1..], recipient, creator, now);
      } else if records[0].owner == creator {
        var next := RevokeShare(table, records[0], creator, recipient, now).value;
        RevokeAllExactly(next, records[1..], recipient, creator, now);
      }
    }
  }

  /** Afterwards the recipient has no live reimbursement grant on any of the records, now or later. */
  lemma RevokeAllClears(table: Table, records: seq<RecordRef>, recipient: UserId, creator: UserId, now: int, later: int)
    requires now <= later && RevokeAll(table, records, recipient, creator, now).1
    ensures forall r | r in records ::
              !ActiveReimbursement(RevokeAll(table, records, recipient, creator, now).0, Key(r.id, recipient), later)
  {
    RevokeAllExactly(table, records, recipient, creator, now);
    var after := RevokeAll(table, records, recipient, creator, now).0;
    forall r | r in records
      ensures !ActiveReimbursement(after, Key(r.id, recipient), later)
    {
      var key := Key(r.id, recipient);
      if key in table.rows {
        assert ActiveReimbursement(table, key, now) ==> InScope(table, key, records, recipient, now);
      }
    }
  }

  /** Revocation can only be refused over a live grant on somebody else's record. */
  lemma {:induction false} RevokeAllSucceeds(table: Table, records: seq<RecordRef>, recipient: UserId, creator: UserId, now: int)
    requires AllOwnedBy(records, creator)
    ensures RevokeAll(table, records, recipient, creator, now).1
    decreases |records|
  {
    if records != [] {
      var key := Key(records[0].id, recipient);
      if !ActiveReimbursement(table, key, now) {
        RevokeAllSucceeds(table, records[1..], recipient, creator, now);
      } else {
        RevokeAllSucceeds(RevokeShare(table, records[0], creator, recipient, now).value, records[1..], recipient, creator, now);
      }
    }
  }

  // ----- Granting -----

  /** The only rows a grant may write: the recipient's, on an active record, and not live already. */
  predicate InGrantScope(table: Table, key: Key, records: seq<RecordRef>, recipient: UserId, now: int) {
    && key.user == recipient && !(key in table.rows && IsActive(table.rows[key], now))
    && exists r :: r in records && r.active && r.id == key.record
  }

  /** Granting a package gives exactly the rows in scope the package's terms, adding those that are
      missing, and leaves every other row as it was. So unless the package has expired, the recipient
      ends up with live access to every active record. */
  lemma {:induction false} GrantAllExactly(table: Table, records: seq<RecordRef>, recipient: UserId, creator: UserId, expiresAt: Option<int>, now: int)
    requires AllOwnedBy(records, creator) && recipient != creator
    ensures var (after, ok) := GrantAll(table, records, recipient, creator, expiresAt, now);
            && ok
            && table.rows.Keys <= after.rows.Keys
            && (forall key | key in after.rows ::
                  if InGrantScope(table, key, records, recipient, now) then after.rows[key] == PackageShare(creator, expiresAt)
                  else key in table.rows && after.rows[key] == table.rows[key])
            && (forall r | r in records && r.active ::
                  && Key(r.id, recipient) in after.rows
                  && (IsActive(PackageShare(creator, expiresAt), now) ==> IsActive(after.rows[Key(r.id, recipient)], now)))
    decreases |records|
  {
    if records != [] {
      assert records == [records[0]] + records[1..];
      if !records[0].active {
        GrantAllExactly(table, records[1..], recipient, creator, expiresAt, now);
      } else {
        var next := GrantAccess(table, records[0], recipient, creator, PackageConfig(expiresAt), now).value.0;
        GrantAllExactly(next, records[1..], recipient, creator, expiresAt, now);
      }
    }
  }

  /** A package addressed to its own creator grants nothing: the first grant raises. */
  lemma {:induction false} GrantAllToCreator(table: Table, records: seq<RecordRef>, creator: UserId, expiresAt: Option<int>, now: int)
    requires AllOwnedBy(records, creator)
    ensures GrantAll(table, records, creator, creator, expiresAt, now).0 == table
    decreases |records|
  {
    if records != [] && !records[0].active {
      GrantAllToCreator(table, records[1..], creator, expiresAt, now);
    }
  }

  function PackageShare(creator: UserId, expiresAt: Option<int>): Share {
    Share(PackageConfig(expiresAt), creator, None)
  }

  /** The terms of a package's grants: viewing, documents included, for reimbursement, from the creator,
      until the package expires. */
  lemma PackageGrantsViewing(table: Table, records: seq<RecordRef>, recipient: UserId, creator: UserId, expiresAt: Option<int>, now: int, r: RecordRef)
    requires AllOwnedBy(records, creator) && recipient != creator && r in records && r.active
    requires var key := Key(r.id, recipient); key in table.rows ==> !IsActive(table.rows[key], now)
    ensures var after, key := GrantAll(table, records, recipient, creator, expiresAt, now).0, Key(r.id, recipient);
            key in after.rows && after.rows[key] == Share(Config(ViewPermission, Reimbursement, true, expiresAt), creator, None)
  {
    GrantAllExactly(table, records, recipient, creator, expiresAt, now);
    assert InGrantScope(table, Key(r.id, recipient), records, recipient, now);
  }

  /** Revoking for a package spares every grant for another purpose, to another user or on another
      record, and every grant that is live no longer. */
  lemma RevocationSparesOthers(table: Table, records: seq<RecordRef>, recipient: UserId, creator: UserId, now: int, key: Key)
    requires key in table.rows && RevokeAll(table, records, recipient, creator, now).1
    requires table.rows[key].config.purpose != Reimbursement || key.user != recipient || (forall r | r in records :: r.id != key.record)
             || table.rows[key].revokedAt.Some? || (table.rows[key].config.expiresAt.Some? && table.rows[key].config.expiresAt.value <= now)
    ensures var after := RevokeAll(table, records, recipient, creator, now).0;
            key in after.rows && after.rows[key] == table.rows[key]
  {
    RevokeAllExactly(table, records, recipient, creator, now);
    assert !InScope(table, key, records, recipient, now);
  }

  // ----- The audit trail -----

  /** Grants minus revocations of a pair in the trail. */
  function Open(audit: seq<AuditEntry>, key: Key): int {
    if audit == [] then 0
    else
      var last := audit[|audit| - 1];
      Open(audit[..|audit| - 1], key) + (if last.key != key then 0 else if last.action == Shared then 1 else -1)
  }

  /** Every revocation has its own earlier grant: in no prefix do revocations outnumber grants. */
  ghost predicate Matched(audit: seq<AuditEntry>) {
    forall n, key | 0 <= n <= |audit| :: Open(audit[..n], key) >= 0
  }

  /** The invariant of the table: a matched trail in which each unrevoked row has a grant to spare. */
  ghost predicate Audited(table: Table) {
    && Matched(table.audit)
    && forall key | key in table.rows && table.rows[key].revokedAt.None? :: Open(table.audit, key) >= 1
  }

  lemma OpenAppend(audit: seq<AuditEntry>, entry: AuditEntry, key: Key)
    ensures Open(audit + [entry], key) ==
            Open(audit, key) + (if entry.key != key then 0 else if entry.action == Shared then 1 else -1)
  {
    assert (audit + [entry])[..|audit|] == audit;
  }

  lemma MatchedAppend(audit: seq<AuditEntry>, entry: AuditEntry)
    requires Matched(audit)
    requires entry.action == Revoked ==> Open(audit, entry.key) >= 1
    ensures Matched(audit + [entry])
  {
    var longer := audit + [entry];
    assert audit[..|audit|] == audit;
    forall n, key | 0 <= n <= |longer|
      ensures Open(longer[..n], key) >= 0
    {
      if n <= |audit| {
        assert longer[..n] == audit[..n];
      } else {
        assert longer[..n] == longer;
        OpenAppend(audit, entry, key);
        assert Open(audit[..|audit|], key) >= 0;
      }
    }
  }

  lemma GrantKeepsAudited(table: Table, record: RecordRef, user: UserId, requester: UserId, config: Config, now: int)
    requires Audited(table)
    ensures var r := GrantAccess(table, record, user, requester, config, now);
            r.Success? ==> Audited(r.value.0) && table.rows.Keys <= r.value.0.rows.Keys && table.audit <= r.value.0.audit
  {
    var r := GrantAccess(table, record, user, requester, config, now);
    if r.Success? && r.value.1 {
      var after := r.value.0;
      var entry := after.audit[|table.audit|];
      assert after.audit == table.audit + [entry];
      MatchedAppend(table.audit, entry);
      forall key | key in after.rows && after.rows[key].revokedAt.None?
        ensures Open(after.audit, key) >= 1
      {
        OpenAppend(table.audit, entry, key);
        assert Open(table.audit[..|table.audit|], key) >= 0;
        assert table.audit[..|table.audit|] == table.audit;
      }
    }
  }

  lemma RevokeKeepsAudited(table: Table, record: RecordRef, actor: UserId, user: UserId, now: int)
    requires Audited(table) && Key(record.id, user) in table.rows
    ensures var r := RevokeShare(table, record, actor, user, now);
            r.Success? ==> Audited(r.value) && table.rows.Keys == r.value.rows.Keys && table.audit <= r.value.audit
  {
    var r := RevokeShare(table, record, actor, user, now);
    if r.Success? && r.value != table {
      var entry := AuditEntry(Revoked, actor, Key(record.id, user), false);
      MatchedAppend(table.audit, entry);
      forall key | key in r.value.rows && r.value.rows[key].revokedAt.None?
        ensures Open(r.value.audit, key) >= 1
      {
        OpenAppend(table.audit, entry, key);
      }
    }
  }

  lemma {:induction false} GrantAllKeepsAudited(table: Table, records: seq<RecordRef>, recipient: UserId, creator: UserId, expiresAt: Option<int>, now: int)
    requires Audited(table)
    ensures var after := GrantAll(table, records, recipient, creator, expiresAt, now).0;
            Audited(after) && table.rows.Keys <= after.rows.Keys && table.audit <= after.audit
    decreases |records|
  {
    if records != [] {
      if !records[0].active {
        GrantAllKeepsAudited(table, records[1..], recipient, creator, expiresAt, now);
      } else {
        var r := GrantAccess(table, records[0], recipient, creator, PackageConfig(expiresAt), now);
        GrantKeepsAudited(table, records[0], recipient, creator, PackageConfig(expiresAt), now);
        if r.Success? {
          GrantAllKeepsAudited(r.value.0, records[1..], recipient, creator, expiresAt, now);
        }
      }
    }
  }

  lemma {:induction false} RevokeAllKeepsAudited(table: Table, records: seq<RecordRef>, recipient: UserId, creator: UserId, now: int)
    requires Audited(table)
    ensures var after := RevokeAll(table, records, recipient, creator, now).0;
            Audited(after) && table.rows.Keys == after.rows.Keys && table.audit <= after.audit
    decreases |records|
  {
    if records != [] {
      if !ActiveReimbursement(table, Key(records[0].id, recipient), now) {
        RevokeAllKeepsAudited(table, records[1..], recipient, creator, now);
      } else {
        var r := RevokeShare(table, records[0], creator, recipient, now);
        RevokeKeepsAudited(table, records[0], creator, recipient, now);
        if r.Success? {
          RevokeAllKeepsAudited(r.value, records[1..], recipient, creator, now);
        }
      }
    }
  }

  // ----- Runs: owner grants and revocations interleaved with package pay/refund cycles -----

  datatype Op =
    | Grant(record: RecordRef, user: UserId, requester: UserId, config: Config)
    | Revoke(record: RecordRef, user: UserId, actor: UserId)
    | OpenPackage(records: seq<RecordRef>, recipient: Option<UserId>, creator: UserId, expiresAt: Option<int>)
    | ClosePackage(records: seq<RecordRef>, recipient: Option<UserId>, creator: UserId)

  function Apply(table: Table, op: Op, now: int): Table {
    match op
    case Grant(record, user, requester, config) =>
      (match GrantAccess(table, record, user, requester, config, now)
       case Failure(_) => table
       case Success((next, _)) => next)
    case Revoke(record, user, actor) =>
      if Key(record.id, user) !in table.rows then table
      else
        (match RevokeShare(table, record, actor, user, now)
         case Failure(_) => table
         case Success(next) => next)
    case OpenPackage(records, recipient, creator, expiresAt) => GrantPackage(table, records, recipient, creator, expiresAt, now).0
    case ClosePackage(records, recipient, creator) => RevokePackage(table, records, recipient, creator, now).0
  }

  function RunOps(table: Table, ops: seq<(Op, int)>): Table
    decreases |ops|
  {
    if ops == [] then table else RunOps(Apply(table, ops[0].0, ops[0].1), ops[1..])
  }

  /** Whatever the operations and their clock readings, rows are never removed, the trail is only
      appended to, and every revocation keeps its own earlier grant. */
  lemma {:induction false} EveryRunIsAudited(table: Table, ops: seq<(Op, int)>)
    requires Audited(table)
    ensures var after := RunOps(table, ops);
            Audited(after) && table.rows.Keys <= after.rows.Keys && table.audit <= after.audit
    decreases |ops|
  {
    if ops != [] {
      var (op, now) := ops[0];
      match op {
        case Grant(record, user, requester, config) => GrantKeepsAudited(table, record, user, requester, config, now);
        case Revoke(record, user, actor) =>
          if Key(record.id, user) in table.rows {
            RevokeKeepsAudited(table, record, actor, user, now);
          }
        case OpenPackage(records, recipient, creator, expiresAt) =>
          if recipient.Some? {
            GrantAllKeepsAudited(table, records, recipient.value, creator, expiresAt, now);
          }
        case ClosePackage(records, recipient, creator) =>
          if recipient.Some? {
            RevokeAllKeepsAudited(table, records, recipient.value, creator, now);
          }
      }
      EveryRunIsAudited(Apply(table, op, now), ops[1..]);
    }
  }

  lemma EmptyTableIsAudited()
    ensures Audited(Table(map[], []))
  {
  }

  // ----- The service functions of the source -----

  class ShareTable {
    var rows: map<Key, Share>
    var audit: seq<AuditEntry>

    function View(): Table
      reads this
    {
      Table(rows, audit)
    }

    constructor ()
      ensures View() == Table(map[], [])
    {
      rows, audit := map[], [];
    }

    method Grant(record: RecordRef, user: UserId, requester: UserId, config: Config, now: int) returns (r: Result<bool, ShareError>)
      modifies this
      ensures match GrantAccess(old(View()), record, user, requester, config, now)
              case Failure(e) => r == Failure(e) && View() == old(View())
              case Success((next, created)) => r == Success(created) && View() == next
    {
      if record.owner != requester {
        return Failure(NotOwner);
      }
      if user == record.owner {
        return Failure(SelfShare);
      }
      var key := Key(record.id, user);
      if key !in rows {
        rows := rows[key := Share(config, requester, None)];
        audit := audit + [AuditEntry(Shared, requester, key, false)];
        return Success(true);
      }
      if IsActive(rows[key], now) {
        return Success(false);
      }
      Reactivate(key, config, requester);
      audit := audit + [AuditEntry(Shared, requester, key, true)];
      return Success(true);
    }

    method Reactivate(key: Key, config: Config, requester: UserId)
      requires key in rows
      modifies this`rows
      ensures rows == old(rows)[key := Share(config, requester, None)]
    {
      rows := rows[key := rows[key].(config := config, revokedAt := None, sharedBy := requester)];
    }

    method Revoke(record: RecordRef, actor: UserId, user: UserId, now: int) returns (r: Result<(), ShareError>)
      requires Key(record.id, user) in rows
      modifies this
      ensures match RevokeShare(old(View()), record, actor, user, now)
              case Failure(e) => r == Failure(e) && View() == old(View())
              case Success(next) => r == Success(()) && View() == next
    {
      if record.owner != actor {
        return Failure(NotOwner);
      }
      var key := Key(record.id, user);
      if rows[key].revokedAt.None? {
        rows := rows[key := rows[key].(revokedAt := Some(now))];
        audit := audit + [AuditEntry(Revoked, actor, key, false)];
      }
      return Success(());
    }

    method GrantPackageAccess(records: seq<RecordRef>, recipient: Option<UserId>, creator: UserId, expiresAt: Option<int>, now: int)
      returns (ok: bool)
      modifies this
      ensures (View(), ok) == GrantPackage(old(View()), records, recipient, creator, expiresAt, now)
    {
      if recipient.None? {
        return true;
      }
      var i := 0;
      while i < |records|
        invariant 0 <= i <= |records|
        invariant GrantAll(old(View()), records, recipient.value, creator, expiresAt, now) ==
                  GrantAll(View(), records[i..], recipient.value, creator, expiresAt, now)
      {
        assert records[i..][1..] == records[i + 1..];
        if records[i].active {
          var granted := Grant(records[i], recipient.value, creator, PackageConfig(expiresAt), now);
          if granted.Failure? {
            return false;
          }
        }
        i := i + 1;
      }
      return true;
    }

    method RevokePackageAccess(records: seq<RecordRef>, recipient: Option<UserId>, creator: UserId, now: int) returns (ok: bool)
      modifies this
      ensures (View(), ok) == RevokePackage(old(View()), records, recipient, creator, now)
    {
      if recipient.None? {
        return true;
      }
      var i := 0;
      while i < |records|
        invariant 0 <= i <= |records|
        invariant RevokeAll(old(View()), records, recipient.value, creator, now) ==
                  RevokeAll(View(), records[i..], recipient.value, creator, now)
      {
        assert records[i..][1..] == records[i + 1..];
        if ActiveReimbursement(View(), Key(records[i].id, recipient.value), now) {
          var revoked := Revoke(records[i], creator, recipient.value, now);
          if revoked.Failure? {
            return false;
          }
        }
        i := i + 1;
      }
      return true;
    }
  }
}
