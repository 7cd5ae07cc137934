/** The denormalised storage counter and the save, delete, upload and repair paths that move it. */
module Storage {
  import opened Basics

  type UserId = nat
  type DocumentId = nat

  const GIGABYTE := 1024 * 1024 * 1024

  datatype Row = Row(id: DocumentId, user: UserId, size: Option<nat>)

  datatype Tables = Tables(docs: seq<Row>, used: map<UserId, int>)

  function Counted(size: Option<nat>): nat {
    if size.Some? then size.value else 0
  }

  /** The bytes a user's documents really take. */
  function Bytes(docs: seq<Row>, user: UserId): nat {
    if docs == [] then 0
    else Bytes(docs[..|docs| - 1], user) + (if docs[|docs| - 1].user == user then Counted(docs[|docs| - 1].size) else 0)
  }

  function FindRow(docs: seq<Row>, id: DocumentId): (at: Option<nat>)
    ensures at.Some? ==> at.value < |docs| && docs[at.value].id == id
    ensures at.None? ==> forall d | d in docs :: d.id != id
  {
    if docs == [] then None
    else if docs[|docs| - 1].id == id then Some(|docs| - 1)
    else FindRow(docs[..|docs| - 1], id)
  }

  /** The relative update of one user's counter, clamped at zero; an unknown user has no row to update. */
  function Adjusted(used: map<UserId, int>, user: UserId, delta: int): map<UserId, int> {
    if delta == 0 || user !in used then used else used[user := Max(used[user] + delta, 0)]
  }

  /** Django's update_fields: every column, or some columns with or without file_size. */
  datatype SaveFields = AllFields | OnlyFields(fileSize: bool)

  predicate WritesSize(fields: SaveFields) {
    fields.AllFields? || fields.fileSize
  }

  /** What pre_save records as already counted for an in-memory copy with this id and size. */
  function PreviouslyCounted(docs: seq<Row>, id: DocumentId, size: Option<nat>, fields: SaveFields): nat {
    if !WritesSize(fields) then Counted(size)
    else StoredBytes(docs, id)
  }

  function WrittenRows(docs: seq<Row>, id: DocumentId, user: UserId, size: Option<nat>, fields: SaveFields): seq<Row> {
    match FindRow(docs, id)
    case None => docs + [Row(id, user, size)]
    case Some(i) => if WritesSize(fields) then docs[i := docs[i].(size := size)] else docs
  }

  /** One save of a copy: signal, write, signal. A partial save of a vanished row raises instead. */
  function Save(t: Tables, id: DocumentId, user: UserId, size: Option<nat>, fields: SaveFields): Tables {
    if FindRow(t.docs, id).None? && fields.OnlyFields? then t
    else
      var delta := Counted(size) - PreviouslyCounted(t.docs, id, size, fields);
      Tables(WrittenRows(t.docs, id, user, size, fields), Adjusted(t.used, user, delta))
  }

  function WithoutRow(docs: seq<Row>, i: nat): seq<Row>
    requires i < |docs|
  {
    docs[..i] + docs[i + 1..]
  }

  /** Deleting through a copy: the copy's own size is what is subtracted, even when its row was gone
      already, because the signal is sent for every copy that is deleted. */
  function Delete(t: Tables, id: DocumentId, user: UserId, size: Option<nat>): Tables {
    Tables(RemainingRows(t.docs, id), Adjusted(t.used, user, 0 - Counted(size)))
  }

  function RemainingRows(docs: seq<Row>, id: DocumentId): seq<Row> {
    match FindRow(docs, id)
    case None => docs
    case Some(i) => WithoutRow(docs, i)
  }

  /** The bytes the stored row of a document counts for; none when there is no row. */
  function StoredBytes(docs: seq<Row>, id: DocumentId): nat {
    match FindRow(docs, id)
    case None => 0
    case Some(i) => Counted(docs[i].size)
  }

  // ----- The cache equals the sum -----

  predicate Exact(t: Tables) {
    && (forall d | d in t.docs :: d.user in t.used)
    && (forall u | u in t.used :: t.used[u] == Bytes(t.docs, u))
  }

  /** A copy of a stored row keeps its owner. */
  predicate OwnCopy(t: Tables, id: DocumentId, user: UserId) {
    user in t.used && (FindRow(t.docs, id).Some? ==> t.docs[FindRow(t.docs, id).value].user == user)
  }

  lemma {:induction false} BytesOfUpdate(docs: seq<Row>, i: nat, size: Option<nat>, user: UserId)
    requires i < |docs|
    ensures Bytes(docs[i := docs[i].(size := size)], user) ==
            Bytes(docs, user) + (if docs[i].user == user then Counted(size) - Counted(docs[i].size) else 0)
  {
    var after := docs[i := docs[i].(size := size)];
    if i == |docs| - 1 {
      assert after[..i] == docs[..i];
    } else {
      assert after[..|docs| - 1] == docs[..|docs| - 1][i := docs[i].(size := size)];
      BytesOfUpdate(docs[..|docs| - 1], i, size, user);
    }
  }

  lemma {:induction false} BytesOfRemoval(docs: seq<Row>, i: nat, user: UserId)
    requires i < |docs|
    ensures Bytes(docs, user) ==
            Bytes(WithoutRow(docs, i), user) + (if docs[i].user == user then Counted(docs[i].size) else 0)
  {
    if i == |docs| - 1 {
      assert WithoutRow(docs, i) == docs[..i];
    } else {
      assert WithoutRow(docs, i)[..|docs| - 2] == WithoutRow(docs[..|docs| - 1], i);
      BytesOfRemoval(docs[..|docs| - 1], i, user);
    }
  }

  lemma BytesOfAppend(docs: seq<Row>, row: Row, user: UserId)
    ensures Bytes(docs + [row], user) == Bytes(docs, user) + (if row.user == user then Counted(row.size) else 0)
  {
    assert (docs + [row])[..|docs|] == docs;
  }

  /** Every save keeps the counter exact: creating, saving in full, saving some columns, even from a
      copy whose size is stale, and the clamp has nothing to do. */
  lemma SaveKeepsExact(t: Tables, id: DocumentId, user: UserId, size: Option<nat>, fields: SaveFields)
    requires Exact(t) && OwnCopy(t, id, user)
    ensures Exact(Save(t, id, user, size, fields))
    ensures FindRow(t.docs, id).Some? || fields.AllFields? ==>
              t.used[user] + Counted(size) - PreviouslyCounted(t.docs, id, size, fields) >= 0
  {
    var after := Save(t, id, user, size, fields);
    match FindRow(t.docs, id)
    case None =>
      if fields.AllFields? {
        forall u | u in t.used
          ensures after.used[u] == Bytes(after.docs, u)
        {
          BytesOfAppend(t.docs, Row(id, user, size), u);
        }
      }
    case Some(i) =>
      BytesOfRemoval(t.docs, i, user);
      if WritesSize(fields) {
        forall u | u in t.used
          ensures after.used[u] == Bytes(after.docs, u)
        {
          BytesOfUpdate(t.docs, i, size, u);
        }
      }
      forall d | d in after.docs
        ensures d.user in after.used
      {
        assert t.docs[i] in t.docs;
      }
  }

  lemma BytesOfRemaining(docs: seq<Row>, id: DocumentId, owner: UserId, user: UserId)
    requires FindRow(docs, id).Some? ==> docs[FindRow(docs, id).value].user == owner
    ensures Bytes(docs, user) == Bytes(RemainingRows(docs, id), user) + (if owner == user then StoredBytes(docs, id) else 0)
  {
    if FindRow(docs, id).Some? {
      BytesOfRemoval(docs, FindRow(docs, id).value, user);
    }
  }

  /** Deleting through a copy, its row present or gone, keeps the counter exact if and only if the
      copy's size, as far as the counter can cover it, is what the row counts for. */
  lemma DeleteKeepsExactIff(t: Tables, id: DocumentId, user: UserId, size: Option<nat>)
    requires Exact(t) && OwnCopy(t, id, user)
    ensures Exact(Delete(t, id, user, size)) <==> Min(Counted(size), t.used[user]) == StoredBytes(t.docs, id)
    ensures StoredBytes(t.docs, id) <= t.used[user]
  {
    var after := Delete(t, id, user, size);
    forall u | u in t.used
      ensures Bytes(t.docs, u) == Bytes(after.docs, u) + (if user == u then StoredBytes(t.docs, id) else 0)
    {
      BytesOfRemaining(t.docs, id, user, u);
    }
    forall d | d in after.docs
      ensures d in t.docs
    {
    }
    assert t.used[user] == Bytes(t.docs, user);
    assert after.used[user] == Max(t.used[user] - Counted(size), 0);
  }

  predicate UniqueIds(docs: seq<Row>) {
    forall i, j | 0 <= i < j < |docs| :: docs[i].id != docs[j].id
  }

  /** The row of a document. */
  predicate HasRow(docs: seq<Row>, row: Row) {
    exists i | 0 <= i < |docs| :: docs[i] == row
  }

  predicate NoRow(docs: seq<Row>, id: DocumentId) {
    forall i | 0 <= i < |docs| :: docs[i].id != id
  }

  /** What a save stores: a full save creates a missing row; a save that writes the size replaces it; a
      partial save of a missing row stores nothing; all other rows stay, and the owner's counter moves by
      what the row's bytes moved. */
  lemma SaveStoresSize(t: Tables, id: DocumentId, user: UserId, size: Option<nat>, fields: SaveFields)
    requires Exact(t) && OwnCopy(t, id, user) && UniqueIds(t.docs)
    ensures var after := Save(t, id, user, size, fields);
            && UniqueIds(after.docs)
            && (NoRow(t.docs, id) && fields.AllFields? ==> after.docs == t.docs + [Row(id, user, size)])
            && (NoRow(t.docs, id) && fields.OnlyFields? ==> after == t)
            && (forall i | 0 <= i < |t.docs| && t.docs[i].id == id ::
                  after.docs == if WritesSize(fields) then t.docs[i := Row(id, user, size)] else t.docs)
            && (forall u | u in t.used :: u in after.used &&
                  after.used[u] == t.used[u] + (if u == user then StoredBytes(after.docs, id) - StoredBytes(t.docs, id) else 0))
  {
    hide Bytes;
    var at, after := FindRow(t.docs, id), Save(t, id, user, size, fields);
    RowIsFound(t.docs, id);
    SaveKeepsExact(t, id, user, size, fields);
    if at.Some? && WritesSize(fields) {
      assert after.docs[at.value] == Row(id, user, size);
      RowIsFound(after.docs, id);
    } else if at.None? && fields.AllFields? {
      assert after.docs[|t.docs|] == Row(id, user, size);
      RowIsFound(after.docs, id);
    }
  }

  lemma RowIsFound(docs: seq<Row>, id: DocumentId)
    ensures FindRow(docs, id).None? <==> NoRow(docs, id)
    ensures UniqueIds(docs) ==> forall i | 0 <= i < |docs| && docs[i].id == id :: FindRow(docs, id) == Some(i)
  {
    forall i | 0 <= i < |docs|
      ensures docs[i] in docs
    {
    }
  }

  /** A deletion removes the document's row, if it is there, and no other. */
  lemma DeleteRemovesRow(t: Tables, id: DocumentId, user: UserId, size: Option<nat>)
    requires UniqueIds(t.docs)
    ensures var after := Delete(t, id, user, size);
            && UniqueIds(after.docs) && NoRow(after.docs, id)
            && (forall row: Row | row.id != id :: HasRow(after.docs, row) <==> HasRow(t.docs, row))
  {
    var at, after := FindRow(t.docs, id), Delete(t, id, user, size);
    RowIsFound(t.docs, id);
    if at.Some? {
      forall k | 0 <= k < |t.docs| && k != at.value
        ensures HasRow(after.docs, t.docs[k])
      {
        assert after.docs[if k < at.value then k else k - 1] == t.docs[k];
      }
    }
  }

  // ----- Runs -----

  datatype Op =
    | SaveOp(id: DocumentId, user: UserId, size: Option<nat>, fields: SaveFields)
    | DeleteOp(id: DocumentId, user: UserId, size: Option<nat>)

  function Apply(t: Tables, op: Op): Tables {
    match op
    case SaveOp(id, user, size, fields) => Save(t, id, user, size, fields)
    case DeleteOp(id, user, size) => Delete(t, id, user, size)
  }

  function RunOps(t: Tables, ops: seq<Op>): Tables
    decreases |ops|
  {
    if ops == [] then t else RunOps(Apply(t, ops[0]), ops[1..])
  }

  /** Every copy that is saved or deleted along the run has its row's owner. */
  predicate OwnRun(t: Tables, ops: seq<Op>)
    decreases |ops|
  {
    ops != [] ==> OwnCopy(t, ops[0].id, ops[0].user) && OwnRun(Apply(t, ops[0]), ops[1..])
  }

  /** A deletion subtracts what its row counts for. */
  predicate SubtractsStored(t: Tables, op: Op)
    requires op.user in t.used
  {
    op.DeleteOp? ==> Min(Counted(op.size), t.used[op.user]) == StoredBytes(t.docs, op.id)
  }

  predicate SubtractsStoredRun(t: Tables, ops: seq<Op>)
    requires OwnRun(t, ops)
    decreases |ops|
  {
    ops != [] ==> SubtractsStored(t, ops[0]) && SubtractsStoredRun(Apply(t, ops[0]), ops[1..])
  }

  predicate ExactThroughout(t: Tables, ops: seq<Op>)
    decreases |ops|
  {
    Exact(t) && (ops != [] ==> ExactThroughout(Apply(t, ops[0]), ops[1..]))
  }

  lemma StepKeepsExactIff(t: Tables, op: Op)
    requires Exact(t) && OwnCopy(t, op.id, op.user)
    ensures Exact(Apply(t, op)) <==> SubtractsStored(t, op)
  {
    match op
    case SaveOp(id, user, size, fields) => SaveKeepsExact(t, id, user, size, fields);
    case DeleteOp(id, user, size) => DeleteKeepsExactIff(t, id, user, size);
  }

  /** Over every run of saves and deletions, from copies of any age, the counter is the sum at every
      point if and only if every deletion subtracts what its row counts for. */
  lemma {:induction false} RunKeepsExactIff(t: Tables, ops: seq<Op>)
    requires Exact(t) && OwnRun(t, ops)
    ensures ExactThroughout(t, ops) <==> SubtractsStoredRun(t, ops)
    decreases |ops|
  {
    hide Exact, Apply, SubtractsStored;
    if ops != [] {
      StepKeepsExactIff(t, ops[0]);
      if Exact(Apply(t, ops[0])) {
        RunKeepsExactIff(Apply(t, ops[0]), ops[1..]);
      }
    }
  }

  /** No copy is deleted that is older than its row, or whose row is gone while it has a size. */
  predicate FreshDeletions(t: Tables, ops: seq<Op>)
    decreases |ops|
  {
    ops != [] ==>
      && (ops[0].DeleteOp? ==> Counted(ops[0].size) == StoredBytes(t.docs, ops[0].id))
      && FreshDeletions(Apply(t, ops[0]), ops[1..])
  }

  /** So saves from any copy and deletions of fresh copies keep the counter the sum. */
  lemma {:induction false} RunKeepsExact(t: Tables, ops: seq<Op>)
    requires Exact(t) && OwnRun(t, ops) && FreshDeletions(t, ops)
    ensures Exact(RunOps(t, ops))
    decreases |ops|
  {
    hide Exact, Apply;
    if ops != [] {
      StepKeepsExactIff(t, ops[0]);
      if ops[0].DeleteOp? {
        DeleteKeepsExactIff(t, ops[0].id, ops[0].user, ops[0].size);
      }
      RunKeepsExact(Apply(t, ops[0]), ops[1..]);
    }
  }

  const TWO_DOCUMENTS := Tables([Row(0, 1, Some(2048)), Row(1, 1, Some(2048))], map[1 := 4096])

  /** Deleting one document through two copies read earlier subtracts its bytes twice. */
  lemma DoubleDeletionSubtractsTwice()
    ensures var twice := [DeleteOp(0, 1, Some(2048)), DeleteOp(0, 1, Some(2048))];
            && Exact(TWO_DOCUMENTS) && OwnRun(TWO_DOCUMENTS, twice) && !SubtractsStoredRun(TWO_DOCUMENTS, twice)
            && RunOps(TWO_DOCUMENTS, twice) == Tables([Row(1, 1, Some(2048))], map[1 := 0])
            && !Exact(RunOps(TWO_DOCUMENTS, twice))
  {
    var t, op := TWO_DOCUMENTS, DeleteOp(0, 1, Some(2048));
    assert t.docs[..1] == [Row(0, 1, Some(2048))];
    assert Bytes(t.docs[..1], 1) == 2048 && Bytes(t.docs, 1) == 4096;
    assert FindRow(t.docs, 0) == Some(0);
    var once := Apply(t, op);
    assert once == Tables([Row(1, 1, Some(2048))], map[1 := 2048]);
    assert FindRow(once.docs, 0) == None;
    assert Apply(once, op) == Tables([Row(1, 1, Some(2048))], map[1 := 0]);
    assert [op, op][1..] == [op];
    assert Bytes([Row(1, 1, Some(2048))], 1) == 2048;
  }

  // ----- Repair -----

  function Owners(docs: seq<Row>): set<UserId> {
    set d | d in docs :: d.user
  }

  predicate InScope(user: UserId, scope: Option<UserId>) {
    scope.None? || scope.value == user
  }

  function Totalled(t: Tables, scope: Option<UserId>): set<UserId> {
    set u | u in Owners(t.docs) && InScope(u, scope)
  }

  function Stale(t: Tables, scope: Option<UserId>): set<UserId> {
    set u | u in t.used && t.used[u] > 0 && InScope(u, scope) && u !in Owners(t.docs)
  }

  /** Owners of documents get their sum; a counter above zero without documents is zeroed. */
  function RepairedCounter(t: Tables, u: UserId): int
    requires u in t.used
  {
    if u in Owners(t.docs) then Bytes(t.docs, u) else if t.used[u] > 0 then 0 else t.used[u]
  }

  function Repaired(t: Tables, scope: Option<UserId>): Tables {
    t.(used := map u | u in t.used :: if InScope(u, scope) then RepairedCounter(t, u) else t.used[u])
  }

  /** The counters above zero in scope that were not totalled. */
  function Untotalled(used: map<UserId, int>, scope: Option<UserId>, totals: set<UserId>): set<UserId> {
    set u | u in used && used[u] > 0 && InScope(u, scope) && u !in totals
  }

  function Corrected(t: Tables, totals: set<UserId>): map<UserId, int> {
    map u | u in t.used :: if u in totals then Bytes(t.docs, u) else t.used[u]
  }

  function Zeroed(used: map<UserId, int>, stale: set<UserId>): map<UserId, int> {
    map u | u in used :: if u in stale then 0 else used[u]
  }

  /** Writing the totals and then zeroing what is left above zero is the repair. */
  lemma RepairInTwoPasses(t: Tables, scope: Option<UserId>)
    requires forall d | d in t.docs :: d.user in t.used
    ensures Totalled(t, scope) <= t.used.Keys
    ensures var corrected := Corrected(t, Totalled(t, scope));
            && Untotalled(corrected, scope, Totalled(t, scope)) == Stale(t, scope)
            && Zeroed(corrected, Stale(t, scope)) == Repaired(t, scope).used
  {
    hide Bytes;
  }

  lemma {:induction false} NoBytesWithoutDocuments(docs: seq<Row>, user: UserId)
    requires user !in Owners(docs)
    ensures Bytes(docs, user) == 0
  {
    if docs != [] {
      assert docs[|docs| - 1] in docs;
      assert forall d | d in docs[..|docs| - 1] :: d in docs;
      NoBytesWithoutDocuments(docs[..|docs| - 1], user);
    }
  }

  /** A full repair makes the counter exact from every drifted state except a negative counter of a
      user without documents, which the clamp never produces; a scoped repair touches no other user. */
  lemma RepairRestoresExactIff(t: Tables, scope: Option<UserId>)
    requires forall d | d in t.docs :: d.user in t.used
    ensures Exact(Repaired(t, None)) <==> forall u | u in t.used && u !in Owners(t.docs) :: t.used[u] >= 0
    ensures forall u | u in t.used && InScope(u, scope) && t.used[u] >= 0 :: Repaired(t, scope).used[u] == Bytes(t.docs, u)
    ensures forall u | u in t.used && !InScope(u, scope) :: Repaired(t, scope).used[u] == t.used[u]
    ensures Exact(t) ==> Repaired(t, scope) == t
  {
    forall u | u in t.used && u !in Owners(t.docs)
      ensures Bytes(t.docs, u) == 0
    {
      NoBytesWithoutDocuments(t.docs, u);
    }
    var repaired := Repaired(t, None);
    forall u | u in t.used && u !in Owners(t.docs) && t.used[u] < 0
      ensures repaired.used[u] != Bytes(t.docs, u)
    {
    }
    if Exact(t) {
      assert Repaired(t, scope).used == t.used;
    }
  }

  // ----- The code -----

  datatype UploadStatus = PendingUpload | Uploaded | UploadError

  datatype UploadResult = Accepted | KeyMismatch | NotInStorage | EmptyFile | TooLarge | QuotaReached

  const MAX_FILE_SIZE: nat := 50 * 1024 * 1024

  /** Stripped response metadata of the stored object. */
  datatype Head = Head(contentLength: Option<nat>, contentType: string)

  /** An in-memory copy of a document. */
  class Document {
    const id: DocumentId
    const user: UserId
    const filepath: string
    var status: UploadStatus
    var fileSize: Option<nat>
    var mimeType: string
    var previouslyCounted: nat

    constructor (id: DocumentId, user: UserId, filepath: string)
      ensures this.id == id && this.user == user && this.filepath == filepath
      ensures status == PendingUpload && fileSize == None && mimeType == ""
    {
      this.id, this.user, this.filepath := id, user, filepath;
      status, fileSize, mimeType, previouslyCounted := PendingUpload, None, "", 0;
    }
  }

  class Counter {
    var docs: seq<Row>
    var used: map<UserId, int>

    function View(): Tables
      reads this
    {
      Tables(docs, used)
    }

    constructor (t: Tables)
      ensures View() == t
    {
      docs, used := t.docs, t.used;
    }

    method AdjustStorageUsage(user: UserId, delta: int)
      modifies this`used
      ensures used == Adjusted(old(used), user, delta)
    {
      if delta == 0 {
        return;
      }
      if user in used {
        used := used[user := if used[user] + delta < 0 then 0 else used[user] + delta];
      }
    }

    /** pre_save. */
    method SnapshotStorageState(document: Document, fields: SaveFields)
      modifies document`previouslyCounted
      ensures document.previouslyCounted == PreviouslyCounted(docs, document.id, document.fileSize, fields)
    {
      if fields.OnlyFields? && !fields.fileSize {
        document.previouslyCounted := Counted(document.fileSize);
        return;
      }
      var at := FindRow(docs, document.id);
      document.previouslyCounted := if at.Some? then Counted(docs[at.value].size) else 0;
    }

    /** post_save. */
    method SyncStorageCounter(document: Document)
      modifies this`used
      ensures used == Adjusted(old(used), document.user, Counted(document.fileSize) - document.previouslyCounted)
    {
      AdjustStorageUsage(document.user, Counted(document.fileSize) - document.previouslyCounted);
    }

    method SaveDocument(document: Document, fields: SaveFields) returns (saved: bool)
      modifies this, document`previouslyCounted
      ensures View() == Save(old(View()), document.id, document.user, document.fileSize, fields)
      ensures saved == (fields.AllFields? || FindRow(old(docs), document.id).Some?)
    {
      SnapshotStorageState(document, fields);
      if fields.OnlyFields? && FindRow(docs, document.id).None? {
        return false;
      }
      docs := WrittenRows(docs, document.id, document.user, document.fileSize, fields);
      SyncStorageCounter(document);
      return true;
    }

    /** Deletion and its post_delete signal. */
    method DeleteDocument(document: Document)
      modifies this
      ensures View() == Delete(old(View()), document.id, document.user, document.fileSize)
    {
      var at := FindRow(docs, document.id);
      if at.Some? {
        docs := WithoutRow(docs, at.value);
      }
      AdjustStorageUsage(document.user, 0 - Counted(document.fileSize));
    }

    predicate CanAddStorage(user: UserId, bytes: nat, limitGb: nat)
      reads this
    {
      (if user in used then used[user] else 0) + bytes <= limitGb * GIGABYTE
    }

    method Reject(document: Document, reason: UploadResult) returns (result: UploadResult)
      modifies this, document
      ensures result == reason && View() == old(View()) && document.status == UploadError && document.fileSize == old(document.fileSize)
    {
      document.status := UploadError;
      var _ := SaveDocument(document, OnlyFields(false));
      return reason;
    }

    /** Validation of an upload, and its confirmation when `transition` holds. A confirmed size is only
        accepted while it fits the quota, which the counter then still respects; anything but a
        confirmation leaves the counter and the stored rows as they were. */
    method RunChecks(document: Document, key: string, head: Option<Head>, limitGb: nat, transition: bool) returns (result: UploadResult)
      requires OwnCopy(View(), document.id, document.user) && FindRow(docs, document.id).Some?
      modifies this, document
      ensures old(Exact(View())) ==> Exact(View())
      ensures result != Accepted || !transition ==> View() == old(View()) && document.fileSize == old(document.fileSize)
      ensures result == Accepted ==>
        head.Some? && document.filepath == key
        && (head.value.contentLength.Some? ==> 0 < head.value.contentLength.value <= MAX_FILE_SIZE)
      ensures result == Accepted && transition ==>
        && document.status == Uploaded && document.fileSize == head.value.contentLength
        && View() == Save(old(View()), document.id, document.user, head.value.contentLength, OnlyFields(true))
        && (head.value.contentLength.Some? ==> used[document.user] <= limitGb * GIGABYTE)
      ensures result == QuotaReached ==>
        transition && head.Some? && head.value.contentLength.Some?
        && old(used)[document.user] + head.value.contentLength.value > limitGb * GIGABYTE
      ensures (result == KeyMismatch || (result == Accepted && !transition)) ==> document.status == old(document.status)
      ensures result != KeyMismatch && result != Accepted ==> document.status == UploadError
      ensures var length := if head.Some? then head.value.contentLength else None;
              result == if document.filepath != key then KeyMismatch
                        else if head.None? then NotInStorage
                        else if length == Some(0) then EmptyFile
                        else if length.Some? && length.value > 52428800 then TooLarge
                        else if transition && length.Some? && old(used)[document.user] + length.value > limitGb * 1073741824 then QuotaReached
                        else Accepted
    {
      if document.filepath != key {
        return KeyMismatch;
      }
      if head.None? {
        result := Reject(document, NotInStorage);
        return;
      }
      var size := head.value.contentLength;
      if size == Some(0) {
        result := Reject(document, EmptyFile);
        return;
      }
      if size.Some? && size.value > MAX_FILE_SIZE {
        result := Reject(document, TooLarge);
        return;
      }
      if transition && size.Some? && !CanAddStorage(document.user, size.value, limitGb) {
        result := Reject(document, QuotaReached);
        return;
      }
      if transition {
        document.status, document.fileSize := Uploaded, size;
        if head.value.contentType != "" {
          document.mimeType := head.value.contentType;
        }
        if Exact(View()) {
          SaveKeepsExact(View(), document.id, document.user, size, OnlyFields(true));
        }
        var _ := SaveDocument(document, OnlyFields(true));
      }
      return Accepted;
    }

    method ZeroStale(scope: Option<UserId>, totals: set<UserId>) returns (zeroed: nat)
      modifies this`used
      ensures var stale := Untotalled(old(used), scope, totals); used == Zeroed(old(used), stale) && zeroed == |stale|
    {
      var stale := Untotalled(used, scope, totals);
      used := Zeroed(used, stale);
      zeroed := |stale|;
    }

    /** reconcile_storage_usage. */
    method ReconcileStorageUsage(scope: Option<UserId>) returns (corrected: nat)
      requires forall d | d in docs :: d.user in used
      modifies this`used
      ensures View() == Repaired(old(View()), scope)
      ensures corrected == |Totalled(old(View()), scope)| + |Stale(old(View()), scope)|
    {
      RepairInTwoPasses(View(), scope);
      hide Totalled, Untotalled, Corrected, Zeroed, Repaired, Stale;
      var totals := Totalled(View(), scope);
      corrected := CorrectTotals(totals);
      var zeroed := ZeroStale(scope, totals);
      corrected := corrected + zeroed;
    }

    /** Every listed user gets the recomputed total; the others keep their counters. */
    method CorrectTotals(totals: set<UserId>) returns (corrected: nat)
      requires totals <= used.Keys
      modifies this`used
      ensures used == Corrected(old(View()), totals)
      ensures corrected == |totals|
    {
      hide Bytes;
      var todo := totals;
      corrected := 0;
      while todo != {}
        invariant todo <= totals && corrected == |totals| - |todo|
        invariant used.Keys == old(used).Keys
        invariant forall u | u in old(used) :: used[u] == if u in totals && u !in todo then Bytes(docs, u) else old(used)[u]
        decreases |todo|
      {
        var u :| u in todo;
        used := used[u := Bytes(docs, u)];
        todo := todo - {u};
        corrected := corrected + 1;
      }
    }
  }
}
