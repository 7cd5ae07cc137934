/** Merging document records into Plaid records, and undoing merges from their logs. */
module Merge {
  import opened Basics

  type RecordId = nat
  type DocumentId = nat

  const FINANCIAL_DOCUMENT := "financial_document"

  /** The five columns a merge overwrites and an undo restores. */
  datatype Fields = Fields(products: string, notes: string, recordType: string, folder: Option<nat>, paymentMethod: string)

  datatype Record = Record(fields: Fields, active: bool, plaidId: Option<string>)

  /** A merge log: who was merged into whom, the Plaid record's fields and the documents moved. */
  datatype Log = Log(plaid: RecordId, doc: RecordId, document: Option<DocumentId>, saved: Fields, moved: set<DocumentId>, undone: bool)

  datatype State = State(records: map<RecordId, Record>, links: map<DocumentId, Option<RecordId>>, logs: seq<Log>)

  datatype MergeOutcome = Merged | NotMergeable | MissingRecord | DuplicateMerge

  /** A document record's non-empty fields win, except that the payment method only fills a gap. */
  function ApplyDocFields(plaid: Fields, doc: Fields): Fields {
    Fields(
      if doc.products != "" then doc.products else plaid.products,
      if doc.notes != "" then doc.notes else plaid.notes,
      if doc.recordType != FINANCIAL_DOCUMENT then doc.recordType else plaid.recordType,
      if doc.folder.Some? then doc.folder else plaid.folder,
      if plaid.paymentMethod != "" then plaid.paymentMethod else doc.paymentMethod)
  }

  predicate Mergeable(record: Record) {
    record.active && record.plaidId.None?
  }

  predicate ActiveLog(s: State, n: int) {
    0 <= n < |s.logs| && !s.logs[n].undone
  }

  /** The rows of the unique (plaid, document, not undone) constraint. */
  predicate PairTaken(s: State, plaid: RecordId, doc: RecordId) {
    exists n | 0 <= n < |s.logs| :: ActiveLog(s, n) && s.logs[n].plaid == plaid && s.logs[n].doc == doc
  }

  function DocumentsOf(s: State, record: RecordId): set<DocumentId> {
    set x | x in s.links && s.links[x] == Some(record)
  }

  function Relinked(links: map<DocumentId, Option<RecordId>>, moved: set<DocumentId>, target: RecordId): map<DocumentId, Option<RecordId>> {
    map x | x in links :: if x in moved then Some(target) else links[x]
  }

  predicate IsPlaid(s: State, r: RecordId) {
    r in s.records && s.records[r].plaidId.Some?
  }

  function CombinedRecords(records: map<RecordId, Record>, plaid: RecordId, doc: RecordId): map<RecordId, Record>
    requires plaid in records && doc in records
  {
    var p, d := records[plaid], records[doc];
    records[plaid := p.(fields := ApplyDocFields(p.fields, d.fields))][doc := d.(active := false)]
  }

  /** Overwrite the Plaid record, move the documents, retire the document record and log it all. */
  function Combined(s: State, plaid: RecordId, doc: RecordId, document: Option<DocumentId>): State
    requires plaid in s.records && doc in s.records
  {
    var moved := DocumentsOf(s, doc);
    State(CombinedRecords(s.records, plaid, doc), Relinked(s.links, moved, plaid),
          s.logs + [Log(plaid, doc, document, s.records[plaid].fields, moved, false)])
  }

  /** merge_document_into_plaid; its callers only pass Plaid records as the target. */
  function MergeInto(s: State, plaid: RecordId, doc: RecordId, document: Option<DocumentId>): (State, MergeOutcome)
    requires plaid in s.records ==> IsPlaid(s, plaid)
  {
    if plaid !in s.records || doc !in s.records then (s, MissingRecord)
    else if !Mergeable(s.records[doc]) then (s, NotMergeable)
    else if PairTaken(s, plaid, doc) then (s, DuplicateMerge)
    else (Combined(s, plaid, doc, document), Merged)
  }

  /** The Plaid record gets its snapshot back while it is active; the document record always returns. */
  function RestoredRecords(records: map<RecordId, Record>, log: Log): map<RecordId, Record> {
    var restored :=
      if log.plaid in records && records[log.plaid].active
      then records[log.plaid := records[log.plaid].(fields := log.saved)] else records;
    if log.doc in restored then restored[log.doc := restored[log.doc].(active := true, plaidId := None)] else restored
  }

  function RestoredLinks(s: State, log: Log): map<DocumentId, Option<RecordId>> {
    if log.moved != {} && log.plaid in s.records && log.doc in s.records then Relinked(s.links, log.moved, log.doc)
    else if log.document.Some? && log.doc in s.records then Relinked(s.links, {log.document.value}, log.doc)
    else s.links
  }

  /** undo_merge of log n; the flag is false when it was undone already. */
  function Undo(s: State, n: nat): (State, bool)
    requires n < |s.logs|
  {
    var log := s.logs[n];
    if log.undone then (s, false)
    else (State(RestoredRecords(s.records, log), RestoredLinks(s, log), s.logs[n := log.(undone := true)]), true)
  }

  /** Soft-deleting a Plaid record. */
  function Archive(s: State, plaid: RecordId): State {
    if IsPlaid(s, plaid) then s.(records := s.records[plaid := s.records[plaid].(active := false)]) else s
  }

  datatype Op = MergeOp(plaid: RecordId, doc: RecordId, document: Option<DocumentId>) | UndoOp(log: nat) | ArchiveOp(plaid: RecordId)

  /** What callers guarantee: the target is a Plaid record, and a document is handed along only for a
      document record that has documents (callers hand over one of its own). */
  predicate ProperOp(s: State, op: Op) {
    op.MergeOp? ==>
      && (op.plaid in s.records ==> IsPlaid(s, op.plaid))
      && (op.document.Some? ==> DocumentsOf(s, op.doc) != {})
  }

  function Apply(s: State, op: Op): State
    requires ProperOp(s, op)
  {
    match op
    case MergeOp(plaid, doc, document) => MergeInto(s, plaid, doc, document).0
    case UndoOp(n) => if n < |s.logs| then Undo(s, n).0 else s
    case ArchiveOp(plaid) => Archive(s, plaid)
  }

  predicate ProperRun(s: State, ops: seq<Op>)
    decreases |ops|
  {
    ops != [] ==> ProperOp(s, ops[0]) && ProperRun(Apply(s, ops[0]), ops[1..])
  }

  function RunOps(s: State, ops: seq<Op>): State
    requires ProperRun(s, ops)
    decreases |ops|
  {
    if ops == [] then s else RunOps(Apply(s, ops[0]), ops[1..])
  }
}

/** What every run of merges, undos and archivals keeps. */
module MergeSafety {
  import opened Basics
  import opened Merge

  // ----- The invariant -----

  predicate LogSound(s: State, log: Log) {
    && IsPlaid(s, log.plaid)
    && log.doc in s.records && s.records[log.doc].plaidId.None?
    && (log.document.Some? ==> log.moved != {})
  }

  /** The documents an active log moved are all on its Plaid record. */
  predicate Holds(s: State, log: Log) {
    forall x | x in log.moved :: x in s.links && s.links[x] == Some(log.plaid)
  }

  ghost predicate LogsSound(s: State) {
    && (forall n | 0 <= n < |s.logs| :: LogSound(s, s.logs[n]))
    && (forall n | ActiveLog(s, n) :: Holds(s, s.logs[n]) && !s.records[s.logs[n].doc].active)
  }

  /** Active logs move disjoint documents and merge distinct document records. */
  ghost predicate LogsDisjoint(s: State) {
    forall n, m | ActiveLog(s, n) && ActiveLog(s, m) && n != m ::
      s.logs[n].doc != s.logs[m].doc && s.logs[n].moved !! s.logs[m].moved
  }

  predicate InSomeActiveLog(s: State, doc: RecordId) {
    exists n | 0 <= n < |s.logs| :: ActiveLog(s, n) && s.logs[n].doc == doc
  }

  /** A document record is inactive only because an active log merged it. */
  predicate InactiveIsMerged(s: State) {
    forall d | d in s.records && s.records[d].plaidId.None? && !s.records[d].active :: InSomeActiveLog(s, d)
  }

  ghost predicate Inv(s: State) {
    LogsSound(s) && LogsDisjoint(s) && InactiveIsMerged(s)
  }

  /** A document record is inactive exactly when it is in an active log, and then in only one. */
  lemma InactiveExactlyInOneLog(s: State, d: RecordId)
    requires Inv(s) && d in s.records && s.records[d].plaidId.None?
    ensures !s.records[d].active <==> InSomeActiveLog(s, d)
    ensures forall n, m | ActiveLog(s, n) && ActiveLog(s, m) && s.logs[n].doc == d && s.logs[m].doc == d :: n == m
  {
  }

  /** The uniqueness constraint on active merges can never fire. */
  lemma DuplicateMergeNeverFires(s: State, plaid: RecordId, doc: RecordId, document: Option<DocumentId>)
    requires Inv(s) && (plaid in s.records ==> IsPlaid(s, plaid))
    ensures MergeInto(s, plaid, doc, document).1 != DuplicateMerge
    ensures MergeInto(s, plaid, doc, document).1 == Merged <==> plaid in s.records && doc in s.records && Mergeable(s.records[doc])
  {
  }

  /** Undoing a merge a second time changes nothing. */
  lemma UndoIsIdempotent(s: State, n: nat)
    requires n < |s.logs|
    ensures Undo(Undo(s, n).0, n) == (Undo(s, n).0, false)
  {
  }

  /** Undoing a merge makes its document record an active one without a Plaid id, and changes nothing
      else of it. */
  lemma UndoReturnsDocumentRecord(s: State, n: nat)
    requires ActiveLog(s, n) && s.logs[n].doc in s.records && s.logs[n].doc != s.logs[n].plaid
    ensures var doc, after := s.logs[n].doc, Undo(s, n).0;
            doc in after.records && after.records[doc] == Record(s.records[doc].fields, true, None)
  {
  }

  lemma MergeKeepsSound(s: State, plaid: RecordId, doc: RecordId, document: Option<DocumentId>)
    requires Inv(s) && ProperOp(s, MergeOp(plaid, doc, document)) && MergeInto(s, plaid, doc, document).1 == Merged
    ensures LogsSound(MergeInto(s, plaid, doc, document).0)
  {
    var after := MergeInto(s, plaid, doc, document).0;
    var last := |s.logs|;
    hide InactiveIsMerged, LogsDisjoint;
    forall n | ActiveLog(after, n) && n != last
      ensures ActiveLog(s, n) && after.logs[n] == s.logs[n] && Holds(after, after.logs[n])
    {
      assert Holds(s, s.logs[n]);
    }
  }

  lemma MergeKeepsDisjoint(s: State, plaid: RecordId, doc: RecordId, document: Option<DocumentId>)
    requires Inv(s) && ProperOp(s, MergeOp(plaid, doc, document)) && MergeInto(s, plaid, doc, document).1 == Merged
    ensures LogsDisjoint(MergeInto(s, plaid, doc, document).0)
  {
    var after := MergeInto(s, plaid, doc, document).0;
    var last := |s.logs|;
    hide InactiveIsMerged, ApplyDocFields;
    forall n | ActiveLog(after, n) && n != last
      ensures ActiveLog(s, n) && after.logs[n] == s.logs[n]
      ensures s.logs[n].doc != doc && s.logs[n].moved !! after.logs[last].moved
    {
      assert LogSound(s, s.logs[n]) && Holds(s, s.logs[n]);
    }
  }

  lemma MergeKeepsInv(s: State, plaid: RecordId, doc: RecordId, document: Option<DocumentId>)
    requires Inv(s) && ProperOp(s, MergeOp(plaid, doc, document))
    ensures Inv(MergeInto(s, plaid, doc, document).0)
  {
    if MergeInto(s, plaid, doc, document).1 == Merged {
      MergeKeepsSound(s, plaid, doc, document);
      MergeKeepsDisjoint(s, plaid, doc, document);
      MergeKeepsMerged(s, plaid, doc, document);
    }
    hide LogsSound, LogsDisjoint, InactiveIsMerged, Combined;
  }

  lemma MergeKeepsMerged(s: State, plaid: RecordId, doc: RecordId, document: Option<DocumentId>)
    requires Inv(s) && ProperOp(s, MergeOp(plaid, doc, document)) && MergeInto(s, plaid, doc, document).1 == Merged
    ensures InactiveIsMerged(MergeInto(s, plaid, doc, document).0)
  {
    var after := MergeInto(s, plaid, doc, document).0;
    assert ActiveLog(after, |s.logs|);
    forall d | d in after.records && after.records[d].plaidId.None? && !after.records[d].active && d != doc
      ensures InSomeActiveLog(after, d)
    {
      assert InSomeActiveLog(s, d);
      var n :| 0 <= n < |s.logs| && ActiveLog(s, n) && s.logs[n].doc == d;
      assert ActiveLog(after, n) && after.logs[n].doc == d;
    }
  }

  lemma UndoKeepsInv(s: State, n: nat)
    requires Inv(s) && n < |s.logs|
    ensures Inv(Undo(s, n).0)
  {
    var after := Undo(s, n).0;
    if ActiveLog(s, n) {
      forall m | ActiveLog(after, m)
        ensures ActiveLog(s, m) && m != n && after.logs[m] == s.logs[m] && Holds(after, after.logs[m])
      {
        assert s.logs[m].moved !! s.logs[n].moved;
        assert Holds(s, s.logs[m]);
        if s.logs[n].moved == {} {
          assert after.links == s.links;
        }
      }
      UndoKeepsMerged(s, n);
    }
  }

  lemma UndoKeepsMerged(s: State, n: nat)
    requires Inv(s) && ActiveLog(s, n)
    ensures InactiveIsMerged(Undo(s, n).0)
  {
    var after := Undo(s, n).0;
    forall d | d in after.records && after.records[d].plaidId.None? && !after.records[d].active
      ensures InSomeActiveLog(after, d)
    {
      assert InSomeActiveLog(s, d);
      var m :| 0 <= m < |s.logs| && ActiveLog(s, m) && s.logs[m].doc == d;
      assert m != n && ActiveLog(after, m) && after.logs[m].doc == d;
    }
  }

  lemma ArchiveKeepsInv(s: State, plaid: RecordId)
    requires Inv(s)
    ensures Inv(Archive(s, plaid))
  {
    var after := Archive(s, plaid);
    forall n | ActiveLog(after, n)
      ensures ActiveLog(s, n) && Holds(after, after.logs[n])
    {
      assert Holds(s, s.logs[n]);
    }
    forall d | d in after.records && after.records[d].plaidId.None? && !after.records[d].active
      ensures InSomeActiveLog(after, d)
    {
      assert InSomeActiveLog(s, d);
      var m :| 0 <= m < |s.logs| && ActiveLog(s, m) && s.logs[m].doc == d;
      assert ActiveLog(after, m);
    }
  }

  lemma ApplyKeepsInv(s: State, op: Op)
    requires Inv(s) && ProperOp(s, op)
    ensures Inv(Apply(s, op))
  {
    match op
    case MergeOp(plaid, doc, document) => MergeKeepsInv(s, plaid, doc, document);
    case UndoOp(n) =>
      if n < |s.logs| {
        UndoKeepsInv(s, n);
      }
    case ArchiveOp(plaid) => ArchiveKeepsInv(s, plaid);
  }

  /** Nothing but the undone mark of a log ever changes, and logs are only appended. */
  predicate LogsGrow(before: State, after: State) {
    && |before.logs| <= |after.logs|
    && forall n | 0 <= n < |before.logs| ::
         after.logs[n] == before.logs[n].(undone := after.logs[n].undone) && (before.logs[n].undone ==> after.logs[n].undone)
  }

  lemma {:induction false} RunKeepsInv(s: State, ops: seq<Op>)
    requires Inv(s) && ProperRun(s, ops)
    ensures Inv(RunOps(s, ops)) && LogsGrow(s, RunOps(s, ops))
    decreases |ops|
  {
    if ops != [] {
      ApplyKeepsInv(s, ops[0]);
      RunKeepsInv(Apply(s, ops[0]), ops[1..]);
      assert LogsGrow(s, Apply(s, ops[0]));
    }
  }

  // ----- Undoing in any order -----

  /** Where a document belongs: the document record of the active log that moved it, else where it is. */
  ghost function Home(s: State, x: DocumentId): Option<RecordId>
    requires x in s.links
  {
    if n :| ActiveLog(s, n) && x in s.logs[n].moved then Some(s.logs[n].doc) else s.links[x]
  }

  lemma HomeIs(s: State, x: DocumentId, n: int)
    requires Inv(s) && x in s.links
    ensures ActiveLog(s, n) && x in s.logs[n].moved ==> Home(s, x) == Some(s.logs[n].doc)
    ensures (forall m | ActiveLog(s, m) :: x !in s.logs[m].moved) ==> Home(s, x) == s.links[x]
  {
    if ActiveLog(s, n) && x in s.logs[n].moved {
      forall m | ActiveLog(s, m) && x in s.logs[m].moved
        ensures m == n
      {
      }
    }
  }

  lemma MergeKeepsHome(s: State, plaid: RecordId, doc: RecordId, document: Option<DocumentId>, x: DocumentId)
    requires Inv(s) && ProperOp(s, MergeOp(plaid, doc, document)) && x in s.links
    ensures var after := MergeInto(s, plaid, doc, document).0; x in after.links && Home(after, x) == Home(s, x)
  {
    var (after, outcome) := MergeInto(s, plaid, doc, document);
    MergeKeepsInv(s, plaid, doc, document);
    if outcome == Merged {
      var last := |s.logs|;
      if s.links[x] == Some(doc) {
        assert ActiveLog(after, last) && x in after.logs[last].moved;
        HomeIs(after, x, last);
        forall m | ActiveLog(s, m)
          ensures x !in s.logs[m].moved
        {
          assert Holds(s, s.logs[m]);
        }
        HomeIs(s, x, 0);
      } else if n :| ActiveLog(s, n) && x in s.logs[n].moved {
        assert ActiveLog(after, n) && after.logs[n] == s.logs[n];
        HomeIs(s, x, n);
        HomeIs(after, x, n);
      } else {
        forall m | ActiveLog(after, m)
          ensures x !in after.logs[m].moved
        {
          if m < last {
            assert ActiveLog(s, m);
          }
        }
        HomeIs(s, x, 0);
        HomeIs(after, x, 0);
      }
    }
  }

  lemma UndoKeepsHome(s: State, n: nat, x: DocumentId)
    requires Inv(s) && n < |s.logs| && x in s.links
    ensures var after := Undo(s, n).0; x in after.links && Home(after, x) == Home(s, x)
  {
    var after := Undo(s, n).0;
    UndoKeepsInv(s, n);
    if ActiveLog(s, n) {
      if x in s.logs[n].moved {
        HomeIs(s, x, n);
        forall m | ActiveLog(after, m)
          ensures x !in after.logs[m].moved
        {
          assert ActiveLog(s, m) && m != n;
        }
        HomeIs(after, x, 0);
      } else if m :| ActiveLog(s, m) && x in s.logs[m].moved {
        assert ActiveLog(after, m) && after.logs[m] == s.logs[m];
        HomeIs(s, x, m);
        HomeIs(after, x, m);
      } else {
        forall m | ActiveLog(after, m)
          ensures x !in after.logs[m].moved
        {
          assert ActiveLog(s, m);
        }
        HomeIs(s, x, 0);
        HomeIs(after, x, 0);
        assert after.links[x] == s.links[x];
      }
    }
  }

  lemma ArchiveKeepsHome(s: State, plaid: RecordId, x: DocumentId)
    requires Inv(s) && x in s.links
    ensures Home(Archive(s, plaid), x) == Home(s, x)
  {
    var after := Archive(s, plaid);
    ArchiveKeepsInv(s, plaid);
    if n :| ActiveLog(s, n) && x in s.logs[n].moved {
      assert ActiveLog(after, n);
      HomeIs(s, x, n);
      HomeIs(after, x, n);
    } else {
      forall m | ActiveLog(after, m)
        ensures x !in after.logs[m].moved
      {
        assert ActiveLog(s, m);
      }
      HomeIs(s, x, 0);
      HomeIs(after, x, 0);
    }
  }

  /** Equal but for the active flag, for every document record; the same documents exist. */
  predicate SameDocumentRecords(before: State, after: State) {
    && after.links.Keys == before.links.Keys && after.records.Keys == before.records.Keys
    && forall d | d in before.records && before.records[d].plaidId.None? ::
         after.records[d] == before.records[d].(active := after.records[d].active)
  }

  lemma ApplyKeepsDocumentRecords(s: State, op: Op)
    requires Inv(s) && ProperOp(s, op)
    ensures SameDocumentRecords(s, Apply(s, op))
  {
    if op.UndoOp? && op.log < |s.logs| {
      assert LogSound(s, s.logs[op.log]);
    }
  }

  lemma {:induction false} RunKeepsHomes(s: State, ops: seq<Op>, x: DocumentId)
    requires Inv(s) && ProperRun(s, ops) && x in s.links
    ensures var after := RunOps(s, ops); x in after.links && Home(after, x) == Home(s, x)
    ensures SameDocumentRecords(s, RunOps(s, ops))
    decreases |ops|
  {
    if ops != [] {
      ApplyKeepsInv(s, ops[0]);
      ApplyKeepsDocumentRecords(s, ops[0]);
      match ops[0] {
        case MergeOp(plaid, doc, document) => MergeKeepsHome(s, plaid, doc, document, x);
        case UndoOp(n) =>
          if n < |s.logs| {
            UndoKeepsHome(s, n, x);
          }
        case ArchiveOp(plaid) => ArchiveKeepsHome(s, plaid, x);
      }
      RunKeepsHomes(Apply(s, ops[0]), ops[1..], x);
    }
  }

  lemma {:induction false} RunKeepsDocumentRecords(s: State, ops: seq<Op>)
    requires Inv(s) && ProperRun(s, ops)
    ensures SameDocumentRecords(s, RunOps(s, ops))
    decreases |ops|
  {
    if ops != [] {
      ApplyKeepsInv(s, ops[0]);
      ApplyKeepsDocumentRecords(s, ops[0]);
      RunKeepsDocumentRecords(Apply(s, ops[0]), ops[1..]);
    }
  }

  predicate NoActiveLog(s: State) {
    forall n | 0 <= n < |s.logs| :: s.logs[n].undone
  }

  /** Whatever the order of merges, undos and archivals, once no merge is left active every document
      is back on its original record and every document record is as it was, active flag included. */
  lemma AnyOrderUndoRestoresOwnership(s: State, ops: seq<Op>)
    requires Inv(s) && NoActiveLog(s) && ProperRun(s, ops) && NoActiveLog(RunOps(s, ops))
    ensures var after := RunOps(s, ops);
            && after.links == s.links
            && forall d | d in s.records && s.records[d].plaidId.None? ::
                  d in after.records && after.records[d] == s.records[d]
  {
    var after := RunOps(s, ops);
    RunKeepsInv(s, ops);
    RunKeepsDocumentRecords(s, ops);
    forall x | x in s.links
      ensures x in after.links && after.links[x] == s.links[x]
    {
      RunKeepsHomes(s, ops, x);
      HomeIs(s, x, 0);
      HomeIs(after, x, 0);
    }
    forall d | d in s.records && s.records[d].plaidId.None?
      ensures after.records[d] == s.records[d]
    {
      InactiveExactlyInOneLog(s, d);
      InactiveExactlyInOneLog(after, d);
    }
  }

  /** The document handed to a merge is harmless if and only if the record has documents of its own:
      undoing the merge of a record without any drags the document onto that record. */
  lemma ForeignDocumentIsTaken(s: State, plaid: RecordId, doc: RecordId, x: DocumentId)
    requires IsPlaid(s, plaid) && doc in s.records && Mergeable(s.records[doc]) && !PairTaken(s, plaid, doc)
    requires x in s.links
    ensures var merged := MergeInto(s, plaid, doc, Some(x)).0;
            var undone := Undo(merged, |s.logs|).0;
            && (undone.links == s.links <==> DocumentsOf(s, doc) != {})
            && (DocumentsOf(s, doc) == {} ==> s.links[x] != Some(doc) && undone.links[x] == Some(doc))
  {
    var merged := MergeInto(s, plaid, doc, Some(x)).0;
    var undone := Undo(merged, |s.logs|).0;
    if DocumentsOf(s, doc) == {} {
      assert x !in DocumentsOf(s, doc);
    } else {
      forall y | y in s.links
        ensures undone.links[y] == s.links[y]
      {
        assert y in DocumentsOf(s, doc) <==> s.links[y] == Some(doc);
      }
    }
  }

  // ----- Undoing newest first -----

  function NewestActive(logs: seq<Log>): (n: int)
    ensures -1 <= n < |logs|
    ensures n >= 0 ==> !logs[n].undone
    ensures forall m | n < m < |logs| :: logs[m].undone
  {
    if logs == [] then -1
    else if !logs[|logs| - 1].undone then |logs| - 1
    else NewestActive(logs[..|logs| - 1])
  }

  function ActiveCount(logs: seq<Log>): nat {
    if logs == [] then 0 else ActiveCount(logs[..|logs| - 1]) + (if logs[|logs| - 1].undone then 0 else 1)
  }

  lemma {:induction false} UndoingCountsDown(logs: seq<Log>, n: nat)
    requires n < |logs| && !logs[n].undone
    ensures ActiveCount(logs[n := logs[n].(undone := true)]) == ActiveCount(logs) - 1
  {
    var after := logs[n := logs[n].(undone := true)];
    if n == |logs| - 1 {
      assert after[..n] == logs[..n];
    } else {
      assert after[..|logs| - 1] == logs[..|logs| - 1][n := logs[n].(undone := true)];
      UndoingCountsDown(logs[..|logs| - 1], n);
    }
  }

  function UndoNewest(s: State): State {
    var n := NewestActive(s.logs);
    if n < 0 then s else Undo(s, n).0
  }

  /** The records and links left once every active merge has been undone, newest first. */
  function Unwound(s: State): (map<RecordId, Record>, map<DocumentId, Option<RecordId>>)
    decreases ActiveCount(s.logs)
  {
    if NewestActive(s.logs) < 0 then (s.records, s.links)
    else
      UndoingCountsDown(s.logs, NewestActive(s.logs));
      Unwound(UndoNewest(s))
  }

  /** An undone log at the end plays no part. */
  lemma {:induction false} UnwoundIgnoresUndone(s: State, log: Log)
    requires log.undone
    ensures Unwound(s.(logs := s.logs + [log])) == Unwound(s)
    decreases ActiveCount(s.logs)
  {
    var longer := s.(logs := s.logs + [log]);
    assert longer.logs[..|s.logs|] == s.logs;
    var n := NewestActive(s.logs);
    assert NewestActive(longer.logs) == n;
    if n >= 0 {
      UndoingCountsDown(s.logs, n);
      assert longer.logs[n := longer.logs[n].(undone := true)] == s.logs[n := s.logs[n].(undone := true)] + [log];
      assert UndoNewest(longer) == UndoNewest(s).(logs := UndoNewest(s).logs + [log]);
      UnwoundIgnoresUndone(UndoNewest(s), log);
    }
  }

  /** Undo is the inverse of the merge just made into an active Plaid record. */
  lemma UndoInvertsMerge(s: State, plaid: RecordId, doc: RecordId, document: Option<DocumentId>)
    requires ProperOp(s, MergeOp(plaid, doc, document)) && plaid in s.records && s.records[plaid].active
    requires MergeInto(s, plaid, doc, document).1 == Merged
    ensures var merged := MergeInto(s, plaid, doc, document).0;
            var log := merged.logs[|s.logs|];
            UndoNewest(merged) == s.(logs := s.logs + [log.(undone := true)])
  {
    var merged := MergeInto(s, plaid, doc, document).0;
    var undone := Undo(merged, |s.logs|).0;
    var log := merged.logs[|s.logs|];
    assert NewestActive(merged.logs) == |s.logs|;
    assert undone.logs == s.logs + [log.(undone := true)];
    assert undone.records == s.records;
    assert undone.links == s.links by {
      forall x | x in s.links
        ensures undone.links[x] == s.links[x]
      {
        assert x in DocumentsOf(s, doc) <==> s.links[x] == Some(doc);
      }
    }
  }

  datatype Move = MergeMove(plaid: RecordId, doc: RecordId, document: Option<DocumentId>) | UndoNewestMove

  function Play(s: State, move: Move): State
    requires move.MergeMove? ==> ProperOp(s, MergeOp(move.plaid, move.doc, move.document))
  {
    match move
    case MergeMove(plaid, doc, document) => MergeInto(s, plaid, doc, document).0
    case UndoNewestMove => UndoNewest(s)
  }

  /** Merges go into active Plaid records; undos take the newest active merge. */
  predicate Bracketed(s: State, moves: seq<Move>)
    decreases |moves|
  {
    moves != [] ==>
      var move := moves[0];
      && (move.MergeMove? ==>
            && ProperOp(s, MergeOp(move.plaid, move.doc, move.document))
            && (move.plaid in s.records ==> s.records[move.plaid].active))
      && Bracketed(Play(s, move), moves[1..])
  }

  function PlayAll(s: State, moves: seq<Move>): State
    requires Bracketed(s, moves)
    decreases |moves|
  {
    if moves == [] then s else PlayAll(Play(s, moves[0]), moves[1..])
  }

  /** No interleaving of merges and newest-first undos changes what unwinding leads back to. */
  lemma {:induction false} UnwoundIsInvariant(s: State, moves: seq<Move>)
    requires Bracketed(s, moves)
    ensures Unwound(PlayAll(s, moves)) == Unwound(s)
    decreases |moves|
  {
    if moves != [] {
      var next := Play(s, moves[0]);
      UnwoundIsInvariant(next, moves[1..]);
      if moves[0].MergeMove? {
        var MergeMove(plaid, doc, document) := moves[0];
        if MergeInto(s, plaid, doc, document).1 == Merged {
          UndoInvertsMerge(s, plaid, doc, document);
          var log := next.logs[|s.logs|];
          UnwoundIgnoresUndone(s, log.(undone := true));
          assert NewestActive(next.logs) == |s.logs|;
          assert Unwound(next) == Unwound(UndoNewest(next));
        }
      } else if NewestActive(s.logs) >= 0 {
        assert Unwound(s) == Unwound(UndoNewest(s));
      }
    }
  }

  /** When the merges of a run have all been undone newest first, every record's fields and activity
      flag and every document link are exactly what they were. */
  lemma NewestFirstRestoresEverything(s: State, moves: seq<Move>)
    requires Bracketed(s, moves) && NoActiveLog(s) && NoActiveLog(PlayAll(s, moves))
    ensures PlayAll(s, moves).records == s.records && PlayAll(s, moves).links == s.links
  {
    UnwoundIsInvariant(s, moves);
  }

  // ----- Plaid fields after undos in any order -----

  /** The op undoes an active merge into the Plaid record. */
  predicate UndoesOn(s: State, op: Op, plaid: RecordId) {
    op.UndoOp? && ActiveLog(s, op.log) && s.logs[op.log].plaid == plaid
  }

  /** The log on the Plaid record that a run undoes last, if it undoes any. */
  function LastUndone(s: State, ops: seq<Op>, plaid: RecordId): Option<nat>
    requires ProperRun(s, ops)
    decreases |ops|
  {
    if ops == [] then None
    else
      var later := LastUndone(Apply(s, ops[0]), ops[1..], plaid);
      if later.None? && UndoesOn(s, ops[0], plaid) then Some(ops[0].log) else later
  }

  lemma {:induction false} LastUndoneIsLogged(s: State, ops: seq<Op>, plaid: RecordId)
    requires Inv(s) && ProperRun(s, ops)
    ensures var last := LastUndone(s, ops, plaid);
            last.Some? ==> last.value < |RunOps(s, ops).logs| && RunOps(s, ops).logs[last.value].plaid == plaid
    decreases |ops|
  {
    if ops != [] {
      RunKeepsInv(s, ops);
      ApplyKeepsInv(s, ops[0]);
      LastUndoneIsLogged(Apply(s, ops[0]), ops[1..], plaid);
    }
  }

  predicate SomeActiveOn(s: State, plaid: RecordId) {
    exists n | 0 <= n < |s.logs| :: ActiveLog(s, n) && s.logs[n].plaid == plaid
  }

  predicate NeverArchived(ops: seq<Op>, plaid: RecordId) {
    ArchiveOp(plaid) !in ops
  }

  predicate ActivePlaid(s: State, plaid: RecordId) {
    IsPlaid(s, plaid) && s.records[plaid].active
  }

  /** One op on an active Plaid record: a merge leaves an active log, an undo writes its snapshot, and
      any other op leaves the fields alone. */
  lemma OpOnActivePlaid(s: State, op: Op, plaid: RecordId)
    requires Inv(s) && ProperOp(s, op) && op != ArchiveOp(plaid) && ActivePlaid(s, plaid)
    ensures var after := Apply(s, op);
            && ActivePlaid(after, plaid)
            && after.records[plaid] == s.records[plaid].(fields := after.records[plaid].fields)
            && (UndoesOn(s, op, plaid) ==> after.records[plaid].fields == s.logs[op.log].saved)
            && (!UndoesOn(s, op, plaid) ==>
                  SomeActiveOn(after, plaid) || (after.records[plaid].fields == s.records[plaid].fields && !SomeActiveOn(s, plaid)))
  {
    var after := Apply(s, op);
    if op.UndoOp? && op.log < |s.logs| {
      assert LogSound(s, s.logs[op.log]);
    }
    if op.MergeOp? && op.plaid == plaid && after != s {
      assert ActiveLog(after, |s.logs|);
    } else if SomeActiveOn(s, plaid) && !UndoesOn(s, op, plaid) {
      var n :| 0 <= n < |s.logs| && ActiveLog(s, n) && s.logs[n].plaid == plaid;
      assert ActiveLog(after, n) && after.logs[n].plaid == plaid;
    }
  }

  /** While a merge is active the fields are its business; once none is, they are those of the
      snapshot restored last, or `start` if none was. */
  lemma {:induction false} FieldsAfterUndos(s: State, ops: seq<Op>, plaid: RecordId, start: Fields)
    requires Inv(s) && ProperRun(s, ops) && NeverArchived(ops, plaid) && ActivePlaid(s, plaid)
    requires SomeActiveOn(s, plaid) || s.records[plaid].fields == start
    requires NoActiveLog(RunOps(s, ops))
    ensures var after := RunOps(s, ops);
            var last := LastUndone(s, ops, plaid);
            && ActivePlaid(after, plaid)
            && (last.Some? ==> last.value < |after.logs|)
            && after.records[plaid] == s.records[plaid].(fields := if last.Some? then after.logs[last.value].saved else start)
    decreases |ops|
  {
    hide Inv, ActivePlaid, Apply;
    LastUndoneIsLogged(s, ops, plaid);
    if ops != [] {
      var next := Apply(s, ops[0]);
      ApplyKeepsInv(s, ops[0]);
      OpOnActivePlaid(s, ops[0], plaid);
      RunKeepsInv(s, ops);
      if UndoesOn(s, ops[0], plaid) {
        FieldsAfterUndos(next, ops[1..], plaid, s.logs[ops[0].log].saved);
        RunKeepsInv(next, ops[1..]);
      } else {
        FieldsAfterUndos(next, ops[1..], plaid, start);
      }
    }
  }

  /** Undoing in any order: once no merge is active, an active Plaid record is as it was but for its
      five fields, which are those of the snapshot in the log undone last. So it is restored if and
      only if that snapshot holds the original fields, or no merge into it was ever undone. */
  lemma AnyOrderUndoLeavesLastSnapshot(s: State, ops: seq<Op>, plaid: RecordId)
    requires Inv(s) && NoActiveLog(s) && ProperRun(s, ops) && NoActiveLog(RunOps(s, ops))
    requires ActivePlaid(s, plaid) && NeverArchived(ops, plaid)
    ensures var after, last := RunOps(s, ops), LastUndone(s, ops, plaid);
            && (last.Some? ==> last.value < |after.logs| && after.logs[last.value].plaid == plaid)
            && plaid in after.records
            && after.records[plaid] ==
               (if last.Some? then s.records[plaid].(fields := after.logs[last.value].saved) else s.records[plaid])
            && (after.records[plaid] == s.records[plaid] <==>
                  last.None? || after.logs[last.value].saved == s.records[plaid].fields)
  {
    FieldsAfterUndos(s, ops, plaid, s.records[plaid].fields);
    LastUndoneIsLogged(s, ops, plaid);
  }

  /** Log n is the first one on the Plaid record from number `base` on. */
  predicate FirstLogOn(s: State, base: nat, n: nat, plaid: RecordId) {
    && base <= n < |s.logs| && s.logs[n].plaid == plaid
    && forall m | base <= m < n :: s.logs[m].plaid != plaid
  }

  /** A step that neither merges into nor undoes on a Plaid record leaves its fields alone; a merge
      into it saves them. */
  lemma OpOnUnmergedPlaid(s: State, op: Op, plaid: RecordId)
    requires Inv(s) && ProperOp(s, op) && IsPlaid(s, plaid) && !UndoesOn(s, op, plaid)
    ensures var after := Apply(s, op);
            && IsPlaid(after, plaid) && |s.logs| <= |after.logs| <= |s.logs| + 1
            && (forall m | 0 <= m < |s.logs| :: after.logs[m] == s.logs[m].(undone := after.logs[m].undone))
            && (forall m | 0 <= m < |s.logs| && s.logs[m].undone :: after.logs[m].undone)
            && (if |after.logs| > |s.logs| && after.logs[|s.logs|].plaid == plaid
                then after.logs[|s.logs|].saved == s.records[plaid].fields
                else after.records[plaid].fields == s.records[plaid].fields)
  {
    if op.UndoOp? && op.log < |s.logs| {
      assert LogSound(s, s.logs[op.log]);
    }
  }

  /** The first merge of a run into a Plaid record saves its original fields. */
  lemma {:induction false} FirstLogSavesOriginal(s: State, ops: seq<Op>, plaid: RecordId, base: nat, n: nat)
    requires Inv(s) && ProperRun(s, ops) && IsPlaid(s, plaid) && base <= |s.logs|
    requires forall m | 0 <= m < base :: s.logs[m].undone
    requires forall m | base <= m < |s.logs| :: s.logs[m].plaid != plaid
    requires FirstLogOn(RunOps(s, ops), base, n, plaid)
    ensures RunOps(s, ops).logs[n].saved == s.records[plaid].fields
    decreases |ops|
  {
    hide Inv, Apply, IsPlaid;
    if ops != [] {
      var next := Apply(s, ops[0]);
      OpOnUnmergedPlaid(s, ops[0], plaid);
      ApplyKeepsInv(s, ops[0]);
      RunKeepsInv(next, ops[1..]);
      if |next.logs| > |s.logs| && next.logs[|s.logs|].plaid == plaid {
        assert RunOps(s, ops).logs[|s.logs|].plaid == plaid;
        assert n == |s.logs|;
      } else {
        FirstLogSavesOriginal(next, ops[1..], plaid, base, n);
      }
    }
  }

  /** So the order among the later merges does not matter: it is enough that the first merge into the
      Plaid record is the one undone last. */
  lemma OldestLastRestoresFields(s: State, ops: seq<Op>, plaid: RecordId)
    requires Inv(s) && NoActiveLog(s) && ProperRun(s, ops) && NoActiveLog(RunOps(s, ops))
    requires ActivePlaid(s, plaid) && NeverArchived(ops, plaid)
    requires var last := LastUndone(s, ops, plaid); last.Some? ==> FirstLogOn(RunOps(s, ops), |s.logs|, last.value, plaid)
    ensures plaid in RunOps(s, ops).records && RunOps(s, ops).records[plaid] == s.records[plaid]
  {
    AnyOrderUndoLeavesLastSnapshot(s, ops, plaid);
    var last := LastUndone(s, ops, plaid);
    if last.Some? {
      FirstLogSavesOriginal(s, ops, plaid, |s.logs|, last.value);
    }
  }

  /** Once a Plaid record is archived, undos leave its fields alone: only merges still write them. */
  lemma UndoKeepsArchivedFields(s: State, n: nat, plaid: RecordId)
    requires Inv(s) && n < |s.logs| && IsPlaid(s, plaid) && !s.records[plaid].active
    ensures plaid in Undo(s, n).0.records && Undo(s, n).0.records[plaid] == s.records[plaid]
  {
    assert LogSound(s, s.logs[n]);
  }

  /** `start` after the merges of a run into the Plaid record, its undos left out. */
  function MergedOnto(s: State, ops: seq<Op>, plaid: RecordId, start: Fields): Fields
    requires ProperRun(s, ops)
    decreases |ops|
  {
    if ops == [] then start
    else MergedOnto(Apply(s, ops[0]), ops[1..], plaid, if MergesInto(s, ops[0], plaid) then ApplyDocFields(start, s.records[ops[0].doc].fields) else start)
  }

  predicate MergesInto(s: State, op: Op, plaid: RecordId)
    requires ProperOp(s, op)
  {
    op.MergeOp? && op.plaid == plaid && MergeInto(s, plaid, op.doc, op.document).1 == Merged
  }

  lemma OpOnArchivedPlaid(s: State, op: Op, plaid: RecordId)
    requires Inv(s) && ProperOp(s, op) && IsPlaid(s, plaid) && !s.records[plaid].active
    ensures IsPlaid(Apply(s, op), plaid)
    ensures Apply(s, op).records[plaid] == s.records[plaid].(fields :=
              if MergesInto(s, op, plaid) then ApplyDocFields(s.records[plaid].fields, s.records[op.doc].fields) else s.records[plaid].fields)
  {
    if op.UndoOp? && op.log < |s.logs| {
      UndoKeepsArchivedFields(s, op.log, plaid);
    }
  }

  /** Over every run, an archived Plaid record keeps the fields it was archived with but for the merges
      that still go into it: no undo, in whatever order, takes any of them back. */
  lemma {:induction false} ArchivedFieldsOverRun(s: State, ops: seq<Op>, plaid: RecordId)
    requires Inv(s) && ProperRun(s, ops) && IsPlaid(s, plaid) && !s.records[plaid].active
    ensures plaid in RunOps(s, ops).records
    ensures RunOps(s, ops).records[plaid] == s.records[plaid].(fields := MergedOnto(s, ops, plaid, s.records[plaid].fields))
    decreases |ops|
  {
    hide Inv, Apply, ApplyDocFields, MergesInto;
    if ops != [] {
      ApplyKeepsInv(s, ops[0]);
      OpOnArchivedPlaid(s, ops[0], plaid);
      ArchivedFieldsOverRun(Apply(s, ops[0]), ops[1..], plaid);
    }
  }

  lemma {:induction false} RunOpsSplit(s: State, first: seq<Op>, rest: seq<Op>)
    requires ProperRun(s, first + rest)
    ensures ProperRun(s, first) && ProperRun(RunOps(s, first), rest)
    ensures RunOps(s, first + rest) == RunOps(RunOps(s, first), rest)
    decreases |first|
  {
    hide Apply, ProperOp;
    if first == [] {
      assert first + rest == rest;
    } else {
      assert (first + rest)[1..] == first[1..] + rest;
      RunOpsSplit(Apply(s, first[0]), first[1..], rest);
    }
  }

  /** A run that archives the Plaid record in between: its fields end as those it had at archival, plus
      the merges made after that. */
  lemma ArchivalFreezesFields(s: State, before: seq<Op>, plaid: RecordId, later: seq<Op>)
    requires Inv(s) && IsPlaid(s, plaid) && ProperRun(s, before + ([ArchiveOp(plaid)] + later))
    ensures ProperRun(s, before) && plaid in RunOps(s, before).records
    ensures var archived := Archive(RunOps(s, before), plaid);
            var after := RunOps(s, before + ([ArchiveOp(plaid)] + later));
            && ProperRun(archived, later) && plaid in after.records && !after.records[plaid].active
            && after.records[plaid].fields == MergedOnto(archived, later, plaid, RunOps(s, before).records[plaid].fields)
  {
    RunOpsSplit(s, before, [ArchiveOp(plaid)] + later);
    RunKeepsInv(s, before);
    RunKeepsPlaid(s, before, plaid);
    var middle := RunOps(s, before);
    assert ([ArchiveOp(plaid)] + later)[1..] == later;
    ArchiveKeepsInv(middle, plaid);
    ArchivedFieldsOverRun(Archive(middle, plaid), later, plaid);
    hide Inv, RunOps;
  }

  lemma {:induction false} RunKeepsPlaid(s: State, ops: seq<Op>, plaid: RecordId)
    requires Inv(s) && ProperRun(s, ops) && IsPlaid(s, plaid)
    ensures IsPlaid(RunOps(s, ops), plaid)
    decreases |ops|
  {
    if ops != [] {
      ApplyKeepsInv(s, ops[0]);
      if ops[0].UndoOp? && ops[0].log < |s.logs| {
        assert LogSound(s, s.logs[ops[0].log]);
      }
      RunKeepsPlaid(Apply(s, ops[0]), ops[1..], plaid);
    }
  }

  /** The smallest case in which fields stay stale: undoing the older of two merges first leaves the Plaid
      record with the fields of the first merge, which is the original state only if that merge
      changed nothing. */
  lemma OldestFirstLeavesFirstMerge(s: State, plaid: RecordId, first: RecordId, second: RecordId)
    requires Inv(s) && IsPlaid(s, plaid) && s.records[plaid].active && first != second
    requires first in s.records && Mergeable(s.records[first]) && second in s.records && Mergeable(s.records[second])
    ensures var merged := MergeInto(MergeInto(s, plaid, first, None).0, plaid, second, None).0;
            var undone := Undo(Undo(merged, |s.logs|).0, |s.logs| + 1).0;
            var mixed := ApplyDocFields(s.records[plaid].fields, s.records[first].fields);
            && undone.records[plaid].fields == mixed
            && (undone.records[plaid] == s.records[plaid] <==> mixed == s.records[plaid].fields)
  {
    var one := MergeInto(s, plaid, first, None).0;
    DuplicateMergeNeverFires(s, plaid, first, None);
    MergeKeepsInv(s, plaid, first, None);
    DuplicateMergeNeverFires(one, plaid, second, None);
    var two := MergeInto(one, plaid, second, None).0;
    assert two.logs[|s.logs|] == one.logs[|s.logs|];
    assert two.logs[|s.logs| + 1].saved == one.records[plaid].fields;
  }
}
