/** The stored records, document links and merge logs, and the code of the merge engine. */
module MergeStore {
  import opened Basics
  import opened Merge
  import Matching

  class RecordRow {
    var products: string
    var notes: string
    var recordType: string
    var folder: Option<nat>
    var paymentMethod: string
    var active: bool
    var plaidId: Option<string>

    constructor (record: Record)
      ensures View() == record
    {
      products, notes, recordType := record.fields.products, record.fields.notes, record.fields.recordType;
      folder, paymentMethod := record.fields.folder, record.fields.paymentMethod;
      active, plaidId := record.active, record.plaidId;
    }

    function Restorable(): Fields
      reads this
    {
      Fields(products, notes, recordType, folder, paymentMethod)
    }

    function View(): Record
      reads this
    {
      Record(Restorable(), active, plaidId)
    }

    method ApplyDocFieldsOf(doc: RecordRow)
      requires doc != this
      modifies this
      ensures View() == old(View()).(fields := ApplyDocFields(old(Restorable()), doc.Restorable()))
    {
      if doc.products != "" {
        products := doc.products;
      }
      if doc.notes != "" {
        notes := doc.notes;
      }
      if doc.recordType != FINANCIAL_DOCUMENT {
        recordType := doc.recordType;
      }
      if doc.folder.Some? {
        folder := doc.folder;
      }
      if paymentMethod == "" {
        paymentMethod := doc.paymentMethod;
      }
    }

    method RestoreFromSnapshot(saved: Fields)
      modifies this
      ensures View() == old(View()).(fields := saved)
    {
      products, notes, recordType := saved.products, saved.notes, saved.recordType;
      folder, paymentMethod := saved.folder, saved.paymentMethod;
    }

    method Reactivate()
      modifies this
      ensures View() == old(View()).(active := true, plaidId := None)
    {
      active, plaidId := true, None;
    }
  }

  class MergeLogRow {
    const plaid: RecordId
    const doc: RecordId
    const document: Option<DocumentId>
    const saved: Fields
    const moved: set<DocumentId>
    var undone: bool

    constructor (plaid: RecordId, doc: RecordId, document: Option<DocumentId>, saved: Fields, moved: set<DocumentId>)
      ensures View() == Log(plaid, doc, document, saved, moved, false)
    {
      this.plaid, this.doc, this.document, this.saved, this.moved := plaid, doc, document, saved, moved;
      undone := false;
    }

    function View(): Log
      reads this
    {
      Log(plaid, doc, document, saved, moved, undone)
    }
  }

  class Store {
    const records: map<RecordId, RecordRow>
    var links: map<DocumentId, Option<RecordId>>
    var logs: seq<MergeLogRow>

    predicate Valid()
      reads this`logs
    {
      && (forall r, q | r in records && q in records && r != q :: records[r] != records[q])
      && (forall n, m | 0 <= n < m < |logs| :: logs[n] != logs[m])
    }

    function RecordViews(): map<RecordId, Record>
      reads records.Values
    {
      map r | r in records :: records[r].View()
    }

    function LogViews(): (views: seq<Log>)
      reads this, logs
      ensures |views| == |logs| && forall n | 0 <= n < |logs| :: views[n] == logs[n].View()
    {
      seq(|logs|, n requires 0 <= n < |logs| reads this, logs => logs[n].View())
    }

    function View(): State
      reads this, records.Values, logs
    {
      State(RecordViews(), links, LogViews())
    }

    constructor (rows: map<RecordId, RecordRow>, documents: map<DocumentId, Option<RecordId>>)
      requires forall r, q | r in rows && q in rows && r != q :: rows[r] != rows[q]
      ensures Valid() && records == rows && logs == []
      ensures View() == State(map r | r in rows :: rows[r].View(), documents, [])
    {
      records, links, logs := rows, documents, [];
    }

    method MoveDocuments(moved: set<DocumentId>, target: RecordId)
      requires Valid()
      modifies this`links
      ensures View() == old(View()).(links := Relinked(old(View()).links, moved, target))
    {
      links := map x | x in links :: if x in moved then Some(target) else links[x];
    }

    method OverwriteFields(plaid: RecordId, doc: RecordId)
      requires Valid() && plaid in records && doc in records && plaid != doc
      modifies records.Values
      ensures var s := old(View());
              View() == s.(records := s.records[plaid := s.records[plaid].(
                fields := ApplyDocFields(s.records[plaid].fields, s.records[doc].fields))])
    {
      var target, source := records[plaid], records[doc];
      target.ApplyDocFieldsOf(source);
    }

    method Deactivate(doc: RecordId)
      requires Valid() && doc in records
      modifies records.Values
      ensures var s := old(View()); View() == s.(records := s.records[doc := s.records[doc].(active := false)])
    {
      var row := records[doc];
      row.active := false;
    }

    method AppendLog(plaid: RecordId, doc: RecordId, document: Option<DocumentId>, saved: Fields, moved: set<DocumentId>)
      requires Valid()
      modifies this`logs
      ensures Valid()
      ensures forall k | 0 <= k < |logs| :: logs[k] in old(logs) || fresh(logs[k])
      ensures var s := old(View()); View() == s.(logs := s.logs + [Log(plaid, doc, document, saved, moved, false)])
    {
      var log := new MergeLogRow(plaid, doc, document, saved, moved);
      logs := logs + [log];
    }

    method RestorePlaid(plaid: RecordId, saved: Fields)
      requires Valid() && plaid in records
      modifies records.Values
      ensures var s := old(View()); View() == s.(records := s.records[plaid := s.records[plaid].(fields := saved)])
    {
      var row := records[plaid];
      row.RestoreFromSnapshot(saved);
    }

    method RestoreDocumentRecord(doc: RecordId)
      requires Valid() && doc in records
      modifies records.Values
      ensures var s := old(View()); View() == s.(records := s.records[doc := s.records[doc].(active := true, plaidId := None)])
    {
      var row := records[doc];
      row.Reactivate();
    }

    method MarkUndone(n: nat)
      requires Valid() && n < |logs|
      modifies logs
      ensures var s := old(View()); View() == s.(logs := s.logs[n := s.logs[n].(undone := true)])
    {
      var log := logs[n];
      log.undone := true;
      assert View().logs == old(View()).logs[n := log.View()];
    }

    method RewriteRecords(plaid: RecordId, doc: RecordId)
      requires Valid() && plaid in records && doc in records && plaid != doc
      modifies records.Values
      ensures View() == old(View()).(records := CombinedRecords(old(View()).records, plaid, doc))
    {
      assert View().records.Keys == records.Keys;
      hide Valid, View, ApplyDocFields;
      OverwriteFields(plaid, doc);
      Deactivate(doc);
    }

    /** The writes of a merge that passed its guards. */
    method CombineRows(plaid: RecordId, doc: RecordId, document: Option<DocumentId>)
      requires Valid() && plaid in records && doc in records && plaid != doc
      modifies this`links, this`logs, records.Values
      ensures Valid()
      ensures forall k | 0 <= k < |logs| :: logs[k] in old(logs) || fresh(logs[k])
      ensures View() == Combined(old(View()), plaid, doc, document)
    {
      var saved := records[plaid].Restorable();
      assert View().records[plaid].fields == saved;
      assert View().records.Keys == records.Keys;
      var moved := DocumentsOf(View(), doc);
      hide Valid, View, CombinedRecords, Relinked, DocumentsOf;
      MoveDocuments(moved, plaid);
      RewriteRecords(plaid, doc);
      AppendLog(plaid, doc, document, saved, moved);
    }

    /** merge_document_into_plaid. */
    method MergeDocument(plaid: RecordId, doc: RecordId, document: Option<DocumentId>) returns (outcome: MergeOutcome)
      requires Valid() && (plaid in records ==> records[plaid].plaidId.Some?)
      modifies this, records.Values
      ensures Valid()
      ensures forall k | 0 <= k < |logs| :: logs[k] in old(logs) || fresh(logs[k])
      ensures (View(), outcome) == MergeInto(old(View()), plaid, doc, document)
    {
      assert View().records.Keys == records.Keys;
      assert forall r | r in records :: View().records[r] == records[r].View();
      hide Valid, View, Combined;
      if plaid !in records || doc !in records {
        return MissingRecord;
      }
      if !records[doc].active || records[doc].plaidId.Some? {
        return NotMergeable;
      }
      if PairTaken(View(), plaid, doc) {
        return DuplicateMerge;
      }
      CombineRows(plaid, doc, document);
      return Merged;
    }

    method RestoreRecords(log: Log)
      requires Valid()
      modifies records.Values
      ensures View() == old(View()).(records := RestoredRecords(old(View()).records, log))
    {
      assert View().records.Keys == records.Keys;
      assert forall r | r in records :: View().records[r].active == records[r].active;
      hide Valid, View;
      if log.plaid in records && records[log.plaid].active {
        RestorePlaid(log.plaid, log.saved);
      }
      if log.doc in records {
        RestoreDocumentRecord(log.doc);
      }
    }

    method ReturnDocuments(log: Log)
      requires Valid()
      modifies this`links
      ensures View() == old(View()).(links := RestoredLinks(old(View()), log))
    {
      assert View().records.Keys == records.Keys;
      hide Valid, View, Relinked;
      if log.moved != {} && log.plaid in records && log.doc in records {
        MoveDocuments(log.moved, log.doc);
      } else if log.document.Some? && log.doc in records {
        MoveDocuments({log.document.value}, log.doc);
      }
    }

    /** undo_merge. */
    method UndoMerge(n: nat) returns (undone: bool)
      requires Valid() && n < |logs|
      modifies this`links, records.Values, logs
      ensures Valid() && logs == old(logs)
      ensures (View(), undone) == Undo(old(View()), n)
    {
      var log := logs[n].View();
      RestoredKeys(View().records, log);
      assert View().logs[n] == log;
      hide Valid, View, RestoredRecords, RestoredLinks;
      if log.undone {
        return false;
      }
      RestoreRecords(log);
      ReturnDocuments(log);
      MarkUndone(n);
      return true;
    }

    /** try_match_document_record: at most one merge, into the best Plaid record if there is one. */
    method TryMatchDocumentRecord(record: Matching.Candidate, pool: seq<Matching.Candidate>, text: Matching.Text, document: Option<DocumentId>)
      returns (best: Option<nat>, outcome: MergeOutcome)
      requires Valid() && Matching.PoolOf(View(), pool)
      modifies this, records.Values
      ensures Valid()
      ensures Matching.IsBest(record, Matching.Candidates(record, pool, true), text, best)
      ensures best.None? ==> View() == old(View()) && outcome == NotMergeable
      ensures best.Some? ==>
        var target := Matching.Candidates(record, pool, true)[best.value].id;
        IsPlaid(old(View()), target) && (View(), outcome) == MergeInto(old(View()), target, record.id, document)
    {
      best := Matching.FindBestPlaidMatch(record, pool, text);
      if best.None? {
        return best, NotMergeable;
      }
      var target := Matching.Candidates(record, pool, true)[best.value];
      assert target in pool;
      outcome := MergeDocument(target.id, record.id, document);
    }

    lemma RowIsPlaid(plaid: RecordId)
      requires plaid in records
      ensures IsPlaid(View(), plaid) <==> records[plaid].plaidId.Some?
    {
    }

    method MergeMatches(plaid: RecordId, matches: seq<Matching.Match>) returns (merged: seq<RecordId>)
      requires Valid() && plaid in records && records[plaid].plaidId.Some?
      modifies this, records.Values
      ensures Valid()
      ensures (View(), merged) == Matching.MergeEach(old(View()), plaid, matches)
    {
      RowIsPlaid(plaid);
      hide View, MergeInto;
      merged := [];
      for i := 0 to |matches|
        invariant Valid() && IsPlaid(View(), plaid)
        invariant forall k | 0 <= k < |logs| :: logs[k] in old(logs) || fresh(logs[k])
        invariant (View(), merged) == Matching.MergeEach(old(View()), plaid, matches[..i])
      {
        assert matches[..i + 1][..i] == matches[..i];
        RowIsPlaid(plaid);
        var outcome := MergeDocument(plaid, matches[i].doc, matches[i].document);
        if outcome == Merged {
          merged := merged + [matches[i].doc];
        }
        MergeKeepsPlaid(old(View()), plaid, matches[..i + 1]);
      }
      assert matches[..|matches|] == matches;
    }

    /** try_match_plaid_record: merge every match in ranking order. */
    method TryMatchPlaidRecord(plaid: Matching.Candidate, pool: seq<Matching.Candidate>, text: Matching.Text, documents: map<RecordId, DocumentId>)
      returns (merged: seq<RecordId>)
      requires Valid() && plaid.id in records && records[plaid.id].plaidId.Some?
      modifies this, records.Values
      ensures Valid()
      ensures var ranking := Matching.SortDescending(Matching.AboveThreshold(plaid, Matching.Candidates(plaid, pool, false), text));
              (View(), merged) == Matching.MergeEach(old(View()), plaid.id, Matching.MatchesOf(ranking, documents))
    {
      var ranking := Matching.FindDocumentMatches(plaid, pool, text);
      merged := MergeMatches(plaid.id, Matching.MatchesOf(ranking, documents));
    }
  }

  lemma RestoredKeys(records: map<RecordId, Record>, log: Log)
    ensures RestoredRecords(records, log).Keys == records.Keys
  {
  }

  lemma MergeKeepsPlaid(s: State, plaid: RecordId, matches: seq<Matching.Match>)
    requires IsPlaid(s, plaid)
    ensures IsPlaid(Matching.MergeEach(s, plaid, matches).0, plaid)
  {
    if matches != [] {
      MergeKeepsPlaid(s, plaid, matches[..|matches| - 1]);
    }
  }
}
