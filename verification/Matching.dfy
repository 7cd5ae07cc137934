/** Scoring candidate pairs, choosing the best one, and merging every match of a Plaid record. */
module Matching {
  import opened Basics
  import opened Merge
  import opened MergeSafety

  const DATE_TOLERANCE_DAYS := 3
  const MATCH_LOOKAHEAD_DAYS := 14
  const MERGE_SCORE_THRESHOLD := 55
  const CERTAIN_SCORE := 95
  const MAX_MATCH_CANDIDATES := 2000

  /** The columns of a record that matching reads; dates are day numbers. */
  datatype Candidate = Candidate(id: RecordId, user: nat, title: string, merchant: string, balance: Option<real>,
                                 date: Option<int>, plaid: bool, active: bool)

  /** The text functions matching relies on: lower-casing with stripping, and rapidfuzz's ratio in [0, 1]. */
  datatype Text = Text(normalize: string -> string, ratio: (string, string) -> real)

  function Distance(a: int, b: int): nat {
    if a < b then b - a else a - b
  }

  function Similarity(a: string, b: string, text: Text): real {
    if a == "" || b == "" then 0.0
    else
      var x, y := text.normalize(a), text.normalize(b);
      var longest := Max(|x|, |y|);
      if |x| < 3 || |y| < 3 then (if x == y then 1.0 else 0.0)
      else if Distance(|x|, |y|) as real / longest as real > 0.6 then 0.0
      else text.ratio(x, y)
  }

  function BalanceScore(a: Option<real>, b: Option<real>): nat {
    if a.None? || b.None? then 0
    else
      var diff := Abs(a.value - b.value);
      if diff == 0.0 then 40 else if diff <= 1.0 then 30 else if diff <= 3.0 then 15 else 0
  }

  function DateScore(a: Option<int>, b: Option<int>): nat {
    if a.None? || b.None? then 0
    else
      var days := Distance(a.value, b.value);
      if days == 0 then 30 else if days == 1 then 20 else if days <= DATE_TOLERANCE_DAYS then 10 else 0
  }

  function MerchantScore(a: string, b: string, text: Text): nat {
    if a == "" || b == "" then 0
    else
      var similarity := Similarity(a, b, text);
      if similarity >= 0.9 then 30 else if similarity >= 0.7 then 20 else if similarity >= 0.5 then 10
      else if similarity >= 0.3 then 5 else 0
  }

  function TitleScore(a: string, b: string, text: Text): nat {
    if a == "" || b == "" then 0
    else
      var similarity := Similarity(a, b, text);
      if similarity >= 0.9 then 20 else if similarity >= 0.7 then 15 else if similarity >= 0.5 then 8
      else if similarity >= 0.3 then 3 else 0
  }

  function Score(a: Candidate, b: Candidate, text: Text): (score: nat)
    ensures score <= 120
  {
    BalanceScore(a.balance, b.balance) + DateScore(a.date, b.date)
    + MerchantScore(a.merchant, b.merchant, text) + TitleScore(a.title, b.title, text)
  }

  ghost predicate SymmetricText(text: Text) {
    forall x, y :: text.ratio(x, y) == text.ratio(y, x)
  }

  /** Both search directions give a pair the same score. */
  lemma ScoreIsSymmetric(a: Candidate, b: Candidate, text: Text)
    requires SymmetricText(text)
    ensures Score(a, b, text) == Score(b, a, text)
  {
    SimilarityIsSymmetric(a.merchant, b.merchant, text);
    SimilarityIsSymmetric(a.title, b.title, text);
  }

  lemma SimilarityIsSymmetric(a: string, b: string, text: Text)
    requires SymmetricText(text)
    ensures Similarity(a, b, text) == Similarity(b, a, text)
  {
    assert text.ratio(text.normalize(a), text.normalize(b)) == text.ratio(text.normalize(b), text.normalize(a));
  }

  // ----- Candidate queries -----

  /** The filters of both queries: same user, the wanted kind, active, another record, in the date window. */
  predicate Eligible(record: Candidate, c: Candidate, wantPlaid: bool) {
    && c.user == record.user && c.plaid == wantPlaid && c.active && c.id != record.id
    && (record.date.Some? ==> c.date.Some? && Distance(record.date.value, c.date.value) <= MATCH_LOOKAHEAD_DAYS)
  }

  function EligibleIn(record: Candidate, pool: seq<Candidate>, wantPlaid: bool): (eligible: seq<Candidate>)
    ensures forall c | c in eligible :: c in pool && Eligible(record, c, wantPlaid)
  {
    if pool == [] then []
    else
      var earlier := EligibleIn(record, pool[..|pool| - 1], wantPlaid);
      if Eligible(record, pool[|pool| - 1], wantPlaid) then earlier + [pool[|pool| - 1]] else earlier
  }

  function Candidates(record: Candidate, pool: seq<Candidate>, wantPlaid: bool): (candidates: seq<Candidate>)
    ensures |candidates| <= MAX_MATCH_CANDIDATES
    ensures forall c | c in candidates :: c in pool && Eligible(record, c, wantPlaid)
  {
    var all := EligibleIn(record, pool, wantPlaid);
    if |all| <= MAX_MATCH_CANDIDATES then all else all[..MAX_MATCH_CANDIDATES]
  }

  /** The first candidate scoring at least 95 if there is one, otherwise the first of the highest
      score if that reaches the threshold, otherwise none. */
  predicate IsBest(record: Candidate, candidates: seq<Candidate>, text: Text, best: Option<nat>) {
    match best
    case None => forall j | 0 <= j < |candidates| :: Score(record, candidates[j], text) < MERGE_SCORE_THRESHOLD
    case Some(k) =>
      k < |candidates| &&
      var top := Score(record, candidates[k], text);
      && top >= MERGE_SCORE_THRESHOLD
      && (forall j | 0 <= j < k :: Score(record, candidates[j], text) < Min(top, CERTAIN_SCORE))
      && (top < CERTAIN_SCORE ==> forall j | k < j < |candidates| :: Score(record, candidates[j], text) <= top)
  }

  lemma BestIsUnique(record: Candidate, candidates: seq<Candidate>, text: Text, one: Option<nat>, other: Option<nat>)
    requires IsBest(record, candidates, text, one) && IsBest(record, candidates, text, other)
    ensures one == other
  {
  }

  method FindBestPlaidMatch(record: Candidate, pool: seq<Candidate>, text: Text) returns (best: Option<nat>)
    ensures IsBest(record, Candidates(record, pool, true), text, best)
  {
    var candidates := Candidates(record, pool, true);
    var bestScore := 0;
    var bestMatch: Option<nat> := None;
    var i := 0;
    while i < |candidates|
      invariant 0 <= i <= |candidates|
      invariant bestScore < CERTAIN_SCORE
      invariant bestMatch.None? ==> bestScore == 0
      invariant bestMatch.Some? ==> bestMatch.value < i && bestScore == Score(record, candidates[bestMatch.value], text)
      invariant bestMatch.Some? ==> forall j | 0 <= j < bestMatch.value :: Score(record, candidates[j], text) < bestScore
      invariant forall j | 0 <= j < i :: Score(record, candidates[j], text) <= bestScore
    {
      var score := Score(record, candidates[i], text);
      if score > bestScore {
        bestScore := score;
        bestMatch := Some(i);
        if bestScore >= CERTAIN_SCORE {
          break;
        }
      }
      i := i + 1;
    }
    return if bestScore >= MERGE_SCORE_THRESHOLD then bestMatch else None;
  }

  // ----- Ranking -----

  datatype Ranked = Ranked(candidate: Candidate, score: int)

  function Insert(ranking: seq<Ranked>, item: Ranked): seq<Ranked> {
    if ranking == [] || ranking[|ranking| - 1].score >= item.score then ranking + [item]
    else Insert(ranking[..|ranking| - 1], item) + [ranking[|ranking| - 1]]
  }

  /** A stable sort by descending score. */
  function SortDescending(items: seq<Ranked>): seq<Ranked> {
    if items == [] then [] else Insert(SortDescending(items[..|items| - 1]), items[|items| - 1])
  }

  predicate Descending(items: seq<Ranked>) {
    forall i, j | 0 <= i < j < |items| :: items[i].score >= items[j].score
  }

  function WithScore(items: seq<Ranked>, score: int): seq<Ranked> {
    if items == [] then []
    else
      WithScore(items[..|items| - 1], score) + (if items[|items| - 1].score == score then [items[|items| - 1]] else [])
  }

  lemma WithScoreAppend(items: seq<Ranked>, item: Ranked, score: int)
    ensures WithScore(items + [item], score) == WithScore(items, score) + (if item.score == score then [item] else [])
  {
    assert (items + [item])[..|items|] == items;
  }

  lemma {:induction false} InsertKeepsContents(ranking: seq<Ranked>, item: Ranked)
    ensures multiset(Insert(ranking, item)) == multiset(ranking) + multiset{item}
  {
    if ranking != [] && ranking[|ranking| - 1].score < item.score {
      InsertKeepsContents(ranking[..|ranking| - 1], item);
      assert ranking == ranking[..|ranking| - 1] + [ranking[|ranking| - 1]];
    }
  }

  lemma {:induction false} InsertKeepsOrder(ranking: seq<Ranked>, item: Ranked)
    requires Descending(ranking)
    ensures Descending(Insert(ranking, item))
  {
    if ranking != [] && ranking[|ranking| - 1].score < item.score {
      var shorter, last := ranking[..|ranking| - 1], ranking[|ranking| - 1];
      InsertKeepsOrder(shorter, item);
      InsertKeepsContents(shorter, item);
      var inserted := Insert(shorter, item);
      forall i | 0 <= i < |inserted|
        ensures inserted[i].score >= last.score
      {
        assert inserted[i] in multiset(inserted);
        assert inserted[i] in multiset(shorter) || inserted[i] == item;
      }
    }
  }

  lemma {:induction false} InsertIsStable(ranking: seq<Ranked>, item: Ranked, score: int)
    requires Descending(ranking)
    ensures WithScore(Insert(ranking, item), score) == WithScore(ranking, score) + (if item.score == score then [item] else [])
  {
    if ranking == [] || ranking[|ranking| - 1].score >= item.score {
      WithScoreAppend(ranking, item, score);
    } else {
      var shorter, last := ranking[..|ranking| - 1], ranking[|ranking| - 1];
      InsertIsStable(shorter, item, score);
      WithScoreAppend(Insert(shorter, item), last, score);
      if item.score == score {
        LowerScoresOnly(ranking, score);
      }
    }
  }

  /** A descending list that ends below a score it still contains holds that score before its last item. */
  lemma LowerScoresOnly(ranking: seq<Ranked>, score: int)
    requires Descending(ranking) && ranking != [] && ranking[|ranking| - 1].score < score
    ensures WithScore(ranking, score) == WithScore(ranking[..|ranking| - 1], score)
  {
  }

  /** The ranking is a permutation in descending order that keeps candidates of equal score in query order. */
  lemma {:induction false} SortDescendingRanks(items: seq<Ranked>, score: int)
    ensures var ranking := SortDescending(items);
            Descending(ranking) && multiset(ranking) == multiset(items) && WithScore(ranking, score) == WithScore(items, score)
  {
    if items != [] {
      var shorter, last := items[..|items| - 1], items[|items| - 1];
      SortDescendingRanks(shorter, score);
      InsertKeepsContents(SortDescending(shorter), last);
      InsertKeepsOrder(SortDescending(shorter), last);
      InsertIsStable(SortDescending(shorter), last, score);
      assert items == shorter + [last];
    }
  }

  function AboveThreshold(plaid: Candidate, candidates: seq<Candidate>, text: Text): seq<Ranked> {
    if candidates == [] then []
    else
      var last := candidates[|candidates| - 1];
      var earlier := AboveThreshold(plaid, candidates[..|candidates| - 1], text);
      if Score(plaid, last, text) >= MERGE_SCORE_THRESHOLD then earlier + [Ranked(last, Score(plaid, last, text))] else earlier
  }

  lemma {:induction false} AboveThresholdSelects(plaid: Candidate, candidates: seq<Candidate>, text: Text, item: Ranked)
    ensures item in AboveThreshold(plaid, candidates, text) <==>
            item.candidate in candidates && item.score == Score(plaid, item.candidate, text) >= MERGE_SCORE_THRESHOLD
  {
    if candidates != [] {
      var shorter, last := candidates[..|candidates| - 1], candidates[|candidates| - 1];
      AboveThresholdSelects(plaid, shorter, text, item);
      assert candidates == shorter + [last];
    }
  }

  method FindDocumentMatches(plaid: Candidate, pool: seq<Candidate>, text: Text) returns (ranking: seq<Ranked>)
    ensures ranking == SortDescending(AboveThreshold(plaid, Candidates(plaid, pool, false), text))
    ensures Descending(ranking)
    ensures forall item :: item in ranking <==>
      item.candidate in Candidates(plaid, pool, false) && item.score == Score(plaid, item.candidate, text) >= MERGE_SCORE_THRESHOLD
  {
    var candidates := Candidates(plaid, pool, false);
    var results: seq<Ranked> := [];
    var i := 0;
    while i < |candidates|
      invariant 0 <= i <= |candidates|
      invariant results == AboveThreshold(plaid, candidates[..i], text)
    {
      assert candidates[..i + 1][..i] == candidates[..i];
      var score := Score(plaid, candidates[i], text);
      if score >= MERGE_SCORE_THRESHOLD {
        results := results + [Ranked(candidates[i], score)];
      }
      i := i + 1;
    }
    assert candidates[..i] == candidates;
    ranking := SortDescending(results);
    SortDescendingRanks(results, 0);
    forall item: Ranked
      ensures item in ranking <==>
        item.candidate in candidates && item.score == Score(plaid, item.candidate, text) >= MERGE_SCORE_THRESHOLD
    {
      AboveThresholdSelects(plaid, candidates, text, item);
      assert item in ranking <==> item in multiset(ranking);
      assert item in results <==> item in multiset(results);
    }
  }

  // ----- Merging every match -----

  datatype Match = Match(doc: RecordId, document: Option<DocumentId>)

  /** The merges of try_match_plaid_record in ranking order, and the records that were merged. */
  function MergeEach(s: State, plaid: RecordId, matches: seq<Match>): (r: (State, seq<RecordId>))
    requires plaid in s.records ==> IsPlaid(s, plaid)
    ensures plaid in r.0.records ==> IsPlaid(r.0, plaid)
  {
    if matches == [] then (s, [])
    else
      var (before, merged) := MergeEach(s, plaid, matches[..|matches| - 1]);
      var last := matches[|matches| - 1];
      var (after, outcome) := MergeInto(before, plaid, last.doc, last.document);
      (after, if outcome == Merged then merged + [last.doc] else merged)
  }

  /** The last present value of a list of choices. */
  function LastChoice<T>(choices: seq<Option<T>>, default: T): (r: T)
    ensures (forall i | 0 <= i < |choices| :: choices[i].None?) ==> r == default
    ensures forall i | 0 <= i < |choices| && choices[i].Some? && (forall j | i < j < |choices| :: choices[j].None?) :: r == choices[i].value
  {
    if choices == [] then default
    else if choices[|choices| - 1].Some? then choices[|choices| - 1].value
    else LastChoice(choices[..|choices| - 1], default)
  }

  /** The first present value of a list of choices. */
  function FirstChoice<T>(choices: seq<Option<T>>, default: T): (r: T)
    ensures (forall i | 0 <= i < |choices| :: choices[i].None?) ==> r == default
    ensures forall i | 0 <= i < |choices| && choices[i].Some? && (forall j | 0 <= j < i :: choices[j].None?) :: r == choices[i].value
  {
    if choices == [] then default
    else if choices[0].Some? then choices[0].value
    else FirstChoice(choices[1..], default)
  }

  function Choice(text: string): Option<string> {
    if text == "" then None else Some(text)
  }

  /** The fields after applying the document records in order, said field by field. */
  function ChosenFields(plaid: Fields, docs: seq<Fields>): Fields {
    Fields(
      LastChoice(seq(|docs|, i requires 0 <= i < |docs| => Choice(docs[i].products)), plaid.products),
      LastChoice(seq(|docs|, i requires 0 <= i < |docs| => Choice(docs[i].notes)), plaid.notes),
      LastChoice(seq(|docs|, i requires 0 <= i < |docs| => if docs[i].recordType == FINANCIAL_DOCUMENT then None else Some(docs[i].recordType)),
                 plaid.recordType),
      LastChoice(seq(|docs|, i requires 0 <= i < |docs| => if docs[i].folder.None? then None else Some(docs[i].folder)), plaid.folder),
      if plaid.paymentMethod != "" then plaid.paymentMethod
      else FirstChoice(seq(|docs|, i requires 0 <= i < |docs| => Choice(docs[i].paymentMethod)), ""))
  }

  lemma LastChoiceAppend<T>(choices: seq<Option<T>>, next: Option<T>, default: T)
    ensures LastChoice(choices + [next], default) == if next.Some? then next.value else LastChoice(choices, default)
  {
    assert (choices + [next])[..|choices|] == choices;
  }

  lemma {:induction false} FirstChoiceAppend(choices: seq<Option<string>>, next: string)
    requires forall c | c in choices :: c.Some? ==> c.value != ""
    ensures FirstChoice(choices + [Choice(next)], "") == if FirstChoice(choices, "") != "" then FirstChoice(choices, "") else next
  {
    if choices == [] {
      assert FirstChoice([Choice(next)][1..], "") == "";
    } else if choices[0].Some? {
      assert choices[0] in choices;
    } else {
      assert (choices + [Choice(next)])[1..] == choices[1..] + [Choice(next)];
      FirstChoiceAppend(choices[1..], next);
    }
  }

  /** Appending one more document record is one more application of its fields. */
  lemma ChosenFieldsAppend(plaid: Fields, docs: seq<Fields>, doc: Fields)
    ensures ChosenFields(plaid, docs + [doc]) == ApplyDocFields(ChosenFields(plaid, docs), doc)
  {
    var more := docs + [doc];
    var products := seq(|docs|, i requires 0 <= i < |docs| => Choice(docs[i].products));
    assert seq(|more|, i requires 0 <= i < |more| => Choice(more[i].products)) == products + [Choice(doc.products)];
    LastChoiceAppend(products, Choice(doc.products), plaid.products);
    var notes := seq(|docs|, i requires 0 <= i < |docs| => Choice(docs[i].notes));
    assert seq(|more|, i requires 0 <= i < |more| => Choice(more[i].notes)) == notes + [Choice(doc.notes)];
    LastChoiceAppend(notes, Choice(doc.notes), plaid.notes);
    var types := seq(|docs|, i requires 0 <= i < |docs| => if docs[i].recordType == FINANCIAL_DOCUMENT then None else Some(docs[i].recordType));
    var nextType := if doc.recordType == FINANCIAL_DOCUMENT then None else Some(doc.recordType);
    assert seq(|more|, i requires 0 <= i < |more| => if more[i].recordType == FINANCIAL_DOCUMENT then None else Some(more[i].recordType))
        == types + [nextType];
    LastChoiceAppend(types, nextType, plaid.recordType);
    var folders := seq(|docs|, i requires 0 <= i < |docs| => if docs[i].folder.None? then None else Some(docs[i].folder));
    var nextFolder := if doc.folder.None? then None else Some(doc.folder);
    assert seq(|more|, i requires 0 <= i < |more| => if more[i].folder.None? then None else Some(more[i].folder)) == folders + [nextFolder];
    LastChoiceAppend(folders, nextFolder, plaid.folder);
    PaymentMethodAppend(plaid, docs, doc);
  }

  lemma PaymentMethodAppend(plaid: Fields, docs: seq<Fields>, doc: Fields)
    ensures ChosenFields(plaid, docs + [doc]).paymentMethod ==
            if ChosenFields(plaid, docs).paymentMethod != "" then ChosenFields(plaid, docs).paymentMethod else doc.paymentMethod
  {
    var more := docs + [doc];
    var methods := seq(|docs|, i requires 0 <= i < |docs| => Choice(docs[i].paymentMethod));
    assert seq(|more|, i requires 0 <= i < |more| => Choice(more[i].paymentMethod)) == methods + [Choice(doc.paymentMethod)];
    FirstChoiceAppend(methods, doc.paymentMethod);
  }

  /** What the ranking hands to the merges: distinct mergeable records of the table, each with one of
      its own documents if it has any. */
  predicate ProperMatches(s: State, plaid: RecordId, matches: seq<Match>) {
    && IsPlaid(s, plaid)
    && (forall i, j | 0 <= i < j < |matches| :: matches[i].doc != matches[j].doc)
    && (forall m | m in matches ::
          && m.doc in s.records && Mergeable(s.records[m.doc])
          && (m.document.Some? ==> m.document.value in DocumentsOf(s, m.doc)))
  }

  function MatchedDocs(matches: seq<Match>): seq<RecordId> {
    seq(|matches|, i requires 0 <= i < |matches| => matches[i].doc)
  }

  function MatchedFields(s: State, matches: seq<Match>): seq<Fields>
    requires forall m | m in matches :: m.doc in s.records
  {
    seq(|matches|, i requires 0 <= i < |matches| => s.records[matches[i].doc].fields)
  }

  /** The state after merging the matches, said relative to the state before. The Plaid record has the
      last qualifying products, notes, record type and folder in ranking order, so the lowest-scoring
      document wins, and the first non-empty payment method starting from its own; the matched records
      are inactive and all their documents are on the Plaid record. */
  predicate MergedFrom(s: State, after: State, plaid: RecordId, matches: seq<Match>)
    requires IsPlaid(s, plaid) && forall m | m in matches :: m.doc in s.records
  {
    && after.records.Keys == s.records.Keys && after.links.Keys == s.links.Keys
    && after.records[plaid] == s.records[plaid].(fields := ChosenFields(s.records[plaid].fields, MatchedFields(s, matches)))
    && (forall r | r in s.records && r != plaid ::
          after.records[r] == if r in MatchedDocs(matches) then s.records[r].(active := false) else s.records[r])
    && (forall x | x in s.links ::
          after.links[x] == if s.links[x].Some? && s.links[x].value in MatchedDocs(matches) then Some(plaid) else s.links[x])
  }

  lemma MatchedDocsAppend(matches: seq<Match>, last: Match)
    ensures MatchedDocs(matches + [last]) == MatchedDocs(matches) + [last.doc]
  {
  }

  lemma OneMoreMatch(s: State, before: State, plaid: RecordId, matches: seq<Match>, last: Match)
    requires Inv(before) && ProperMatches(s, plaid, matches + [last])
    requires (forall m | m in matches :: m.doc in s.records) && MergedFrom(s, before, plaid, matches)
    requires last.doc !in MatchedDocs(matches) && last.doc in s.records && Mergeable(s.records[last.doc]) && last.doc != plaid
    ensures var (after, outcome) := MergeInto(before, plaid, last.doc, last.document);
            outcome == Merged && MergedFrom(s, after, plaid, matches + [last])
  {
    hide ChosenFields, ApplyDocFields, Inv;
    var after := MergeInto(before, plaid, last.doc, last.document).0;
    DuplicateMergeNeverFires(before, plaid, last.doc, last.document);
    MatchedDocsAppend(matches, last);
    assert MatchedFields(s, matches + [last]) == MatchedFields(s, matches) + [s.records[last.doc].fields];
    ChosenFieldsAppend(s.records[plaid].fields, MatchedFields(s, matches), s.records[last.doc].fields);
  }

  lemma {:induction false} MergeEachMergesAll(s: State, plaid: RecordId, matches: seq<Match>)
    requires Inv(s) && ProperMatches(s, plaid, matches)
    ensures var (after, merged) := MergeEach(s, plaid, matches);
            Inv(after) && merged == MatchedDocs(matches) && MergedFrom(s, after, plaid, matches)
  {
    if matches == [] {
      assert MatchedFields(s, matches) == [];
    } else {
      hide MergedFrom, Inv, MergeInto;
      var shorter, last := matches[..|matches| - 1], matches[|matches| - 1];
      assert matches == shorter + [last];
      assert ProperMatches(s, plaid, shorter);
      MergeEachMergesAll(s, plaid, shorter);
      var before := MergeEach(s, plaid, shorter).0;
      MatchedDocsAppend(shorter, last);
      assert last in matches;
      OneMoreMatch(s, before, plaid, shorter, last);
      LastIsProper(s, before, plaid, shorter, last);
      MergeKeepsInv(before, plaid, last.doc, last.document);
    }
  }

  /** The last match still owns its documents after the merges before it. */
  lemma LastIsProper(s: State, before: State, plaid: RecordId, matches: seq<Match>, last: Match)
    requires ProperMatches(s, plaid, matches + [last])
    requires (forall m | m in matches :: m.doc in s.records) && MergedFrom(s, before, plaid, matches)
    requires last.doc !in MatchedDocs(matches)
    ensures ProperOp(before, MergeOp(plaid, last.doc, last.document))
  {
    hide ChosenFields;
    assert last in matches + [last];
    if last.document.Some? {
      assert last.document.value in DocumentsOf(before, last.doc);
    }
  }

  // ----- From the query to the merges -----

  predicate DistinctIds(candidates: seq<Candidate>) {
    forall i, j | 0 <= i < j < |candidates| :: candidates[i].id != candidates[j].id
  }

  predicate DistinctRanked(items: seq<Ranked>) {
    forall i, j | 0 <= i < j < |items| :: items[i].candidate.id != items[j].candidate.id
  }

  /** The candidate pool shows rows of the record table, each at most once. */
  predicate PoolOf(s: State, pool: seq<Candidate>) {
    && DistinctIds(pool)
    && forall c | c in pool :: c.id in s.records && c.active == s.records[c.id].active && c.plaid == s.records[c.id].plaidId.Some?
  }

  /** One of the documents of each record that has any, as the batch query collected them. */
  predicate DocumentsByRecord(s: State, documents: map<RecordId, DocumentId>) {
    forall r | r in documents :: documents[r] in DocumentsOf(s, r)
  }

  function MatchesOf(ranking: seq<Ranked>, documents: map<RecordId, DocumentId>): seq<Match> {
    seq(|ranking|, i requires 0 <= i < |ranking| =>
      var id := ranking[i].candidate.id;
      Match(id, if id in documents then Some(documents[id]) else None))
  }

  lemma {:induction false} EligibleDistinct(record: Candidate, pool: seq<Candidate>, wantPlaid: bool)
    requires DistinctIds(pool)
    ensures DistinctIds(EligibleIn(record, pool, wantPlaid))
  {
    if pool != [] {
      var shorter, last := pool[..|pool| - 1], pool[|pool| - 1];
      EligibleDistinct(record, shorter, wantPlaid);
      forall c | c in EligibleIn(record, shorter, wantPlaid)
        ensures c.id != last.id
      {
        assert c in shorter;
      }
    }
  }

  lemma {:induction false} AboveThresholdDistinct(plaid: Candidate, candidates: seq<Candidate>, text: Text)
    requires DistinctIds(candidates)
    ensures DistinctRanked(AboveThreshold(plaid, candidates, text))
    ensures forall item | item in AboveThreshold(plaid, candidates, text) :: item.candidate in candidates
  {
    if candidates != [] {
      var shorter, last := candidates[..|candidates| - 1], candidates[|candidates| - 1];
      AboveThresholdDistinct(plaid, shorter, text);
      assert candidates == shorter + [last];
      forall item | item in AboveThreshold(plaid, shorter, text)
        ensures item.candidate.id != last.id
      {
        assert item.candidate in shorter;
      }
    }
  }

  lemma {:induction false} InsertDistinct(ranking: seq<Ranked>, item: Ranked)
    requires DistinctRanked(ranking) && forall r | r in ranking :: r.candidate.id != item.candidate.id
    ensures DistinctRanked(Insert(ranking, item))
    ensures forall r :: r in Insert(ranking, item) <==> r in ranking || r == item
  {
    if ranking != [] && ranking[|ranking| - 1].score < item.score {
      var shorter, last := ranking[..|ranking| - 1], ranking[|ranking| - 1];
      InsertDistinct(shorter, item);
      assert ranking == shorter + [last];
      forall r | r in Insert(shorter, item)
        ensures r.candidate.id != last.candidate.id
      {
        assert last in ranking;
      }
    }
  }

  lemma {:induction false} SortDistinct(items: seq<Ranked>)
    requires DistinctRanked(items)
    ensures DistinctRanked(SortDescending(items))
    ensures forall r :: r in SortDescending(items) <==> r in items
  {
    if items != [] {
      var shorter, last := items[..|items| - 1], items[|items| - 1];
      SortDistinct(shorter);
      assert items == shorter + [last];
      InsertDistinct(SortDescending(shorter), last);
    }
  }

  /** The ranked matches of a Plaid record are always fit to be merged. */
  lemma RankedMatchesAreProper(s: State, plaid: Candidate, pool: seq<Candidate>, text: Text, documents: map<RecordId, DocumentId>)
    requires PoolOf(s, pool) && IsPlaid(s, plaid.id) && DocumentsByRecord(s, documents)
    ensures ProperMatches(s, plaid.id, MatchesOf(SortDescending(AboveThreshold(plaid, Candidates(plaid, pool, false), text)), documents))
  {
    EligibleDistinct(plaid, pool, false);
    var candidates := Candidates(plaid, pool, false);
    AboveThresholdDistinct(plaid, candidates, text);
    SortDistinct(AboveThreshold(plaid, candidates, text));
    var ranking := SortDescending(AboveThreshold(plaid, candidates, text));
    forall m | m in MatchesOf(ranking, documents)
      ensures m.doc in s.records && Mergeable(s.records[m.doc])
      ensures m.document.Some? ==> m.document.value in DocumentsOf(s, m.doc)
    {
      var i :| 0 <= i < |ranking| && m == MatchesOf(ranking, documents)[i];
      assert ranking[i] in ranking;
      assert ranking[i].candidate in candidates;
    }
  }

  /** End to end over any pool: every document record scoring at least 55 against the Plaid record is
      merged into it, best first, with the fields, flags and links this leaves. */
  lemma AutoMatchMergesEveryMatch(s: State, plaid: Candidate, pool: seq<Candidate>, text: Text, documents: map<RecordId, DocumentId>)
    requires Inv(s) && PoolOf(s, pool) && IsPlaid(s, plaid.id) && DocumentsByRecord(s, documents)
    ensures var ranking := SortDescending(AboveThreshold(plaid, Candidates(plaid, pool, false), text));
            var matches := MatchesOf(ranking, documents);
            var (after, merged) := MergeEach(s, plaid.id, matches);
            && ProperMatches(s, plaid.id, matches) && Inv(after) && MergedFrom(s, after, plaid.id, matches)
            && |merged| == |ranking| && (forall i | 0 <= i < |ranking| :: merged[i] == ranking[i].candidate.id)
  {
    RankedMatchesAreProper(s, plaid, pool, text, documents);
    var ranking := SortDescending(AboveThreshold(plaid, Candidates(plaid, pool, false), text));
    MergeEachMergesAll(s, plaid.id, MatchesOf(ranking, documents));
  }
}
