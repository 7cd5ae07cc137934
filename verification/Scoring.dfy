/** What the match score measures, and which records the automatic matches can reach. */
module Scoring {
  import opened Basics
  import opened Merge
  import opened Matching

  // ----- The four parts of the score -----

  function OnlyBalance(c: Candidate): Candidate {
    c.(date := None, merchant := "", title := "")
  }

  function OnlyDate(c: Candidate): Candidate {
    c.(balance := None, merchant := "", title := "")
  }

  function OnlyMerchant(c: Candidate): Candidate {
    c.(balance := None, date := None, title := "")
  }

  function OnlyTitle(c: Candidate): Candidate {
    c.(balance := None, date := None, merchant := "")
  }

  /** Balances, dates, merchants and titles are scored on their own. */
  lemma ScoreAddsUp(a: Candidate, b: Candidate, text: Text)
    ensures Score(a, b, text)
         == Score(OnlyBalance(a), OnlyBalance(b), text) + Score(OnlyDate(a), OnlyDate(b), text)
            + Score(OnlyMerchant(a), OnlyMerchant(b), text) + Score(OnlyTitle(a), OnlyTitle(b), text)
  {
  }

  /** Both balances are known and differ by no more than the given amount. */
  predicate BalancesWithin(a: Candidate, b: Candidate, difference: real) {
    a.balance.Some? && b.balance.Some? && a.balance.value - difference <= b.balance.value <= a.balance.value + difference
  }

  predicate DatesWithin(a: Candidate, b: Candidate, days: nat) {
    a.date.Some? && b.date.Some? && a.date.value - days <= b.date.value <= a.date.value + days
  }

  /** Equal balances are worth 40, up to one unit apart 30, up to three 15. */
  lemma BalanceTiers(a: Candidate, b: Candidate, text: Text)
    ensures Score(OnlyBalance(a), OnlyBalance(b), text)
         == if BalancesWithin(a, b, 0.0) then 40 else if BalancesWithin(a, b, 1.0) then 30 else if BalancesWithin(a, b, 3.0) then 15 else 0
  {
  }

  /** The same day is worth 30, the next 20, up to three days apart 10. */
  lemma DateTiers(a: Candidate, b: Candidate, text: Text)
    ensures Score(OnlyDate(a), OnlyDate(b), text)
         == if DatesWithin(a, b, 0) then 30 else if DatesWithin(a, b, 1) then 20 else if DatesWithin(a, b, 3) then 10 else 0
  {
  }

  predicate Alike(a: string, b: string, text: Text, least: real) {
    a != "" && b != "" && Similarity(a, b, text) >= least
  }

  lemma MerchantTiers(a: Candidate, b: Candidate, text: Text)
    ensures Score(OnlyMerchant(a), OnlyMerchant(b), text)
         == if Alike(a.merchant, b.merchant, text, 0.9) then 30 else if Alike(a.merchant, b.merchant, text, 0.7) then 20
            else if Alike(a.merchant, b.merchant, text, 0.5) then 10 else if Alike(a.merchant, b.merchant, text, 0.3) then 5 else 0
  {
  }

  lemma TitleTiers(a: Candidate, b: Candidate, text: Text)
    ensures Score(OnlyTitle(a), OnlyTitle(b), text)
         == if Alike(a.title, b.title, text, 0.9) then 20 else if Alike(a.title, b.title, text, 0.7) then 15
            else if Alike(a.title, b.title, text, 0.5) then 8 else if Alike(a.title, b.title, text, 0.3) then 3 else 0
  {
  }

  /** Texts of fewer than three characters are alike only when equal, and a text is not like one of
      less than two fifths of its length; otherwise the ratio decides. Cases and outer blanks never count. */
  lemma SimilarityCases(a: string, b: string, text: Text)
    requires a != "" && b != ""
    ensures var x, y := text.normalize(a), text.normalize(b);
            && (|x| < 3 || |y| < 3 ==> Similarity(a, b, text) == if x == y then 1.0 else 0.0)
            && (3 <= |x| && 3 <= |y| && (5 * |x| < 2 * |y| || 5 * |y| < 2 * |x|) ==> Similarity(a, b, text) == 0.0)
            && (3 <= |x| && 3 <= |y| && 5 * |x| >= 2 * |y| && 5 * |y| >= 2 * |x| ==> Similarity(a, b, text) == text.ratio(x, y))
  {
    var x, y := text.normalize(a), text.normalize(b);
    if 3 <= |x| && 3 <= |y| {
      LengthGap(|x|, |y|);
    }
  }

  lemma LengthGap(x: nat, y: nat)
    requires x > 0 && y > 0
    ensures Distance(x, y) as real / Max(x, y) as real > 0.6 <==> 5 * x < 2 * y || 5 * y < 2 * x
  {
    var gap, longest := Distance(x, y) as real, Max(x, y) as real;
    assert gap / longest > 0.6 <==> gap > 0.6 * longest by {
      QuotientExceeds(gap, longest, 0.6);
    }
  }

  lemma QuotientExceeds(a: real, b: real, bound: real)
    requires b > 0.0
    ensures a / b > bound <==> a > bound * b
  {
    assert (a / b) * b == a;
    if a / b > bound {
      assert (a / b - bound) * b > 0.0;
    } else {
      assert (bound - a / b) * b >= 0.0;
    }
  }

  // ----- Order -----

  /** As far as it is known, b is at least as close to a as c is. */
  predicate NoFarther(a: Candidate, b: Candidate, c: Candidate, text: Text) {
    && (a.balance.Some? && c.balance.Some? ==>
          b.balance.Some? && Abs(a.balance.value - b.balance.value) <= Abs(a.balance.value - c.balance.value))
    && (a.date.Some? && c.date.Some? ==> b.date.Some? && Distance(a.date.value, b.date.value) <= Distance(a.date.value, c.date.value))
    && (a.merchant != "" && c.merchant != "" ==>
          b.merchant != "" && Similarity(a.merchant, b.merchant, text) >= Similarity(a.merchant, c.merchant, text))
    && (a.title != "" && c.title != "" ==>
          b.title != "" && Similarity(a.title, b.title, text) >= Similarity(a.title, c.title, text))
  }

  /** Moving a balance, date, merchant or title closer never lowers the score. */
  lemma CloserNeverScoresLower(a: Candidate, b: Candidate, c: Candidate, text: Text)
    requires NoFarther(a, b, c, text)
    ensures Score(a, b, text) >= Score(a, c, text)
  {
    hide Similarity;
  }

  /** Equal balances on the same day suffice for a merge, whatever the texts. */
  lemma SameDaySameBalanceMatches(a: Candidate, b: Candidate, text: Text)
    requires BalancesWithin(a, b, 0.0) && DatesWithin(a, b, 0)
    ensures Score(a, b, text) >= 70 > MERGE_SCORE_THRESHOLD
  {
    hide Similarity;
  }

  /** Different balances three or more days apart do not, unless the merchants are alike to nine tenths
      and the titles to seven. */
  lemma FarApartNeedsTexts(a: Candidate, b: Candidate, text: Text)
    requires !BalancesWithin(a, b, 3.0) && !DatesWithin(a, b, 2)
    requires !Alike(a.merchant, b.merchant, text, 0.9) || !Alike(a.title, b.title, text, 0.7)
    ensures Score(a, b, text) < MERGE_SCORE_THRESHOLD == 55
  {
    hide Similarity;
  }

  predicate ScoresBelow(record: Candidate, candidates: seq<Candidate>, text: Text, n: nat, bound: nat)
    requires n <= |candidates|
  {
    forall j | 0 <= j < n :: Score(record, candidates[j], text) < bound
  }

  /** The match of a record: none if all score below 55; the first that scores 95 if there is one; else
      the first among the highest. */
  lemma BestMatchRule(record: Candidate, candidates: seq<Candidate>, text: Text, best: Option<nat>)
    requires IsBest(record, candidates, text, best)
    ensures best.None? <==> ScoresBelow(record, candidates, text, |candidates|, 55)
    ensures best.Some? ==>
              && best.value < |candidates|
              && ScoresBelow(record, candidates, text, best.value, Score(record, candidates[best.value], text))
              && (ScoresBelow(record, candidates, text, |candidates|, 95) ==>
                    ScoresBelow(record, candidates, text, |candidates|, Score(record, candidates[best.value], text) + 1))
              && (!ScoresBelow(record, candidates, text, |candidates|, 95) ==>
                    Score(record, candidates[best.value], text) >= 95 && ScoresBelow(record, candidates, text, best.value, 95))
  {
    hide Score;
  }

  // ----- Which records are compared -----

  /** The query row is an active record of the same user and of the wanted kind, another one than the
      record itself, and within fourteen days of it if the record has a date. */
  predicate Comparable(record: Candidate, c: Candidate, wantPlaid: bool) {
    && c.user == record.user && c.id != record.id && c.active && c.plaid == wantPlaid
    && (record.date.None? || DatesWithin(record, c, 14))
  }

  lemma {:induction false} EligibleInIsComplete(record: Candidate, pool: seq<Candidate>, wantPlaid: bool, c: Candidate)
    ensures c in EligibleIn(record, pool, wantPlaid) <==> c in pool && Comparable(record, c, wantPlaid)
    ensures |EligibleIn(record, pool, wantPlaid)| <= |pool|
    decreases |pool|
  {
    if pool != [] {
      var shorter, last := pool[..|pool| - 1], pool[|pool| - 1];
      EligibleInIsComplete(record, shorter, wantPlaid, c);
      assert pool == shorter + [last];
      assert Eligible(record, last, wantPlaid) <==> Comparable(record, last, wantPlaid);
    }
  }

  /** Within the limit of the query the candidates are exactly the comparable rows; beyond it they are
      two thousand of them. */
  lemma CandidatesExactly(record: Candidate, pool: seq<Candidate>, wantPlaid: bool, c: Candidate)
    ensures c in Candidates(record, pool, wantPlaid) ==> c in pool && Comparable(record, c, wantPlaid)
    ensures |EligibleIn(record, pool, wantPlaid)| <= 2000 && c in pool && Comparable(record, c, wantPlaid) ==>
              c in Candidates(record, pool, wantPlaid)
    ensures |EligibleIn(record, pool, wantPlaid)| > 2000 ==> |Candidates(record, pool, wantPlaid)| == 2000
  {
    EligibleInIsComplete(record, pool, wantPlaid, c);
  }

  /** An automatic merge into a Plaid record takes a comparable document record of its user that scores
      at least 55, and every such record is taken while the query is within its limit. */
  lemma RankedMatchesExactly(plaid: Candidate, pool: seq<Candidate>, text: Text, item: Ranked)
    ensures var ranking := SortDescending(AboveThreshold(plaid, Candidates(plaid, pool, false), text));
            && (item in ranking ==>
                  && item.candidate in pool && Comparable(plaid, item.candidate, false)
                  && item.score == Score(plaid, item.candidate, text) >= 55)
            && (|pool| <= 2000 && item.candidate in pool && Comparable(plaid, item.candidate, false) &&
                item.score == Score(plaid, item.candidate, text) >= 55 ==>
                  item in ranking)
  {
    var candidates := Candidates(plaid, pool, false);
    var selected := AboveThreshold(plaid, candidates, text);
    CandidatesExactly(plaid, pool, false, item.candidate);
    EligibleInIsComplete(plaid, pool, false, item.candidate);
    AboveThresholdSelects(plaid, candidates, text, item);
    SortDescendingRanks(selected, 0);
    assert item in SortDescending(selected) <==> item in multiset(SortDescending(selected));
    assert item in selected <==> item in multiset(selected);
  }

  /** So automatic matching never joins records of two users, in either direction. */
  lemma MatchesStayWithUser(record: Candidate, pool: seq<Candidate>, text: Text, documents: map<RecordId, DocumentId>)
    ensures forall m | m in MatchesOf(SortDescending(AboveThreshold(record, Candidates(record, pool, false), text)), documents) ::
              exists c :: c in pool && c.id == m.doc && c.user == record.user
    ensures forall best: nat | IsBest(record, Candidates(record, pool, true), text, Some(best)) ::
              Candidates(record, pool, true)[best].user == record.user
  {
    var ranking := SortDescending(AboveThreshold(record, Candidates(record, pool, false), text));
    forall m | m in MatchesOf(ranking, documents)
      ensures exists c :: c in pool && c.id == m.doc && c.user == record.user
    {
      var k :| 0 <= k < |ranking| && MatchesOf(ranking, documents)[k] == m;
      RankedMatchesExactly(record, pool, text, ranking[k]);
      assert ranking[k] in ranking;
    }
    forall best: nat | IsBest(record, Candidates(record, pool, true), text, Some(best))
      ensures Candidates(record, pool, true)[best].user == record.user
    {
      CandidatesExactly(record, pool, true, Candidates(record, pool, true)[best]);
    }
  }
}
