/** Ranking metrics over exact reals.

    The gain of position i, 1/log2(i+2) in the program, is any positive, strictly decreasing
    function: the bounds on NDCG are a rearrangement argument and need no more. Precision,
    recall, reciprocal rank and average precision are fractions of counts. */
module Eval {
  import opened Identifiers

  type Gain = nat -> real

  ghost predicate Decreasing(gain: Gain) {
    (forall i: nat :: gain(i) > 0.0) && forall i: nat, j: nat :: i < j ==> gain(i) > gain(j)
  }

  // ----- sums -----

  function IdSet(ids: seq<string>): set<string> { set id | id in ids }

  function Marks(retrieved: seq<string>, relevant: set<string>): seq<bool> {
    seq(|retrieved|, i requires 0 <= i < |retrieved| => retrieved[i] in relevant)
  }

  function Count(marks: seq<bool>): nat {
    if marks == [] then 0 else Count(marks[..|marks| - 1]) + if marks[|marks| - 1] then 1 else 0
  }

  function Gained(marks: seq<bool>, gain: Gain): real {
    if marks == [] then 0.0
    else Gained(marks[..|marks| - 1], gain) + if marks[|marks| - 1] then gain(|marks| - 1) else 0.0
  }

  function Ideal(m: nat, gain: Gain): real {
    if m == 0 then 0.0 else Ideal(m - 1, gain) + gain(m - 1)
  }

  // Sum of the precisions at the positions of the hits.
  function PrecisionSum(marks: seq<bool>): real {
    if marks == [] then 0.0
    else PrecisionSum(marks[..|marks| - 1])
         + if marks[|marks| - 1] then Count(marks) as real / |marks| as real else 0.0
  }

  ghost predicate AllMarked(marks: seq<bool>, m: nat) {
    m <= |marks| && forall i :: 0 <= i < m ==> marks[i]
  }

  lemma {:induction false} CountBound(marks: seq<bool>)
    ensures Count(marks) <= |marks|
    ensures Count(marks) == |marks| <==> AllMarked(marks, |marks|)
  {
    if marks != [] {
      CountBound(marks[..|marks| - 1]);
    }
  }

  lemma {:induction false} AllMarkedCount(marks: seq<bool>, m: nat)
    ensures AllMarked(marks, m) ==> Count(marks) >= m
    decreases |marks|
  {
    CountBound(marks);
    if |marks| > m {
      AllMarkedCount(marks[..|marks| - 1], m);
    }
  }

  // Rearrangement: with decreasing gains, c hits gain at most what they gain at the first
  // c positions, and that much only there.
  lemma {:induction false} Rearrangement(marks: seq<bool>, gain: Gain)
    requires Decreasing(gain)
    ensures 0.0 <= Gained(marks, gain) <= Ideal(Count(marks), gain)
    ensures Gained(marks, gain) == Ideal(Count(marks), gain) <==> AllMarked(marks, Count(marks))
  {
    if marks != [] {
      var n := |marks| - 1;
      Rearrangement(marks[..n], gain);
      CountBound(marks[..n]);
      if marks[n] { HitAtEnd(marks, gain); } else { MissAtEnd(marks); }
    }
  }

  // A hit at the end gains less than it would further up, unless all before it are hits.
  lemma HitAtEnd(marks: seq<bool>, gain: Gain)
    requires Decreasing(gain) && marks != [] && marks[|marks| - 1]
    ensures var n, c := |marks| - 1, Count(marks[..|marks| - 1]);
      && Count(marks) == c + 1 && gain(n) <= gain(c) && (gain(n) == gain(c) <==> c == n)
      && (AllMarked(marks, c + 1) <==> c == n && AllMarked(marks[..n], c))
  {
    CountBound(marks[..|marks| - 1]);
    GainsFall(gain, Count(marks[..|marks| - 1]), |marks| - 1);
    HitsInFront(marks);
  }

  lemma GainsFall(gain: Gain, c: nat, n: nat)
    requires Decreasing(gain) && c <= n
    ensures gain(n) <= gain(c) && (gain(n) == gain(c) <==> c == n)
  {
  }

  lemma HitsInFront(marks: seq<bool>)
    requires marks != [] && marks[|marks| - 1]
    ensures var n, c := |marks| - 1, Count(marks[..|marks| - 1]);
      AllMarked(marks, c + 1) <==> c == n && AllMarked(marks[..n], c)
  {
    var init := marks[..|marks| - 1];
    CountBound(init);
    AllMarkedCount(init, Count(init) + 1);
  }

  lemma MissAtEnd(marks: seq<bool>)
    requires marks != [] && !marks[|marks| - 1]
    ensures var c := Count(marks[..|marks| - 1]);
      Count(marks) == c && (AllMarked(marks, c) <==> AllMarked(marks[..|marks| - 1], c))
  {
    CountBound(marks[..|marks| - 1]);
  }

  lemma {:induction false} IdealGrows(m: nat, n: nat, gain: Gain)
    requires Decreasing(gain) && m <= n
    ensures Ideal(m, gain) <= Ideal(n, gain)
    ensures Ideal(m, gain) == Ideal(n, gain) <==> m == n
    ensures Ideal(m, gain) >= 0.0
    decreases n
  {
    if m < n {
      IdealGrows(m, n - 1, gain);
    } else if m > 0 {
      IdealGrows(m - 1, m - 1, gain);
    }
  }

  // The hits of a ranking without repetition are distinct relevant ids.
  lemma {:induction false} HitsAreRelevant(retrieved: seq<string>, relevant: set<string>)
    requires Distinct(retrieved)
    ensures Count(Marks(retrieved, relevant)) <= |relevant|
    decreases |retrieved|
  {
    if retrieved != [] {
      var n := |retrieved| - 1;
      var last := retrieved[n];
      var marks := Marks(retrieved, relevant);
      assert marks[..n] == Marks(retrieved[..n], relevant);
      if marks[n] {
        HitsAreRelevant(retrieved[..n], relevant - {last});
        assert Marks(retrieved[..n], relevant - {last}) == Marks(retrieved[..n], relevant);
        assert |relevant - {last}| == |relevant| - 1;
      } else {
        HitsAreRelevant(retrieved[..n], relevant);
      }
    }
  }

  // ----- NDCG -----

  function Min(a: nat, b: nat): nat { if a < b then a else b }

  function Ndcg(retrieved: seq<string>, relevant: set<string>, k: nat, gain: Gain): real {
    if retrieved == [] || relevant == {} then 0.0
    else
      var idcg := Ideal(Min(|relevant|, k), gain);
      if idcg == 0.0 then 0.0
      else Gained(Marks(retrieved[..Min(|retrieved|, k)], relevant), gain) / idcg
  }

  method NdcgAtK(retrieved: seq<string>, relevant: set<string>, k: nat, gain: Gain) returns (ndcg: real)
    ensures ndcg == Ndcg(retrieved, relevant, k, gain)
  {
    if retrieved == [] || relevant == {} { return 0.0; }
    var dcg := 0.0;
    var index := 0;
    while index < |retrieved| && index < k
      invariant 0 <= index <= Min(|retrieved|, k)
      invariant dcg == Gained(Marks(retrieved[..index], relevant), gain)
    {
      var marks := Marks(retrieved[..index + 1], relevant);
      assert marks[..index] == Marks(retrieved[..index], relevant);
      if retrieved[index] in relevant {
        dcg := dcg + gain(index);
      }
      index := index + 1;
    }
    var relevantCount := |relevant|;
    if relevantCount > k { relevantCount := k; }
    var idcg := 0.0;
    for i := 0 to relevantCount
      invariant idcg == Ideal(i, gain)
    {
      idcg := idcg + gain(i);
    }
    if idcg == 0.0 { return 0.0; }
    return dcg / idcg;
  }

  // The ideal ranking, as far as the cutoff lets one see.
  ghost predicate IdealRanking(retrieved: seq<string>, relevant: set<string>, m: nat) {
    0 < m <= |retrieved| && forall i :: 0 <= i < m ==> retrieved[i] in relevant
  }

  lemma NdcgBounds(retrieved: seq<string>, relevant: set<string>, k: nat, gain: Gain)
    requires Distinct(retrieved) && Decreasing(gain)
    ensures 0.0 <= Ndcg(retrieved, relevant, k, gain) <= 1.0
    ensures Ndcg(retrieved, relevant, k, gain) == 1.0 <==> IdealRanking(retrieved, relevant, Min(|relevant|, k))
  {
    var m := Min(|relevant|, k);
    var head := retrieved[..Min(|retrieved|, k)];
    var marks := Marks(head, relevant);
    var c := Count(marks);
    HitsAreRelevant(head, relevant);
    CountBound(marks);
    Rearrangement(marks, gain);
    IdealGrows(0, m, gain);
    IdealGrows(c, m, gain);
    if m > 0 && retrieved != [] {
      var d, i := Gained(marks, gain), Ideal(m, gain);
      QuotientBounds(d, i);
      AllMarkedCount(marks, m);
      assert forall i :: 0 <= i < |head| ==> marks[i] == (retrieved[i] in relevant);
      assert IdealRanking(retrieved, relevant, m) <==> AllMarked(marks, m);
      assert d == i <==> c == m && AllMarked(marks, m);
    } else {
      assert relevant == {} || k == 0 || retrieved == [];
    }
  }

  lemma QuotientBounds(d: real, i: real)
    requires 0.0 <= d <= i && i > 0.0
    ensures 0.0 <= d / i <= 1.0 && (d / i == 1.0 <==> d == i)
  {
    var q := d / i;
    assert q * i == d;
  }

  // ----- the other metrics -----

  datatype Score = Score(precision: real, recall: real, mrr: real, ndcg: real, ap: real, hits: nat, rankFirst: nat)

  // Position of the first hit, counted from one; zero without a hit.
  function FirstHit(marks: seq<bool>): nat {
    if marks == [] then 0
    else
      var before := FirstHit(marks[..|marks| - 1]);
      if before > 0 then before else if marks[|marks| - 1] then |marks| else 0
  }

  // The fraction, and zero where there is nothing to divide by.
  function Over(p: real, n: nat): real { if n == 0 then 0.0 else p / n as real }

  lemma OverTimes(p: real, n: nat)
    ensures if n == 0 then Over(p, n) == 0.0 else Over(p, n) * n as real == p
  {
  }

  function HitCount(retrieved: seq<string>, relevantIds: seq<string>): nat {
    Count(Marks(retrieved, IdSet(relevantIds)))
  }

  function FirstRank(retrieved: seq<string>, relevantIds: seq<string>): nat {
    FirstHit(Marks(retrieved, IdSet(relevantIds)))
  }

  function Precision(retrieved: seq<string>, relevantIds: seq<string>): real {
    Over(HitCount(retrieved, relevantIds) as real, |retrieved|)
  }

  function Recall(retrieved: seq<string>, relevantIds: seq<string>): real {
    Over(HitCount(retrieved, relevantIds) as real, |relevantIds|)
  }

  function Mrr(retrieved: seq<string>, relevantIds: seq<string>): real {
    Over(1.0, FirstRank(retrieved, relevantIds))
  }

  function Ap(retrieved: seq<string>, relevantIds: seq<string>, limit: nat): real {
    if HitCount(retrieved, relevantIds) == 0 then 0.0
    else Over(PrecisionSum(Marks(retrieved, IdSet(relevantIds))), Min(|relevantIds|, limit))
  }

  function ScoreOf(retrieved: seq<string>, relevantIds: seq<string>, limit: nat, gain: Gain): Score {
    Score(Precision(retrieved, relevantIds), Recall(retrieved, relevantIds), Mrr(retrieved, relevantIds),
      Ndcg(retrieved, IdSet(relevantIds), limit, gain), Ap(retrieved, relevantIds, limit),
      HitCount(retrieved, relevantIds), FirstRank(retrieved, relevantIds))
  }

  method ScoreQuery(retrieved: seq<string>, relevantIds: seq<string>, limit: nat, gain: Gain) returns (s: Score)
    ensures s == ScoreOf(retrieved, relevantIds, limit, gain)
  {
    var relevant := IdSet(relevantIds);
    var n := |retrieved|;
    ghost var marks := Marks(retrieved, relevant);
    var hits := 0;
    for i := 0 to n
      invariant hits == Count(marks[..i])
    {
      assert marks[..i + 1][..i] == marks[..i];
      if retrieved[i] in relevant { hits := hits + 1; }
    }
    assert marks[..n] == marks;
    var precision := if retrieved == [] then 0.0 else hits as real / n as real;
    var recall := if relevantIds == [] then 0.0 else hits as real / |relevantIds| as real;
    var mrr, rankFirst := 0.0, 0;
    var index := 0;
    while index < n && rankFirst == 0
      invariant 0 <= index <= n
      invariant rankFirst == FirstHit(marks[..index])
      invariant mrr == if rankFirst == 0 then 0.0 else 1.0 / rankFirst as real
    {
      assert marks[..index + 1][..index] == marks[..index];
      if retrieved[index] in relevant {
        mrr := 1.0 / (index + 1) as real;
        rankFirst := index + 1;
      }
      index := index + 1;
    }
    FirstHitStays(marks, index);
    var sumPrec, seen := 0.0, 0;
    for i := 0 to n
      invariant seen == Count(marks[..i]) && sumPrec == PrecisionSum(marks[..i])
    {
      assert marks[..i + 1][..i] == marks[..i];
      if retrieved[i] in relevant {
        seen := seen + 1;
        sumPrec := sumPrec + seen as real / (i + 1) as real;
      }
    }
    var denom := |relevantIds|;
    if denom > limit { denom := limit; }
    var ap := if denom > 0 && hits > 0 then sumPrec / denom as real else 0.0;
    var ndcg := NdcgAtK(retrieved, relevant, limit, gain);
    return Score(precision, recall, mrr, ndcg, ap, hits, rankFirst);
  }

  lemma {:induction false} FirstHitStays(marks: seq<bool>, index: nat)
    requires index <= |marks| && (index == |marks| || FirstHit(marks[..index]) > 0)
    ensures FirstHit(marks) == FirstHit(marks[..index])
    decreases |marks|
  {
    if index == |marks| {
      assert marks[..index] == marks;
    } else {
      assert marks[..|marks| - 1][..index] == marks[..index];
      FirstHitStays(marks[..|marks| - 1], index);
    }
  }

  // Each hit adds at most one, and one only while everything so far was a hit.
  lemma {:induction false} PrecisionSumBound(marks: seq<bool>)
    ensures 0.0 <= PrecisionSum(marks) <= Count(marks) as real
    ensures PrecisionSum(marks) == Count(marks) as real <==> AllMarked(marks, Count(marks))
  {
    CountBound(marks);
    if marks != [] {
      var n := |marks| - 1;
      var init := marks[..n];
      PrecisionSumBound(init);
      CountBound(init);
      QuotientBounds(Count(marks) as real, |marks| as real);
      var c := Count(init);
      if marks[n] {
        AllMarkedCount(init, c + 1);
        assert AllMarked(marks, c + 1) <==> c == n && AllMarked(init, c);
      } else {
        assert AllMarked(marks, c) <==> AllMarked(init, c);
      }
    }
  }

  lemma {:induction false} FirstHitBound(marks: seq<bool>)
    ensures FirstHit(marks) <= |marks| && (FirstHit(marks) > 0 <==> Count(marks) > 0)
    ensures FirstHit(marks) > 0 ==> marks[FirstHit(marks) - 1] && forall i :: 0 <= i < FirstHit(marks) - 1 ==> !marks[i]
    ensures FirstHit(marks) == 0 ==> forall i :: 0 <= i < |marks| ==> !marks[i]
  {
    if marks != [] { FirstHitBound(marks[..|marks| - 1]); }
  }

  lemma {:induction false} IdSetSize(ids: seq<string>)
    ensures |IdSet(ids)| <= |ids|
  {
    if ids != [] {
      IdSetSize(ids[1..]);
      assert ids == [ids[0]] + ids[1..];
      assert (set id | id in ids) == {ids[0]} + set id | id in ids[1..];
    }
  }

  lemma HitCounts(retrieved: seq<string>, relevantIds: seq<string>, relevant: set<string>)
    requires Distinct(retrieved) && relevant == IdSet(relevantIds)
    ensures var hits := Count(Marks(retrieved, relevant));
      hits <= |retrieved| && hits <= |relevantIds|
      && (hits == |retrieved| <==> forall i :: 0 <= i < |retrieved| ==> retrieved[i] in relevant)
  {
    HitsAreRelevant(retrieved, relevant);
    IdSetSize(relevantIds);
    var marks := Marks(retrieved, relevant);
    CountBound(marks);
    assert forall i :: 0 <= i < |retrieved| ==> marks[i] == (retrieved[i] in relevant);
  }

  lemma Ratio(h: nat, n: nat)
    requires h <= n && n > 0
    ensures 0.0 <= h as real / n as real <= 1.0 && (h as real / n as real == 1.0 <==> h == n)
  {
    QuotientBounds(h as real, n as real);
  }

  lemma AveragePrecisionBounds(marks: seq<bool>, denom: nat)
    requires denom > 0 && Count(marks) <= denom
    ensures 0.0 <= PrecisionSum(marks) / denom as real <= 1.0
    ensures PrecisionSum(marks) / denom as real == 1.0 <==> AllMarked(marks, denom)
  {
    PrecisionSumBound(marks);
    QuotientBounds(PrecisionSum(marks), denom as real);
    AllMarkedCount(marks, denom);
  }

  lemma PrecisionRecall(retrieved: seq<string>, relevantIds: seq<string>, limit: nat, gain: Gain)
    requires Distinct(retrieved)
    ensures var s := ScoreOf(retrieved, relevantIds, limit, gain);
      && 0.0 <= s.precision <= 1.0 && 0.0 <= s.recall <= 1.0
      && (s.precision == 1.0 <==> retrieved != [] && forall i :: 0 <= i < |retrieved| ==> retrieved[i] in relevantIds)
  {
    var relevant := IdSet(relevantIds);
    var hits := Count(Marks(retrieved, relevant));
    HitCounts(retrieved, relevantIds, relevant);
    if retrieved != [] { Ratio(hits, |retrieved|); }
    if relevantIds != [] { Ratio(hits, |relevantIds|); }
  }

  lemma ReciprocalRank(retrieved: seq<string>, relevantIds: seq<string>, limit: nat, gain: Gain)
    ensures var s := ScoreOf(retrieved, relevantIds, limit, gain);
      0.0 <= s.mrr <= 1.0 && (s.mrr == 1.0 <==> retrieved != [] && retrieved[0] in relevantIds)
  {
    var marks := Marks(retrieved, IdSet(relevantIds));
    FirstHitBound(marks);
    if FirstHit(marks) > 0 { Ratio(1, FirstHit(marks)); }
    assert retrieved != [] ==> marks[0] == (retrieved[0] in relevantIds);
  }

  // A ranking of this length cannot have more hits than average precision divides by.
  predicate HitsFit(results: nat, relevant: nat, limit: nat) {
    limit == 0 || results <= limit || relevant <= limit
  }

  lemma AveragePrecision(retrieved: seq<string>, relevantIds: seq<string>, limit: nat, gain: Gain)
    requires Distinct(retrieved) && HitsFit(|retrieved|, |relevantIds|, limit)
    ensures var s := ScoreOf(retrieved, relevantIds, limit, gain);
      0.0 <= s.ap <= 1.0
      && (s.ap == 1.0 <==> IdealRanking(retrieved, IdSet(relevantIds), Min(|relevantIds|, limit)))
  {
    var relevant := IdSet(relevantIds);
    var marks := Marks(retrieved, relevant);
    var denom := Min(|relevantIds|, limit);
    HitCounts(retrieved, relevantIds, relevant);
    AllMarkedCount(marks, denom);
    MarkedIsIdeal(retrieved, relevant, denom);
    if denom > 0 {
      AveragePrecisionBounds(marks, denom);
    }
  }

  lemma MarkedIsIdeal(retrieved: seq<string>, relevant: set<string>, m: nat)
    ensures IdealRanking(retrieved, relevant, m) <==> m > 0 && AllMarked(Marks(retrieved, relevant), m)
  {
    var marks := Marks(retrieved, relevant);
    assert forall i :: 0 <= i < |retrieved| ==> marks[i] == (retrieved[i] in relevant);
  }

  // Without repetition every metric but average precision lies in [0,1], and that one does
  // where the hits fit; precision is one exactly for all hits, reciprocal rank exactly for a
  // hit in front, and average precision exactly for hits on all of the first
  // min(relevant, limit) positions.
  lemma ScoreBounds(retrieved: seq<string>, relevantIds: seq<string>, limit: nat, gain: Gain)
    requires Distinct(retrieved) && Decreasing(gain)
    ensures var s := ScoreOf(retrieved, relevantIds, limit, gain);
      && 0.0 <= s.precision <= 1.0 && 0.0 <= s.recall <= 1.0 && 0.0 <= s.mrr <= 1.0 && 0.0 <= s.ndcg <= 1.0
      && (s.precision == 1.0 <==> retrieved != [] && forall i :: 0 <= i < |retrieved| ==> retrieved[i] in relevantIds)
      && (s.mrr == 1.0 <==> retrieved != [] && retrieved[0] in relevantIds)
    ensures var s := ScoreOf(retrieved, relevantIds, limit, gain);
      HitsFit(|retrieved|, |relevantIds|, limit) ==>
        && 0.0 <= s.ap <= 1.0
        && (s.ap == 1.0 <==> IdealRanking(retrieved, IdSet(relevantIds), Min(|relevantIds|, limit)))
  {
    PrecisionRecall(retrieved, relevantIds, limit, gain);
    ReciprocalRank(retrieved, relevantIds, limit, gain);
    NdcgBounds(retrieved, IdSet(relevantIds), limit, gain);
    if HitsFit(|retrieved|, |relevantIds|, limit) { AveragePrecision(retrieved, relevantIds, limit, gain); }
  }

  // ----- what the metrics measure -----

  function SumOver(n: nat, f: nat -> real): real {
    if n == 0 then 0.0 else SumOver(n - 1, f) + f(n - 1)
  }

  lemma {:induction false} SumAgrees(n: nat, f: nat -> real, g: nat -> real)
    requires forall i: nat :: i < n ==> f(i) == g(i)
    ensures SumOver(n, f) == SumOver(n, g)
  {
    if n > 0 { SumAgrees(n - 1, f, g); }
  }

  // The positions of the relevant ids among the first n.
  ghost function Hits(retrieved: seq<string>, relevantIds: seq<string>, n: nat): set<nat> {
    set i: nat | i < n && i < |retrieved| && retrieved[i] in relevantIds
  }

  lemma {:induction false} CountIs(retrieved: seq<string>, relevantIds: seq<string>, n: nat)
    requires n <= |retrieved|
    ensures Count(Marks(retrieved, IdSet(relevantIds))[..n]) == |Hits(retrieved, relevantIds, n)|
  {
    var marks := Marks(retrieved, IdSet(relevantIds));
    var hits := Hits(retrieved, relevantIds, n);
    if n > 0 {
      CountIs(retrieved, relevantIds, n - 1);
      var fewer := Hits(retrieved, relevantIds, n - 1);
      assert marks[..n][..n - 1] == marks[..n - 1];
      assert hits == if retrieved[n - 1] in relevantIds then fewer + {n - 1} else fewer;
    } else {
      assert hits == {};
    }
  }

  // At each hit the share of hits so far.
  ghost function PrecisionAt(retrieved: seq<string>, relevantIds: seq<string>): nat -> real {
    (i: nat) =>
      if i < |retrieved| && retrieved[i] in relevantIds
      then |Hits(retrieved, relevantIds, i + 1)| as real / (i + 1) as real else 0.0
  }

  ghost function GainAt(retrieved: seq<string>, relevantIds: seq<string>, gain: Gain): nat -> real {
    (i: nat) => if i < |retrieved| && retrieved[i] in relevantIds then gain(i) else 0.0
  }

  lemma {:induction false} PrecisionSumIs(retrieved: seq<string>, relevantIds: seq<string>, n: nat)
    requires n <= |retrieved|
    ensures PrecisionSum(Marks(retrieved, IdSet(relevantIds))[..n])
      == SumOver(n, PrecisionAt(retrieved, relevantIds))
  {
    var marks := Marks(retrieved, IdSet(relevantIds));
    if n > 0 {
      PrecisionSumIs(retrieved, relevantIds, n - 1);
      CountIs(retrieved, relevantIds, n);
      assert marks[..n][..n - 1] == marks[..n - 1];
    }
  }

  lemma {:induction false} GainedIs(retrieved: seq<string>, relevantIds: seq<string>, gain: Gain, n: nat)
    requires n <= |retrieved|
    ensures Gained(Marks(retrieved[..n], IdSet(relevantIds)), gain)
      == SumOver(n, GainAt(retrieved, relevantIds, gain))
  {
    if n > 0 {
      GainedIs(retrieved, relevantIds, gain, n - 1);
      var marks := Marks(retrieved[..n], IdSet(relevantIds));
      assert marks[..n - 1] == Marks(retrieved[..n - 1], IdSet(relevantIds));
    }
  }

  lemma {:induction false} IdealIs(m: nat, gain: Gain)
    ensures Ideal(m, gain) == SumOver(m, gain)
  {
    if m > 0 { IdealIs(m - 1, gain); }
  }

  lemma HitCountIs(retrieved: seq<string>, relevantIds: seq<string>)
    ensures HitCount(retrieved, relevantIds) == |Hits(retrieved, relevantIds, |retrieved|)|
  {
    CountIs(retrieved, relevantIds, |retrieved|);
    assert Marks(retrieved, IdSet(relevantIds))[..|retrieved|] == Marks(retrieved, IdSet(relevantIds));
  }

  // Precision is the hits for each retrieved id.
  lemma PrecisionMeans(retrieved: seq<string>, relevantIds: seq<string>)
    ensures var hits := |Hits(retrieved, relevantIds, |retrieved|)|;
      if retrieved == [] then Precision(retrieved, relevantIds) == 0.0
      else Precision(retrieved, relevantIds) * |retrieved| as real == hits as real
  {
    HitCountIs(retrieved, relevantIds);
    OverTimes(HitCount(retrieved, relevantIds) as real, |retrieved|);
  }

  // Recall is the hits for each relevant id.
  lemma RecallMeans(retrieved: seq<string>, relevantIds: seq<string>)
    ensures var hits := |Hits(retrieved, relevantIds, |retrieved|)|;
      if relevantIds == [] then Recall(retrieved, relevantIds) == 0.0
      else Recall(retrieved, relevantIds) * |relevantIds| as real == hits as real
  {
    HitCountIs(retrieved, relevantIds);
    OverTimes(HitCount(retrieved, relevantIds) as real, |relevantIds|);
  }

  ghost predicate FirstHitAt(retrieved: seq<string>, relevantIds: seq<string>, r: nat) {
    && 1 <= r <= |retrieved| && retrieved[r - 1] in relevantIds
    && forall i :: 0 <= i < r - 1 ==> retrieved[i] !in relevantIds
  }

  // The rank is the position of the first hit, and zero exactly when there is none.
  lemma RankMeans(retrieved: seq<string>, relevantIds: seq<string>, r: nat)
    ensures r > 0 ==> (FirstRank(retrieved, relevantIds) == r <==> FirstHitAt(retrieved, relevantIds, r))
    ensures FirstRank(retrieved, relevantIds) == 0 <==>
      forall i :: 0 <= i < |retrieved| ==> retrieved[i] !in relevantIds
  {
    var marks := Marks(retrieved, IdSet(relevantIds));
    FirstHitBound(marks);
    assert forall i :: 0 <= i < |retrieved| ==> marks[i] == (retrieved[i] in relevantIds);
    FirstIsOnly(retrieved, relevantIds, FirstHit(marks), r);
  }

  // Reciprocal rank is 1/r exactly when the first hit stands at position r, and zero exactly
  // when there is none.
  lemma MrrMeans(retrieved: seq<string>, relevantIds: seq<string>, r: nat)
    ensures r > 0 ==> (Mrr(retrieved, relevantIds) * r as real == 1.0 <==> FirstHitAt(retrieved, relevantIds, r))
    ensures Mrr(retrieved, relevantIds) == 0.0 <==> forall i :: 0 <= i < |retrieved| ==> retrieved[i] !in relevantIds
  {
    RankMeans(retrieved, relevantIds, r);
    Inverse(FirstRank(retrieved, relevantIds), r);
  }

  lemma FirstIsOnly(retrieved: seq<string>, relevantIds: seq<string>, first: nat, r: nat)
    requires if first > 0 then FirstHitAt(retrieved, relevantIds, first)
      else forall i :: 0 <= i < |retrieved| ==> retrieved[i] !in relevantIds
    ensures r > 0 ==> (first == r <==> FirstHitAt(retrieved, relevantIds, r))
  {
  }

  lemma Inverse(n: nat, r: nat)
    ensures if n == 0 then Over(1.0, n) == 0.0 else Over(1.0, n) > 0.0
    ensures r > 0 ==> (Over(1.0, n) * r as real == 1.0 <==> n == r)
  {
    if n > 0 {
      var x := 1.0 / n as real;
      assert x * n as real == 1.0;
      assert x * r as real == 1.0 + x * (r as real - n as real);
    }
  }

  // Average precision spreads the precisions at the hits over min(relevant, limit).
  lemma ApMeans(retrieved: seq<string>, relevantIds: seq<string>, limit: nat)
    ensures Ap(retrieved, relevantIds, limit)
      == Over(SumOver(|retrieved|, PrecisionAt(retrieved, relevantIds)), Min(|relevantIds|, limit))
  {
    WholeSum(retrieved, relevantIds);
    OverZero(Min(|relevantIds|, limit));
  }

  lemma WholeSum(retrieved: seq<string>, relevantIds: seq<string>)
    ensures var sum := PrecisionSum(Marks(retrieved, IdSet(relevantIds)));
      sum == SumOver(|retrieved|, PrecisionAt(retrieved, relevantIds))
      && (HitCount(retrieved, relevantIds) == 0 ==> sum == 0.0)
  {
    var marks := Marks(retrieved, IdSet(relevantIds));
    PrecisionSumIs(retrieved, relevantIds, |retrieved|);
    assert marks[..|retrieved|] == marks;
    NoHitsNoSum(marks);
  }

  lemma OverZero(n: nat)
    ensures Over(0.0, n) == 0.0
  {
  }

  function Quotient(p: real, q: real): real { if q == 0.0 then 0.0 else p / q }

  // NDCG is the gain of the hits within the limit over the gain of as many hits in front.
  lemma NdcgMeans(retrieved: seq<string>, relevantIds: seq<string>, limit: nat, gain: Gain)
    ensures Ndcg(retrieved, IdSet(relevantIds), limit, gain)
      == Quotient(SumOver(Min(|retrieved|, limit), GainAt(retrieved, relevantIds, gain)),
                  SumOver(Min(|IdSet(relevantIds)|, limit), gain))
  {
    GainedIs(retrieved, relevantIds, gain, Min(|retrieved|, limit));
    IdealIs(Min(|IdSet(relevantIds)|, limit), gain);
    NdcgIs(retrieved, IdSet(relevantIds), limit, gain);
  }

  lemma NdcgIs(retrieved: seq<string>, relevant: set<string>, k: nat, gain: Gain)
    ensures Ndcg(retrieved, relevant, k, gain)
      == Quotient(Gained(Marks(retrieved[..Min(|retrieved|, k)], relevant), gain), Ideal(Min(|relevant|, k), gain))
  {
  }

  lemma {:induction false} NoHitsNoSum(marks: seq<bool>)
    ensures Count(marks) == 0 ==> PrecisionSum(marks) == 0.0
  {
    if marks != [] { NoHitsNoSum(marks[..|marks| - 1]); }
  }

  // Without repetition the hits are the relevant ids that were retrieved, and recall is one
  // exactly when all of them were.
  lemma FullRecall(retrieved: seq<string>, relevantIds: seq<string>)
    requires Distinct(retrieved) && Distinct(relevantIds)
    ensures HitCount(retrieved, relevantIds) == |Both(retrieved, relevantIds)|
    ensures Recall(retrieved, relevantIds) == 1.0 <==>
      relevantIds != [] && forall id :: id in relevantIds ==> id in retrieved
  {
    HitSet(retrieved, relevantIds);
    DistinctSize(relevantIds);
    WholeSet(Both(retrieved, relevantIds), IdSet(relevantIds));
    if relevantIds != [] { Ratio(|Both(retrieved, relevantIds)|, |relevantIds|); }
    SameMembers(retrieved, relevantIds);
  }

  function Both(a: seq<string>, b: seq<string>): set<string> { set id | id in a && id in b }

  lemma SameMembers(a: seq<string>, b: seq<string>)
    ensures (forall x :: x in IdSet(b) ==> x in Both(a, b)) <==> forall id :: id in b ==> id in a
  {
    forall x ensures (x in IdSet(b) <==> x in b) && (x in Both(a, b) <==> x in a && x in b) {}
  }

  lemma WholeSet(a: set<string>, b: set<string>)
    requires a <= b
    ensures |a| <= |b| && (|a| == |b| <==> forall x :: x in b ==> x in a)
  {
    assert b == a + (b - a) && |b| == |a| + |b - a|;
    if |a| == |b| { assert b - a == {}; }
  }

  lemma {:induction false} HitSet(retrieved: seq<string>, relevantIds: seq<string>)
    requires Distinct(retrieved)
    ensures Count(Marks(retrieved, IdSet(relevantIds))) == |Both(retrieved, relevantIds)|
  {
    if retrieved == [] {
      assert Both(retrieved, relevantIds) == {};
    } else {
      var n := |retrieved| - 1;
      HitSet(retrieved[..n], relevantIds);
      assert Marks(retrieved, IdSet(relevantIds))[..n] == Marks(retrieved[..n], IdSet(relevantIds));
      BothGrows(retrieved, relevantIds);
    }
  }

  lemma BothGrows(a: seq<string>, b: seq<string>)
    requires a != [] && Distinct(a)
    ensures var n := |a| - 1; |Both(a, b)| == |Both(a[..n], b)| + if a[n] in b then 1 else 0
  {
    var n := |a| - 1;
    assert a == a[..n] + [a[n]] && a[n] !in a[..n];
    assert Both(a, b) == if a[n] in b then Both(a[..n], b) + {a[n]} else Both(a[..n], b);
  }

  // ----- when average precision stays within one -----

  // Hits on the first m positions alone already add m.
  lemma {:induction false} FrontHitsAdd(marks: seq<bool>, m: nat)
    requires AllMarked(marks, m)
    ensures PrecisionSum(marks) >= m as real && Count(marks) >= m
    decreases |marks|
  {
    AllMarkedCount(marks, m);
    if |marks| > m {
      FrontHitsAdd(marks[..|marks| - 1], m);
      QuotientBounds(Count(marks) as real, |marks| as real) by { CountBound(marks); }
    } else {
      CountBound(marks);
      PrecisionSumBound(marks);
    }
  }

  lemma MoreThanDenominator(p: real, limit: nat)
    requires limit > 0 && p >= (limit + 1) as real
    ensures p / limit as real > 1.0
  {
    var q := p / limit as real;
    assert q * limit as real == p;
  }

  // More hits in front than the limit, and more relevant ids: average precision exceeds one.
  lemma MoreResultsThanLimit(retrieved: seq<string>, relevantIds: seq<string>, limit: nat, gain: Gain)
    requires 0 < limit < |retrieved| && limit < |relevantIds|
    requires forall i :: 0 <= i <= limit ==> retrieved[i] in relevantIds
    ensures ScoreOf(retrieved, relevantIds, limit, gain).ap > 1.0
  {
    var marks := Marks(retrieved, IdSet(relevantIds));
    FrontHitsAdd(marks, limit + 1);
    MoreThanDenominator(PrecisionSum(marks), limit);
  }

  function Unary(n: nat): string { seq(n, i => 'a') }

  function UnaryIds(n: nat): seq<string> { seq(n, i requires 0 <= i < n => Unary(i)) }

  lemma UnaryDistinct(n: nat)
    ensures Distinct(UnaryIds(n))
  {
    forall i, j | 0 <= i < j < n ensures Unary(i) != Unary(j) { assert |Unary(i)| != |Unary(j)|; }
  }

  // Every duplicate-free ranking of this length against this many relevant ids.
  ghost predicate AveragePrecisionWithinOne(results: nat, relevant: nat, limit: nat, gain: Gain) {
    forall retrieved, relevantIds ::
      Distinct(retrieved) && |retrieved| == results && |relevantIds| == relevant ==>
        ScoreOf(retrieved, relevantIds, limit, gain).ap <= 1.0
  }

  // Average precision stays within one exactly where the hits fit: for all other lengths
  // there is a duplicate-free ranking that exceeds it.
  lemma AveragePrecisionExactly(results: nat, relevant: nat, limit: nat, gain: Gain)
    ensures AveragePrecisionWithinOne(results, relevant, limit, gain) <==> HitsFit(results, relevant, limit)
  {
    if HitsFit(results, relevant, limit) {
      forall retrieved, relevantIds | Distinct(retrieved) && |retrieved| == results && |relevantIds| == relevant
        ensures ScoreOf(retrieved, relevantIds, limit, gain).ap <= 1.0
      {
        AveragePrecision(retrieved, relevantIds, limit, gain);
      }
    } else {
      var retrieved, relevantIds := UnaryIds(results), UnaryIds(relevant);
      UnaryDistinct(results);
      forall i | 0 <= i <= limit ensures retrieved[i] in relevantIds { assert relevantIds[i] == retrieved[i]; }
      MoreResultsThanLimit(retrieved, relevantIds, limit, gain);
    }
  }
}
