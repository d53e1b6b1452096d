/** The paired comparison of two evaluation runs by query id.

    Both runs are turned into hash maps first, and the pairs are walked in whatever order the
    map gives them; so the counts are stated as sizes of sets. The statistic is taken over
    exact reals, the p-values are left out. */
module Mcnemar {

  datatype PerQuery = PerQuery(id: string, hits: nat)

  datatype Comparison = Comparison(
    bothHit: nat, beforeOnly: nat, afterOnly: nat, bothMiss: nat,
    totalPaired: nat, discordant: nat, feasible: bool, chi2: real, chi2Corrected: real
  )

  // A hash map collected from the list: of two entries with one id the later one stays.
  function ById(queries: seq<PerQuery>): map<string, nat> {
    if queries == [] then map[]
    else ById(queries[..|queries| - 1])[queries[|queries| - 1].id := queries[|queries| - 1].hits]
  }

  function Paired(before: map<string, nat>, after: map<string, nat>): set<string> {
    before.Keys * after.Keys
  }

  // The paired queries with these outcomes, among the given ids.
  function Outcome(before: map<string, nat>, after: map<string, nat>, ids: set<string>, hitBefore: bool,
                   hitAfter: bool): set<string>
  {
    set id | id in ids && id in before && id in after && (before[id] > 0) == hitBefore && (after[id] > 0) == hitAfter
  }

  function Square(x: real): real { x * x }

  function Distance(b: nat, c: nat): nat { if b < c then c - b else b - c }

  function Chi2(b: nat, c: nat): real {
    if b + c > 0 then Square(b as real - c as real) / (b + c) as real else 0.0
  }

  function Chi2Corrected(b: nat, c: nat): real {
    if b + c > 0 && Distance(b, c) > 0 then Square(Distance(b, c) as real - 1.0) / (b + c) as real else 0.0
  }

  // The counts are sizes of sets, so the order in which the pairs are walked does not matter.
  method Compare(before: seq<PerQuery>, after: seq<PerQuery>) returns (r: Comparison)
    ensures var x, y := ById(before), ById(after);
      var ids := Paired(x, y);
      && r.bothHit == |Outcome(x, y, ids, true, true)| && r.beforeOnly == |Outcome(x, y, ids, true, false)|
      && r.afterOnly == |Outcome(x, y, ids, false, true)| && r.bothMiss == |Outcome(x, y, ids, false, false)|
      && r.totalPaired == |ids|
    ensures r.bothHit + r.beforeOnly + r.afterOnly + r.bothMiss == r.totalPaired
    ensures r.discordant == r.beforeOnly + r.afterOnly && (r.feasible <==> r.discordant > 0)
    ensures r.chi2 == Chi2(r.beforeOnly, r.afterOnly) && r.chi2Corrected == Chi2Corrected(r.beforeOnly, r.afterOnly)
  {
    var x, y := ById(before), ById(after);
    var rest := Paired(x, y);
    var done: set<string> := {};
    var a, b, c, d := 0, 0, 0, 0;
    while rest != {}
      invariant done + rest == Paired(x, y) && done !! rest
      invariant a == |Outcome(x, y, done, true, true)| && b == |Outcome(x, y, done, true, false)|
      invariant c == |Outcome(x, y, done, false, true)| && d == |Outcome(x, y, done, false, false)|
      invariant a + b + c + d == |done|
      decreases rest
    {
      var id :| id in rest;
      OutcomeStep(x, y, done, id, true, true);
      OutcomeStep(x, y, done, id, true, false);
      OutcomeStep(x, y, done, id, false, true);
      OutcomeStep(x, y, done, id, false, false);
      match (x[id] > 0, y[id] > 0) {
        case (true, true) => a := a + 1;
        case (true, false) => b := b + 1;
        case (false, true) => c := c + 1;
        case (false, false) => d := d + 1;
      }
      done, rest := done + {id}, rest - {id};
    }
    assert done == Paired(x, y);
    return Comparison(a, b, c, d, |done|, b + c, b + c > 0, Chi2(b, c), Chi2Corrected(b, c));
  }

  lemma OutcomeStep(x: map<string, nat>, y: map<string, nat>, done: set<string>, id: string, hitBefore: bool,
                    hitAfter: bool)
    requires id !in done && id in x && id in y
    ensures |Outcome(x, y, done + {id}, hitBefore, hitAfter)| == |Outcome(x, y, done, hitBefore, hitAfter)|
      + if (x[id] > 0) == hitBefore && (y[id] > 0) == hitAfter then 1 else 0
  {
    var more, less := Outcome(x, y, done + {id}, hitBefore, hitAfter), Outcome(x, y, done, hitBefore, hitAfter);
    if (x[id] > 0) == hitBefore && (y[id] > 0) == hitAfter {
      assert more == less + {id};
    } else {
      assert more == less;
    }
  }

  // Of two entries with one id the later one counts.
  lemma {:induction false} LaterCounts(queries: seq<PerQuery>, i: nat)
    requires i < |queries|
    ensures queries[i].id in ById(queries)
    ensures (forall j :: i < j < |queries| ==> queries[j].id != queries[i].id) ==>
      ById(queries)[queries[i].id] == queries[i].hits
    decreases |queries|
  {
    var n := |queries| - 1;
    if i < n { LaterCounts(queries[..n], i); }
  }

  lemma {:induction false} NoOtherIds(queries: seq<PerQuery>, id: string)
    ensures id in ById(queries) ==> exists i :: 0 <= i < |queries| && queries[i].id == id
  {
    if queries != [] {
      var n := |queries| - 1;
      NoOtherIds(queries[..n], id);
      if id in ById(queries[..n]) {
        var i :| 0 <= i < |queries[..n]| && queries[..n][i].id == id;
        assert queries[i].id == id;
      } else if id in ById(queries) {
        assert queries[n].id == id;
      }
    }
  }

  // The squared difference of the discordant counts, lowered by one for the correction, for
  // each discordant pair.
  lemma Chi2Means(b: nat, c: nat)
    ensures Chi2(b, c) * (b + c) as real == (b as real - c as real) * (b as real - c as real)
    ensures b != c ==>
      Chi2Corrected(b, c) * (b + c) as real == (Distance(b, c) as real - 1.0) * (Distance(b, c) as real - 1.0)
    ensures b == c ==> Chi2Corrected(b, c) == 0.0
  {
    if b + c > 0 {
      Quotient(Square(b as real - c as real), 0.0, (b + c) as real);
      Quotient(Square(Distance(b, c) as real - 1.0), 0.0, (b + c) as real);
    }
  }

  // Comparing the other way round swaps the two discordant counts and nothing else.
  lemma SwapRuns(x: map<string, nat>, y: map<string, nat>, hitBefore: bool, hitAfter: bool)
    ensures Outcome(x, y, Paired(x, y), hitBefore, hitAfter) == Outcome(y, x, Paired(y, x), hitAfter, hitBefore)
  {
    assert Paired(x, y) == Paired(y, x);
  }

  lemma Quotient(p: real, q: real, n: real)
    requires n > 0.0
    ensures p <= q * n ==> p / n <= q
    ensures p >= 0.0 ==> p / n >= 0.0
    ensures p / n * n == p
  {
  }

  // The statistic lies between zero and the number of discordant pairs, and reaches the ends
  // exactly when the two counts are equal or one of them is zero.
  lemma Chi2Range(b: nat, c: nat)
    ensures 0.0 <= Chi2(b, c) <= (b + c) as real
    ensures Chi2(b, c) == 0.0 <==> b == c
    ensures Chi2(b, c) == (b + c) as real <==> b == 0 || c == 0
    ensures Chi2(b, c) == Chi2(c, b)
  {
    if b + c > 0 {
      var p, q := b as real, c as real;
      SquareOfDifference(p, q);
      Fraction(Square(p - q), p + q);
    }
  }

  lemma SquareOfDifference(p: real, q: real)
    requires p >= 0.0 && q >= 0.0
    ensures 0.0 <= Square(p - q) <= Square(p + q) && Square(p - q) == Square(q - p)
    ensures Square(p - q) == 0.0 <==> p == q
    ensures Square(p - q) == Square(p + q) <==> p == 0.0 || q == 0.0
  {
    var d := p - q;
    assert Square(p - q) == p * p - 2.0 * (p * q) + q * q;
    assert Square(p + q) == p * p + 2.0 * (p * q) + q * q;
    Product(p, q);
    if d != 0.0 { Product(if d > 0.0 then d else -d, if d > 0.0 then d else -d); }
  }

  lemma Product(p: real, q: real)
    requires p >= 0.0 && q >= 0.0
    ensures p * q >= 0.0 && (p * q == 0.0 <==> p == 0.0 || q == 0.0)
  {
  }

  // A fraction of the square of its denominator.
  lemma Fraction(p: real, n: real)
    requires n > 0.0 && 0.0 <= p <= Square(n)
    ensures 0.0 <= p / n <= n && (p / n == 0.0 <==> p == 0.0) && (p / n == n <==> p == Square(n))
  {
    Quotient(p, n, n);
    WholeFraction(p, n, p / n);
  }

  lemma WholeFraction(p: real, n: real, f: real)
    requires n > 0.0 && f * n == p
    ensures (f == 0.0 <==> p == 0.0) && (f == n <==> p == Square(n))
  {
    assert f * n - Square(n) == (f - n) * n;
    Product(if f >= n then f - n else n - f, n);
    assert (n - f) * n == Square(n) - f * n;
    if f != 0.0 { Product(if f >= 0.0 then f else -f, n); }
    assert (-f) * n == -(f * n);
  }

  // The continuity correction never raises the statistic.
  lemma CorrectionLowers(b: nat, c: nat)
    ensures 0.0 <= Chi2Corrected(b, c) <= Chi2(b, c)
    ensures Chi2Corrected(b, c) == Chi2(b, c) <==> b == c
  {
    var e := Distance(b, c) as real;
    if b + c > 0 {
      var n := (b + c) as real;
      assert Square(b as real - c as real) == Square(e);
      if b != c {
        assert e >= 1.0;
        assert Square(e - 1.0) == Square(e) - (2.0 * e - 1.0);
        Quotient(Square(e - 1.0), Chi2(b, c), n);
        Quotient(Square(e), 0.0, n);
      }
    }
  }
}
