/** The memoising walk over the supporting claims of a root claim. A claim is trusted when it
    is approved, passes its own checks and rests only on trusted claims, with no way round in a
    circle: the least set closed under this rule. */
module Trust {
  import opened Identifiers

  datatype TrustClaim = TrustClaim(id: string, approved: bool, supports: seq<string>)

  // The stored claims, and the checks of a claim on its own: its digest and its evidence.
  datatype Graph = Graph(claims: map<string, TrustClaim>, sound: TrustClaim -> bool)

  predicate SupportsOk(ids: seq<string>) {
    Distinct(ids) && forall id :: id in ids ==> IsClaimId(id)
  }

  predicate Stands(g: Graph, id: string) {
    id in g.claims && g.claims[id].approved && g.sound(g.claims[id]) && SupportsOk(g.claims[id].supports)
  }

  // What is taken for granted besides the stored claims: ids that are not trusted whatever they
  // rest on, and ids that are, without a look at what they rest on.
  datatype View = View(g: Graph, barred: set<string>, given: set<string>)

  function Plain(g: Graph): View { View(g, {}, {}) }

  // Trusted by an argument of at most n steps.
  ghost predicate TrustedIn(v: View, n: nat, id: string)
    decreases n
  {
    n > 0 && id !in v.barred
    && (id in v.given || (Stands(v.g, id) && forall s :: s in v.g.claims[id].supports ==> TrustedIn(v, n - 1, s)))
  }

  ghost predicate Trusted(v: View, id: string) {
    exists n: nat :: TrustedIn(v, n, id)
  }

  lemma {:induction false} TrustedLonger(v: View, n: nat, m: nat, id: string)
    requires TrustedIn(v, n, id) && n <= m
    ensures TrustedIn(v, m, id)
    decreases n
  {
    if id !in v.given {
      forall s | s in v.g.claims[id].supports ensures TrustedIn(v, m - 1, s) { TrustedLonger(v, n - 1, m - 1, s); }
    }
  }

  lemma {:induction false} CommonBound(v: View, ids: seq<string>) returns (n: nat)
    requires forall id :: id in ids ==> Trusted(v, id)
    ensures forall id :: id in ids ==> TrustedIn(v, n, id)
  {
    if ids == [] { return 0; }
    var m := CommonBound(v, ids[1..]);
    assert ids[0] in ids;
    var k: nat :| TrustedIn(v, k, ids[0]);
    n := if m < k then k else m;
    forall id | id in ids ensures TrustedIn(v, n, id) {
      if id == ids[0] { TrustedLonger(v, k, n, id); } else { TrustedLonger(v, m, n, id); }
    }
  }

  // The rule that defines trust, in both directions.
  lemma TrustedIff(v: View, id: string)
    ensures Trusted(v, id) <==>
      id !in v.barred
      && (id in v.given
          || (&& id in v.g.claims && v.g.claims[id].approved && v.g.sound(v.g.claims[id])
              && Distinct(v.g.claims[id].supports)
              && forall s :: s in v.g.claims[id].supports ==> IsClaimId(s) && Trusted(v, s)))
  {
    if Trusted(v, id) && id !in v.given {
      var n: nat :| TrustedIn(v, n, id);
      forall s | s in v.g.claims[id].supports ensures Trusted(v, s) { assert TrustedIn(v, n - 1, s); }
    }
    if id !in v.barred && id in v.given { assert TrustedIn(v, 1, id); }
    if id !in v.barred && Stands(v.g, id) && forall s :: s in v.g.claims[id].supports ==> Trusted(v, s) {
      var n := CommonBound(v, v.g.claims[id].supports);
      assert TrustedIn(v, n + 1, id);
    }
  }

  // ----- chains of support -----

  predicate RestsOn(v: View, x: string, y: string) {
    x in v.g.claims && x !in v.given && y in v.g.claims[x].supports
  }

  // Each claim of the chain is supported by the next.
  ghost predicate Chain(v: View, path: seq<string>) {
    forall k :: 0 <= k < |path| - 1 ==> RestsOn(v, path[k], path[k + 1])
  }

  lemma SubChain(v: View, path: seq<string>, i: nat, j: nat)
    requires Chain(v, path) && i <= j <= |path|
    ensures Chain(v, path[i..j])
  {
    var sub := path[i..j];
    forall k | 0 <= k < |sub| - 1 ensures RestsOn(v, sub[k], sub[k + 1]) {
      assert RestsOn(v, path[i + k], path[i + k + 1]);
    }
  }

  lemma {:induction false} Descends(v: View, path: seq<string>, n: nat)
    requires Chain(v, path) && path != [] && TrustedIn(v, n, path[0])
    ensures |path| <= n && TrustedIn(v, n + 1 - |path|, path[|path| - 1])
    decreases |path|
  {
    if |path| > 1 {
      assert RestsOn(v, path[0], path[0 + 1]);
      SubChain(v, path, 1, |path|);
      assert path[1..|path|] == path[1..];
      Descends(v, path[1..], n - 1);
    }
  }

  // No claim of a circle is trusted.
  lemma {:induction false} CircleNotTrusted(v: View, path: seq<string>, n: nat)
    requires Chain(v, path) && |path| > 1 && path[0] == path[|path| - 1]
    ensures !TrustedIn(v, n, path[0])
  {
    if TrustedIn(v, n, path[0]) {
      Descends(v, path, n);
      CircleNotTrusted(v, path, n + 1 - |path|);
    }
  }

  lemma OnCircleNotTrusted(v: View, path: seq<string>, k: nat)
    requires Chain(v, path) && |path| > 1 && path[0] == path[|path| - 1] && k < |path|
    ensures !Trusted(v, path[k])
  {
    if Trusted(v, path[k]) {
      var n: nat :| TrustedIn(v, n, path[k]);
      var tail := path[k..];
      assert Chain(v, tail) by {
        SubChain(v, path, k, |path|);
        assert path[k..|path|] == tail;
      }
      Descends(v, tail, n);
      CircleNotTrusted(v, path, n + 1 - |tail|);
    }
  }

  // Trust goes down a chain to its end.
  lemma TrustDescends(v: View, path: seq<string>)
    requires Chain(v, path) && path != [] && Trusted(v, path[0])
    ensures Trusted(v, path[|path| - 1])
  {
    var n: nat :| TrustedIn(v, n, path[0]);
    Descends(v, path, n);
  }

  // ----- the walk -----

  datatype VisitState = Visiting | Valid | Invalid

  type States = map<string, VisitState>

  // What a walk down from this root goes by: what was decided before stands, and no claim that
  // rests on one of the root's id is trusted.
  function ViewFrom(g: Graph, rootId: string, states: States): View {
    View(g, {rootId} + (set id | id in states && states[id].Invalid?),
      (set id | id in states && states[id].Valid?) - {rootId})
  }

  // From the root down: each claim is supported by the next.
  ghost predicate WalkPath(v: View, root: TrustClaim, path: seq<string>) {
    && root.id in v.barred && |path| >= 2 && path[0] == root.id && path[1] in root.supports && Chain(v, path[1..])
  }

  // What is taken for granted was decided before.
  ghost predicate Known(v: View, rootId: string, states: States) {
    rootId !in v.given && forall id :: id in v.given || id in v.barred ==> id in states || id == rootId
  }

  // What has been decided is right, apart from the root itself.
  ghost predicate Right(v: View, rootId: string, states: States) {
    && MarksHold(v, rootId, states)
    && forall id :: id in states && id != rootId ==>
      (states[id].Valid? ==> Trusted(v, id)) && (states[id].Invalid? ==> !Trusted(v, id))
  }

  // The same claims, with no look at what was decided as trusted and with the root as any other.
  function Loose(v: View, rootId: string): View { View(v.g, v.barred - {rootId}, {}) }

  ghost predicate RootMarked(rootId: string, states: States) {
    rootId in states && states[rootId].Invalid?
  }

  // Unless the root is marked too, no mark comes from a way back to the root.
  ghost predicate MarksHold(v: View, rootId: string, states: States) {
    RootMarked(rootId, states) || forall id :: id in states && states[id].Invalid? ==> !Trusted(Loose(v, rootId), id)
  }

  ghost predicate OpenOnPath(states: States, path: seq<string>)
    requires |path| >= 2
  {
    forall id :: id in states && states[id].Visiting? ==> id in path[1..|path| - 1]
  }

  // Decisions stay, except that the root's own may turn to invalid; nothing is left open that
  // was not open before.
  ghost predicate Decided(rootId: string, before: States, after: States) {
    && (forall id :: id in before ==> id in after)
    && (forall id :: id in before && !before[id].Visiting? && id != rootId ==> after[id] == before[id])
    && (forall id :: id in after && after[id].Visiting? ==> id in before && before[id].Visiting?)
    && (rootId in after ==> after[rootId].Invalid? || (rootId in before && after[rootId] == before[rootId]))
  }

  // Nothing old was touched, and what is new was found trusted.
  ghost predicate Cleanly(before: States, after: States) {
    && (forall id :: id in before ==> id in after && after[id] == before[id])
    && (forall id :: id in after && id !in before ==> after[id].Valid?)
  }

  lemma ChainFrom(v: View, root: TrustClaim, path: seq<string>, i: nat)
    requires WalkPath(v, root, path) && 1 <= i < |path|
    ensures Chain(v, path[i..])
  {
    var tail := path[i..];
    forall k | 0 <= k < |tail| - 1 ensures RestsOn(v, tail[k], tail[k + 1]) {
      assert RestsOn(v, path[1..][i - 1 + k], path[1..][i - 1 + k + 1]);
    }
  }

  // A walk that comes back to the root marks rightly all that led there.
  lemma RootCircle(v: View, root: TrustClaim, path: seq<string>, k: nat)
    requires WalkPath(v, root, path) && path[|path| - 1] == root.id && k < |path|
    ensures !Trusted(v, path[k])
  {
    if k > 0 && Trusted(v, path[k]) {
      ChainFrom(v, root, path, k);
      TrustDescends(v, path[k..]);
    }
  }

  lemma InnerCircle(v: View, root: TrustClaim, path: seq<string>, start: nat, k: nat)
    requires WalkPath(v, root, path) && 1 <= start <= k < |path| - 1 && path[start] == path[|path| - 1]
    ensures !Trusted(v, path[k]) && !Trusted(Loose(v, root.id), path[k])
  {
    ChainFrom(v, root, path, start);
    OnCircleNotTrusted(v, path[start..], k - start);
    LooseChain(v, root.id, path[start..]);
    OnCircleNotTrusted(Loose(v, root.id), path[start..], k - start);
  }

  lemma LooseChain(v: View, rootId: string, path: seq<string>)
    requires Chain(v, path)
    ensures Chain(Loose(v, rootId), path)
  {
    forall k | 0 <= k < |path| - 1 ensures RestsOn(Loose(v, rootId), path[k], path[k + 1]) {
      assert RestsOn(v, path[k], path[k + 1]);
    }
  }

  function Position(path: seq<string>, id: string): (k: nat)
    requires id in path
    ensures k < |path| && path[k] == id && forall j :: 0 <= j < k ==> path[j] != id
  {
    if path[0] == id then 0 else 1 + Position(path[1..], id)
  }

  // No claim was visited twice, and what is open or was found trusted was visited.
  ghost predicate VisitedOnce(counts: map<string, nat>, states: States) {
    && (forall id :: id in counts ==> counts[id] == 1 && id in states)
    && (forall id :: id in states && !states[id].Invalid? ==> id in counts)
  }

  ghost predicate Passed(v: View, ids: seq<string>) {
    SupportsOk(ids) && forall id :: id in ids ==> Trusted(v, id)
  }

  lemma PassedStep(v: View, ids: seq<string>, i: nat)
    requires i < |ids| && Passed(v, ids[..i]) && ids[i] !in ids[..i] && IsClaimId(ids[i]) && Trusted(v, ids[i])
    ensures Passed(v, ids[..i + 1])
  {
    assert ids[..i + 1] == ids[..i] + [ids[i]];
  }

  lemma DecidedOn(rootId: string, a: States, b: States, c: States)
    requires Decided(rootId, a, b) && Decided(rootId, b, c)
    ensures Decided(rootId, a, c)
    ensures Cleanly(a, b) && Cleanly(b, c) ==> Cleanly(a, c)
  {
  }

  lemma Closing(v: View, rootId: string, before: States, mid: States, id: string, to: VisitState)
    requires id !in before && id != rootId && Decided(rootId, before[id := Visiting], mid) && Right(v, rootId, mid)
    requires to == if Trusted(v, id) then Valid else Invalid
    requires to.Invalid? ==> RootMarked(rootId, mid) || !Trusted(Loose(v, rootId), id)
    ensures Right(v, rootId, mid[id := to]) && Decided(rootId, before, mid[id := to])
    ensures Cleanly(before[id := Visiting], mid) && to.Valid? ==> Cleanly(before, mid[id := to])
  {
  }

  lemma OpensNew(v: View, rootId: string, states: States, counts: map<string, nat>, id: string)
    requires id !in states && Right(v, rootId, states) && VisitedOnce(counts, states)
    ensures id !in counts && VisitedOnce(counts[id := 1], states[id := Visiting])
    ensures Right(v, rootId, states[id := Visiting])
  {
  }

  lemma Counted(counts: map<string, nat>, states: States, id: string, to: VisitState)
    requires VisitedOnce(counts, states) && (to.Invalid? || (id in states && !states[id].Invalid?))
    ensures VisitedOnce(counts, states[id := to])
  {
  }

  lemma Opening(rootId: string, before: States, id: string, path: seq<string>, next: string)
    requires |path| >= 2 && path[|path| - 1] == id && OpenOnPath(before, path)
    ensures forall mid: States :: Decided(rootId, before[id := Visiting], mid) ==> OpenOnPath(mid, path + [next])
  {
    forall mid: States | Decided(rootId, before[id := Visiting], mid) ensures OpenOnPath(mid, path + [next]) {
      OpenStep(mid, path, next);
    }
  }

  lemma Shrinks(all: set<string>, before: set<string>, after: set<string>, id: string)
    requires id in all && id !in before && before <= after && id in after
    ensures |all - after| < |all - before|
  {
    assert all - after <= all - before - {id};
    SubsetSize(all - after, all - before - {id});
  }

  lemma SubsetSize(a: set<string>, b: set<string>)
    requires a <= b
    ensures |a| <= |b|
  {
    assert b == a + (b - a);
  }

  lemma OpenStep(states: States, path: seq<string>, next: string)
    requires |path| >= 2
    requires forall id :: id in states && states[id].Visiting? ==> id in path[1..|path| - 1] || id == path[|path| - 1]
    ensures OpenOnPath(states, path + [next])
  {
    var longer := path + [next];
    assert longer[1..|longer| - 1] == path[1..|path| - 1] + [path[|path| - 1]];
  }

  lemma PathStep(v: View, root: TrustClaim, path: seq<string>, next: string)
    requires WalkPath(v, root, path) && RestsOn(v, path[|path| - 1], next)
    ensures WalkPath(v, root, path + [next])
  {
    var longer := path + [next];
    var tail := longer[1..];
    forall k | 0 <= k < |tail| - 1 ensures RestsOn(v, tail[k], tail[k + 1]) {
      if k < |path| - 2 { assert RestsOn(v, path[1..][k], path[1..][k + 1]); }
    }
  }

  // All that a visit of a support asks for.
  lemma SupportReady(v: View, root: TrustClaim, id: string, path: seq<string>, next: string, before: States,
                     states: States)
    requires WalkPath(v, root, path) && path[|path| - 1] == id
    requires id in v.g.claims && id != root.id && next in v.g.claims[id].supports
    requires id !in before && Decided(root.id, before[id := Visiting], states) && OpenOnPath(before, path)
    requires Known(v, root.id, before)
    ensures WalkPath(v, root, path + [next]) && OpenOnPath(states, path + [next]) && Known(v, root.id, states)
    ensures |v.g.claims.Keys - states.Keys| < |v.g.claims.Keys - before.Keys|
  {
    PathStep(v, root, path, next);
    Opening(root.id, before, id, path, next);
    Shrinks(v.g.claims.Keys, before.Keys, states.Keys, id);
  }

  class TrustValidator {
    const g: Graph
    var states: States
    var counts: map<string, nat>

    function VisitCount(id: string): nat
      reads this
    {
      if id in counts then counts[id] else 0
    }

    // Between two roots nothing is open.
    ghost predicate Idle()
      reads this
    {
      VisitedOnce(counts, states) && forall id :: id in states ==> !states[id].Visiting?
    }

    constructor (g: Graph)
      ensures Idle() && this.g == g && states == map[]
    {
      this.g := g;
      states, counts := map[], map[];
    }

    method MarkInvalid(id: string)
      modifies this`states
      ensures states == old(states)[id := Invalid]
    {
      if id in states && states[id].Invalid? {
        assert states == states[id := Invalid];
        return;
      }
      states := states[id := Invalid];
    }

    // Every claim of the circle that was found is marked, the root too if it is on it.
    method Cycle(ghost v: View, ghost rootId: string, id: string, path: seq<string>)
      requires |path| >= 2 && id in path[..|path| - 1] && Right(v, rootId, states) && VisitedOnce(counts, states)
      requires forall k :: Position(path, id) <= k < |path| - 1 ==> !Trusted(v, path[k])
      requires id != rootId ==> forall k :: Position(path, id) <= k < |path| - 1 ==> !Trusted(Loose(v, rootId), path[k])
      modifies this`states
      ensures Right(v, rootId, states) && Decided(rootId, old(states), states) && VisitedOnce(counts, states)
      ensures id in states && states[id].Invalid?
    {
      var start := Position(path, id);
      for k := start to |path| - 1
        invariant Right(v, rootId, states) && Decided(rootId, old(states), states) && VisitedOnce(counts, states)
        invariant k > start ==> id in states && states[id].Invalid?
      {
        Counted(counts, states, path[k], Invalid);
        MarkInvalid(path[k]);
      }
    }

    method Visit(ghost v: View, root: TrustClaim, id: string, path: seq<string>) returns (ok: bool)
      requires v.g == g && WalkPath(v, root, path) && path[|path| - 1] == id
      requires Right(v, root.id, states) && Known(v, root.id, states) && OpenOnPath(states, path)
        && VisitedOnce(counts, states)
      modifies this
      ensures Right(v, root.id, states) && Decided(root.id, old(states), states) && VisitedOnce(counts, states)
      ensures ok <==> Trusted(v, id)
      ensures ok ==> Cleanly(old(states), states)
      ensures id in states && (!ok ==> states[id].Invalid?) && (ok ==> states[id].Valid?)
      decreases |g.claims.Keys - states.Keys|
    {
      if id == root.id {
        FoundRoot(v, root, path);
        Cycle(v, root.id, id, path);
        return false;
      }
      if id in states {
        match states[id]
        case Valid => return true;
        case Invalid => return false;
        case Visiting =>
          FoundCircle(v, root, path, states);
          Cycle(v, root.id, id, path);
          return false;
      }
      if id !in g.claims {
        MissingNotTrusted(v, root.id, states, id);
        MarkInvalid(id);
        return false;
      }
      ok := VisitNew(v, root, id, path);
    }

    method VisitNew(ghost v: View, root: TrustClaim, id: string, path: seq<string>) returns (ok: bool)
      requires v.g == g && WalkPath(v, root, path) && path[|path| - 1] == id
      requires id !in states && id in g.claims && id != root.id
      requires Right(v, root.id, states) && Known(v, root.id, states) && OpenOnPath(states, path)
        && VisitedOnce(counts, states)
      modifies this
      ensures Right(v, root.id, states) && Decided(root.id, old(states), states) && VisitedOnce(counts, states)
      ensures ok <==> Trusted(v, id)
      ensures ok ==> Cleanly(old(states), states)
      ensures id in states && states[id] == if ok then Valid else Invalid
      decreases |g.claims.Keys - states.Keys|, 1
    {
      ghost var before := states;
      OpensNew(v, root.id, states, counts, id);
      states := states[id := Visiting];
      counts := counts[id := VisitCount(id) + 1];
      ok := VisitBelow(v, root, id, path, before);
      Closing(v, root.id, before, states, id, if ok then Valid else Invalid);
      Counted(counts, states, id, if ok then Valid else Invalid);
      if ok { states := states[id := Valid]; } else { MarkInvalid(id); }
    }

    // The claim's own checks, then its supports in the order of their ids.
    method VisitBelow(ghost v: View, root: TrustClaim, id: string, path: seq<string>, ghost before: States)
      returns (ok: bool)
      requires v.g == g && WalkPath(v, root, path) && path[|path| - 1] == id
      requires id !in before && id in g.claims && id != root.id && states == before[id := Visiting]
      requires Right(v, root.id, states) && Known(v, root.id, before) && OpenOnPath(before, path)
        && VisitedOnce(counts, states)
      modifies this
      ensures Right(v, root.id, states) && Decided(root.id, old(states), states) && VisitedOnce(counts, states)
      ensures ok ==> Cleanly(old(states), states)
      ensures ok <==> Trusted(v, id)
      ensures !ok ==> RootMarked(root.id, states) || !Trusted(Loose(v, root.id), id)
      decreases |g.claims.Keys - before.Keys|, 0
    {
      var claim := g.claims[id];
      TrustedIff(v, id);
      TrustedIff(Loose(v, root.id), id);
      if !claim.approved || !g.sound(claim) { return false; }
      var ids := SortedCopy(claim.supports);
      for i := 0 to |ids|
        invariant Right(v, root.id, states) && VisitedOnce(counts, states)
        invariant Decided(root.id, old(states), states) && Cleanly(old(states), states)
        invariant Passed(v, ids[..i])
      {
        assert ids[i] in ids;
        if !IsClaimId(ids[i]) { return false; }
        if ids[i] in ids[..i] {
          RepeatedId(ids, i);
          return false;
        }
        ghost var mid := states;
        ok := VisitSupport(v, root, id, path, ids[i], before);
        DecidedOn(root.id, old(states), mid, states);
        if !ok { return false; }
        PassedStep(v, ids, i);
      }
      assert ids[..|ids|] == ids;
      return true;
    }

    method VisitSupport(ghost v: View, root: TrustClaim, id: string, path: seq<string>, next: string,
                        ghost before: States)
      returns (ok: bool)
      requires v.g == g && WalkPath(v, root, path) && path[|path| - 1] == id
      requires id in g.claims && id != root.id && next in g.claims[id].supports
      requires id !in before && Decided(root.id, before[id := Visiting], states) && OpenOnPath(before, path)
      requires Right(v, root.id, states) && Known(v, root.id, before) && VisitedOnce(counts, states)
      modifies this
      ensures Right(v, root.id, states) && Decided(root.id, old(states), states) && VisitedOnce(counts, states)
      ensures ok ==> Cleanly(old(states), states)
      ensures ok <==> Trusted(v, next)
      ensures !ok ==> RootMarked(root.id, states) || !Trusted(Loose(v, root.id), next)
      decreases |g.claims.Keys - before.Keys|, 0, 0
    {
      SupportReady(v, root, id, path, next, before, states);
      ok := Visit(v, root, next, path + [next]);
    }

    // Accepts a root exactly when its supports are distinct, well-formed and trusted by what
    // stands from earlier walks and without the root's own id; everything newly decided is
    // right in the same sense, and a refusal leaves a mark on a support.
    method ValidateClaim(root: TrustClaim) returns (ok: bool)
      requires Idle()
      modifies this
      ensures Idle()
      ensures Walked(ViewFrom(g, root.id, old(states)), root, old(states), states, ok)
    {
      ghost var v := ViewFrom(g, root.id, states);
      GivenIsRight(g, root.id, states);
      if !IsClaimId(root.id) { return false; }
      var ids := SortedCopy(root.supports);
      for i := 0 to |ids|
        invariant Idle() && Right(v, root.id, states) && Known(v, root.id, states)
        invariant Decided(root.id, old(states), states) && Cleanly(old(states), states)
        invariant Passed(v, ids[..i])
      {
        assert ids[i] in ids;
        if !IsClaimId(ids[i]) { return false; }
        if ids[i] in ids[..i] {
          RepeatedId(ids, i);
          return false;
        }
        ghost var mid := states;
        ok := Visit(v, root, ids[i], [root.id, ids[i]]);
        DecidedOn(root.id, old(states), mid, states);
        if !ok { return false; }
        PassedStep(v, ids, i);
      }
      assert ids[..|ids|] == ids;
      return true;
    }
  }

  // What a walk from this root answers and leaves behind.
  ghost predicate Walked(v: View, root: TrustClaim, before: States, after: States, ok: bool) {
    && (ok <==> IsClaimId(root.id) && Passed(v, root.supports))
    && Right(v, root.id, after) && Decided(root.id, before, after)
    && (ok || !IsClaimId(root.id) ==> Cleanly(before, after))
    && (!ok && IsClaimId(root.id) && SupportsOk(root.supports) ==>
          exists s :: s in root.supports && !Trusted(v, s) && s in after && after[s].Invalid?)
  }

  lemma GivenIsRight(g: Graph, rootId: string, states: States)
    requires forall id :: id in states ==> !states[id].Visiting?
    ensures Right(ViewFrom(g, rootId, states), rootId, states) && Known(ViewFrom(g, rootId, states), rootId, states)
  {
    var v := ViewFrom(g, rootId, states);
    forall id | id in states && id != rootId && states[id].Valid? ensures Trusted(v, id) { assert TrustedIn(v, 1, id); }
    forall id | id in states && states[id].Invalid? ensures id == rootId || !Trusted(Loose(v, rootId), id) {}
  }

  lemma FoundRoot(v: View, root: TrustClaim, path: seq<string>)
    requires WalkPath(v, root, path) && path[|path| - 1] == root.id
    ensures root.id in path[..|path| - 1] && !Trusted(v, root.id)
    ensures forall k :: Position(path, root.id) <= k < |path| - 1 ==> !Trusted(v, path[k])
  {
    forall k | 0 <= k < |path| ensures !Trusted(v, path[k]) { RootCircle(v, root, path, k); }
    assert path[..|path| - 1][0] == root.id;
  }

  lemma MissingNotTrusted(v: View, rootId: string, states: States, id: string)
    requires Known(v, rootId, states) && id !in states && id != rootId && id !in v.g.claims
    ensures !Trusted(v, id) && !Trusted(Loose(v, rootId), id)
  {
    TrustedIff(v, id);
    TrustedIff(Loose(v, rootId), id);
  }

  // An open claim met again closes a circle below the root.
  lemma FoundCircle(v: View, root: TrustClaim, path: seq<string>, states: States)
    requires WalkPath(v, root, path) && OpenOnPath(states, path)
    requires var id := path[|path| - 1]; id != root.id && id in states && states[id].Visiting?
    ensures var id := path[|path| - 1];
      && id in path[..|path| - 1] && !Trusted(v, id)
      && forall k :: Position(path, id) <= k < |path| - 1 ==>
        !Trusted(v, path[k]) && !Trusted(Loose(v, root.id), path[k])
  {
    var n := |path| - 1;
    var id := path[n];
    var j :| 0 <= j < |path[1..n]| && path[1..n][j] == id;
    assert path[..n][j + 1] == id;
    var start := Position(path, id);
    assert path[j + 1] == id;
    forall k | start <= k < n ensures !Trusted(v, path[k]) && !Trusted(Loose(v, root.id), path[k]) {
      InnerCircle(v, root, path, start, k);
    }
  }

  // ----- against trust in the stored claims alone -----

  // Every decision is right about the stored claims.
  ghost predicate CacheRight(g: Graph, states: States) {
    forall id :: id in states ==>
      (states[id].Valid? ==> Trusted(Plain(g), id)) && (states[id].Invalid? ==> !Trusted(Plain(g), id))
  }

  // Some claims the id rests on, none of them decided before as trusted, lead to the root's id.
  ghost predicate Returns(v: View, rootId: string, id: string) {
    exists path :: path != [] && path[0] == id && path[|path| - 1] == rootId && Chain(v, path)
  }

  lemma {:induction false} SoundIn(g: Graph, rootId: string, states: States, n: nat, id: string)
    requires CacheRight(g, states) && TrustedIn(ViewFrom(g, rootId, states), n, id)
    ensures Trusted(Plain(g), id)
    decreases n
  {
    var v := ViewFrom(g, rootId, states);
    if id !in v.given {
      forall s | s in g.claims[id].supports ensures Trusted(Plain(g), s) { SoundIn(g, rootId, states, n - 1, s); }
      TrustedIff(Plain(g), id);
    }
  }

  lemma ReturnsOrTrusted(v: View, rootId: string, id: string)
    requires rootId in v.barred
    ensures !(Returns(v, rootId, id) && Trusted(v, id))
  {
    if Returns(v, rootId, id) && Trusted(v, id) {
      var path :| path != [] && path[0] == id && path[|path| - 1] == rootId && Chain(v, path);
      TrustDescends(v, path);
    }
  }

  lemma ReturnsToItself(v: View, rootId: string)
    ensures Returns(v, rootId, rootId)
  {
    var path := [rootId];
    assert Chain(v, path) && path[0] == rootId && path[|path| - 1] == rootId;
  }

  lemma ReturnsFrom(v: View, rootId: string, id: string, next: string)
    requires RestsOn(v, id, next) && Returns(v, rootId, next)
    ensures Returns(v, rootId, id)
  {
    var path :| path != [] && path[0] == next && path[|path| - 1] == rootId && Chain(v, path);
    var longer := [id] + path;
    forall k | 0 <= k < |longer| - 1 ensures RestsOn(v, longer[k], longer[k + 1]) {
      if k > 0 { assert RestsOn(v, path[k - 1], path[k - 1 + 1]); }
    }
    assert Chain(v, longer) && longer[0] == id && longer[|longer| - 1] == rootId;
  }

  lemma {:induction false} TrustedUnlessReturns(g: Graph, rootId: string, states: States, n: nat, id: string)
    requires CacheRight(g, states) && TrustedIn(Plain(g), n, id) && !Returns(ViewFrom(g, rootId, states), rootId, id)
    ensures Trusted(ViewFrom(g, rootId, states), id)
    decreases n
  {
    var v := ViewFrom(g, rootId, states);
    ReturnsToItself(v, rootId);
    assert Trusted(Plain(g), id);
    if id !in v.given {
      forall s | s in g.claims[id].supports ensures Trusted(v, s) {
        assert RestsOn(v, id, s);
        if Returns(v, rootId, s) { ReturnsFrom(v, rootId, id, s); }
        TrustedUnlessReturns(g, rootId, states, n - 1, s);
      }
    }
    TrustedIff(v, id);
  }

  // With right decisions so far, a walk trusts exactly the trusted claims that do not lead back
  // to the root's id.
  lemma WalkTrusts(g: Graph, rootId: string, states: States, id: string)
    requires CacheRight(g, states)
    ensures var v := ViewFrom(g, rootId, states);
      Trusted(v, id) <==> Trusted(Plain(g), id) && !Returns(v, rootId, id)
  {
    var v := ViewFrom(g, rootId, states);
    ReturnsOrTrusted(v, rootId, id);
    if Trusted(v, id) {
      var n: nat :| TrustedIn(v, n, id);
      SoundIn(g, rootId, states, n, id);
    }
    if Trusted(Plain(g), id) && !Returns(v, rootId, id) {
      var n: nat :| TrustedIn(Plain(g), n, id);
      TrustedUnlessReturns(g, rootId, states, n, id);
    }
  }

  lemma PlainChain(g: Graph, v: View, path: seq<string>)
    requires v.g == g && Chain(v, path)
    ensures Chain(Plain(g), path)
  {
    forall k | 0 <= k < |path| - 1 ensures RestsOn(Plain(g), path[k], path[k + 1]) {
      assert RestsOn(v, path[k], path[k + 1]);
    }
  }

  // The root may be a claim that is not stored yet; if an approved claim is stored under its
  // id, it is that claim.
  ghost predicate Coherent(g: Graph, root: TrustClaim) {
    root.id in g.claims && g.claims[root.id].approved ==> g.claims[root.id] == root
  }

  // A coherent root is supported by no trusted claim that leads back to it.
  lemma CoherentNeverReturns(g: Graph, root: TrustClaim, states: States, s: string)
    requires Coherent(g, root) && s in root.supports && Trusted(Plain(g), s)
    ensures !Returns(ViewFrom(g, root.id, states), root.id, s)
  {
    var v := ViewFrom(g, root.id, states);
    if Returns(v, root.id, s) {
      var path :| path != [] && path[0] == s && path[|path| - 1] == root.id && Chain(v, path);
      PlainChain(g, v, path);
      TrustDescends(Plain(g), path);
      TrustedIff(Plain(g), root.id);
      var circle := [root.id] + path;
      forall k | 0 <= k < |circle| - 1 ensures RestsOn(Plain(g), circle[k], circle[k + 1]) {
        if k > 0 { assert RestsOn(Plain(g), path[k - 1], path[k - 1 + 1]); }
      }
      OnCircleNotTrusted(Plain(g), circle, 0);
    }
  }

  // No trusted claim leads to one that is not.
  lemma UntrustedNeverReached(g: Graph, rootId: string, states: States, id: string)
    requires !Trusted(Plain(g), rootId) && Trusted(Plain(g), id)
    ensures !Returns(ViewFrom(g, rootId, states), rootId, id)
  {
    var v := ViewFrom(g, rootId, states);
    if Returns(v, rootId, id) {
      var path :| path != [] && path[0] == id && path[|path| - 1] == rootId && Chain(v, path);
      PlainChain(g, v, path);
      TrustDescends(Plain(g), path);
    }
  }

  // A root is accepted exactly when its supports are distinct, well-formed and trusted, unless
  // one of them leads back to the root's id.
  lemma Accepts(g: Graph, root: TrustClaim, before: States, after: States, ok: bool)
    requires CacheRight(g, before) && Walked(ViewFrom(g, root.id, before), root, before, after, ok)
    ensures ok <==>
      && IsClaimId(root.id) && Passed(Plain(g), root.supports)
      && forall s :: s in root.supports ==> !Returns(ViewFrom(g, root.id, before), root.id, s)
    ensures Coherent(g, root) ==> (ok <==> IsClaimId(root.id) && Passed(Plain(g), root.supports))
  {
    var v := ViewFrom(g, root.id, before);
    forall s | s in root.supports
      ensures Trusted(v, s) <==> Trusted(Plain(g), s) && !Returns(v, root.id, s)
      ensures Coherent(g, root) && Trusted(Plain(g), s) ==> !Returns(v, root.id, s)
    {
      WalkTrusts(g, root.id, before, s);
      if Coherent(g, root) && Trusted(Plain(g), s) { CoherentNeverReturns(g, root, before, s); }
    }
  }

  lemma {:induction false} LooseTrusts(g: Graph, rootId: string, states: States, n: nat, id: string)
    requires CacheRight(g, states) && TrustedIn(Plain(g), n, id)
    ensures TrustedIn(Loose(ViewFrom(g, rootId, states), rootId), n, id)
    decreases n
  {
    assert Trusted(Plain(g), id);
    forall s | s in g.claims[id].supports ensures TrustedIn(Loose(ViewFrom(g, rootId, states), rootId), n - 1, s) {
      LooseTrusts(g, rootId, states, n - 1, s);
    }
  }

  // Where the root was not marked, every mark is right.
  lemma UnmarkedIsRight(g: Graph, root: TrustClaim, before: States, after: States, ok: bool)
    requires CacheRight(g, before) && Walked(ViewFrom(g, root.id, before), root, before, after, ok)
    requires !RootMarked(root.id, after)
    ensures CacheRight(g, after)
  {
    forall id | id in after
      ensures after[id].Valid? ==> Trusted(Plain(g), id)
      ensures after[id].Invalid? ==> !Trusted(Plain(g), id)
    {
      WalkTrusts(g, root.id, before, id);
      if n: nat :| TrustedIn(Plain(g), n, id) { LooseTrusts(g, root.id, before, n, id); }
    }
  }

  // The decisions stay right exactly when the walk did not mark the root's id although a
  // trusted claim has it. So they do when the root was accepted, when no trusted claim has its
  // id, and for every coherent root; and they turn wrong when a root is refused whose supports
  // are all trusted: by `Accepts` such a root is incoherent and leads back to its own id.
  lemma CacheStaysRight(g: Graph, root: TrustClaim, before: States, after: States, ok: bool)
    requires CacheRight(g, before) && Walked(ViewFrom(g, root.id, before), root, before, after, ok)
    ensures CacheRight(g, after) <==> !(RootMarked(root.id, after) && Trusted(Plain(g), root.id))
    ensures ok || !Trusted(Plain(g), root.id) || Coherent(g, root) ==> CacheRight(g, after)
    ensures IsClaimId(root.id) && Passed(Plain(g), root.supports) && !ok ==> !CacheRight(g, after)
  {
    var v := ViewFrom(g, root.id, before);
    Accepts(g, root, before, after, ok);
    if Coherent(g, root) && Trusted(Plain(g), root.id) { TrustedIff(Plain(g), root.id); }
    if !RootMarked(root.id, after) { UnmarkedIsRight(g, root, before, after, ok); }
    forall id | id in after && id != root.id
      ensures after[id].Valid? ==> Trusted(Plain(g), id)
      ensures after[id].Invalid? && !Trusted(Plain(g), root.id) ==> !Trusted(Plain(g), id)
    {
      WalkTrusts(g, root.id, before, id);
      if Trusted(Plain(g), id) && !Trusted(Plain(g), root.id) { UntrustedNeverReached(g, root.id, before, id); }
    }
  }

  // ----- an incoherent root -----

  // Two stored claims, b resting on a.
  function TwoClaims(a: string, b: string): Graph {
    Graph(map[a := TrustClaim(a, true, []), b := TrustClaim(b, true, [a])], (c: TrustClaim) => true)
  }

  lemma BothTrusted(a: string, b: string)
    requires IsClaimId(a) && IsClaimId(b) && a != b
    ensures Trusted(Plain(TwoClaims(a, b)), a) && Trusted(Plain(TwoClaims(a, b)), b)
  {
    var v := Plain(TwoClaims(a, b));
    assert Stands(v.g, a) && v.g.claims[a].supports == [];
    assert Stands(v.g, b) && v.g.claims[b].supports == [a];
    TrustedIff(v, a);
    TrustedIff(v, b);
  }

  // A root that takes the id of a, but rests on b, is refused although b is trusted, and both
  // are marked; from then on a coherent root that rests on b is refused as well.
  method IncoherentRootMisleads(a: string, b: string, c: string) returns (first: bool, second: bool)
    requires IsClaimId(a) && IsClaimId(b) && IsClaimId(c) && Distinct([a, b, c])
    ensures Passed(Plain(TwoClaims(a, b)), [b]) && Coherent(TwoClaims(a, b), TrustClaim(c, true, [b]))
    ensures !first && !second
  {
    var g := TwoClaims(a, b);
    Distinct3(a, b, c);
    BothTrusted(a, b);
    var validator := new TrustValidator(g);
    ghost var before := validator.states;
    first := validator.ValidateClaim(TrustClaim(a, true, [b]));
    BLeadsBack(a, b);
    RefusedAndMarked(g, a, b, before, validator.states, first);
    ghost var middle := validator.states;
    second := validator.ValidateClaim(TrustClaim(c, true, [b]));
    MarkedIsRefused(g, c, b, middle, validator.states, second);
  }

  lemma Distinct3(a: string, b: string, c: string)
    requires Distinct([a, b, c])
    ensures a != b && b != c && a != c
  {
    var ids := [a, b, c];
    assert ids[0] != ids[1] && ids[1] != ids[2] && ids[0] != ids[2];
  }

  lemma BLeadsBack(a: string, b: string)
    requires a != b
    ensures Returns(ViewFrom(TwoClaims(a, b), a, map[]), a, b)
  {
    var v := ViewFrom(TwoClaims(a, b), a, map[]);
    ReturnsToItself(v, a);
    assert v.g.claims[b].supports == [a];
    ReturnsFrom(v, a, b, a);
  }

  lemma RefusedAndMarked(g: Graph, rootId: string, s: string, before: States, after: States, ok: bool)
    requires Walked(ViewFrom(g, rootId, before), TrustClaim(rootId, true, [s]), before, after, ok)
    requires IsClaimId(rootId) && IsClaimId(s) && Returns(ViewFrom(g, rootId, before), rootId, s)
    ensures !ok && s in after && after[s].Invalid?
  {
    ReturnsOrTrusted(ViewFrom(g, rootId, before), rootId, s);
    assert s in [s];
  }

  lemma MarkedIsRefused(g: Graph, rootId: string, s: string, before: States, after: States, ok: bool)
    requires Walked(ViewFrom(g, rootId, before), TrustClaim(rootId, true, [s]), before, after, ok)
    requires s in before && before[s].Invalid?
    ensures !ok
  {
    TrustedIff(ViewFrom(g, rootId, before), s);
    assert s in [s];
  }
}
