/** The byte string that is hashed into the action digest of a challenge, and why it binds
    everything the owner is asked to confirm. */
module ChallengeEncoding {
  import opened Wrappers
  import opened Ordering
  import opened Identifiers

  datatype ChallengeItem = ChallengeItem(claimId: string, canonicalDraftDigest: string)

  datatype ChallengePrepare = ChallengePrepare(
    workspace: string,
    operation: string,
    claimId: string,
    canonicalDraftDigest: string,
    supersededIds: seq<string>,
    priorVerificationDigest: string,
    revokeReason: string,
    items: seq<ChallengeItem>
  )

  type Bytes = seq<int>

  const U64_SIZE: nat := 0x1_0000_0000_0000_0000

  // Big-endian bytes of a number, most significant first.
  function BigEndian(n: nat, width: nat): Bytes {
    if width == 0 then [] else BigEndian(n / 256, width - 1) + [n % 256]
  }

  // Bytes in a machine word.
  const WORD: nat := 8

  function U64(n: nat): Bytes { BigEndian(n, WORD) }

  function Raw(s: string): Bytes {
    seq(|s|, i requires 0 <= i < |s| => s[i] as int)
  }

  function Field(s: string): Bytes {
    U64(|s|) + Raw(s)
  }

  function ItemFields(items: seq<ChallengeItem>): Bytes {
    if items == [] then []
    else Field(items[0].claimId) + (Field(items[0].canonicalDraftDigest) + ItemFields(items[1..]))
  }

  function JoinNul(ids: seq<string>): string {
    if ids == [] then "" else if |ids| == 1 then ids[0] else ids[0] + "\0" + JoinNul(ids[1..])
  }

  function SingleFields(p: ChallengePrepare): Bytes {
    Field(p.claimId) + (Field(p.canonicalDraftDigest) + (Field(JoinNul(Sort(p.supersededIds)))
      + (Field(p.priorVerificationDigest) + Field(p.revokeReason))))
  }

  function Encode(p: ChallengePrepare): Bytes {
    Field(p.workspace) + (Field(p.operation)
      + (if p.items != [] then U64(|p.items|) + ItemFields(p.items) else SingleFields(p)))
  }

  // Lengths are machine words.
  ghost predicate Fits(p: ChallengePrepare) {
    && |p.workspace| < U64_SIZE && |p.operation| < U64_SIZE && |p.claimId| < U64_SIZE
    && |p.canonicalDraftDigest| < U64_SIZE && |JoinNul(Sort(p.supersededIds))| < U64_SIZE
    && |p.priorVerificationDigest| < U64_SIZE && |p.revokeReason| < U64_SIZE
    && |p.items| < U64_SIZE
    && forall i :: 0 <= i < |p.items| ==>
         |p.items[i].claimId| < U64_SIZE && |p.items[i].canonicalDraftDigest| < U64_SIZE
  }

  // The ids of a challenge that passes validation are claim ids.
  ghost predicate IdsOk(p: ChallengePrepare) {
    if p.items != [] then forall i :: 0 <= i < |p.items| ==> IsClaimId(p.items[i].claimId)
    else IsClaimId(p.claimId) && forall id :: id in p.supersededIds ==> IsClaimId(id)
  }

  // ----- prefix codes -----

  function Bound(width: nat): nat {
    if width == 0 then 1 else 256 * Bound(width - 1)
  }

  lemma {:induction false} BigEndianInjective(m: nat, n: nat, width: nat)
    requires m < Bound(width) && n < Bound(width) && BigEndian(m, width) == BigEndian(n, width)
    ensures m == n
  {
    if width > 0 {
      var a, b := BigEndian(m / 256, width - 1), BigEndian(n / 256, width - 1);
      BigEndianLength(m / 256, width - 1);
      BigEndianLength(n / 256, width - 1);
      assert (a + [m % 256])[width - 1] == m % 256 && (b + [n % 256])[width - 1] == n % 256;
      assert (a + [m % 256])[..width - 1] == a && (b + [n % 256])[..width - 1] == b;
      BigEndianInjective(m / 256, n / 256, width - 1);
      assert m == 256 * (m / 256) + m % 256 && n == 256 * (n / 256) + n % 256;
    }
  }

  lemma {:induction false} BigEndianLength(n: nat, width: nat)
    ensures |BigEndian(n, width)| == width
  {
    if width > 0 { BigEndianLength(n / 256, width - 1); }
  }

  lemma BoundOfU64()
    ensures Bound(8) == U64_SIZE
  {
    assert Bound(2) == 0x1_0000;
    assert Bound(4) == 0x1_0000_0000;
    assert Bound(6) == 0x1_0000_0000_0000;
  }

  lemma U64Injective(m: nat, n: nat, x: Bytes, y: Bytes)
    requires m < U64_SIZE && n < U64_SIZE && U64(m) + x == U64(n) + y
    ensures m == n && x == y
  {
    BigEndianLength(m, 8);
    BigEndianLength(n, 8);
    BoundOfU64();
    assert (U64(m) + x)[..8] == U64(m) && (U64(n) + y)[..8] == U64(n);
    BigEndianInjective(m, n, 8);
    assert (U64(m) + x)[8..] == x && (U64(n) + y)[8..] == y;
  }

  lemma FieldInjective(a: string, b: string, x: Bytes, y: Bytes)
    requires |a| < U64_SIZE && |b| < U64_SIZE && Field(a) + x == Field(b) + y
    ensures a == b && x == y
  {
    assert Field(a) + x == U64(|a|) + (Raw(a) + x) && Field(b) + y == U64(|b|) + (Raw(b) + y);
    U64Injective(|a|, |b|, Raw(a) + x, Raw(b) + y);
    assert (Raw(a) + x)[|a|..] == x && (Raw(b) + y)[|b|..] == y;
    forall i | 0 <= i < |a| ensures a[i] == b[i] {
      assert (Raw(a) + x)[i] == a[i] as int && (Raw(b) + y)[i] == b[i] as int;
    }
  }

  lemma {:induction false} ItemsInjective(a: seq<ChallengeItem>, b: seq<ChallengeItem>)
    requires |a| == |b| && ItemFields(a) == ItemFields(b)
    requires forall i :: 0 <= i < |a| ==> |a[i].claimId| < U64_SIZE && |a[i].canonicalDraftDigest| < U64_SIZE
    requires forall i :: 0 <= i < |b| ==> |b[i].claimId| < U64_SIZE && |b[i].canonicalDraftDigest| < U64_SIZE
    ensures a == b
  {
    if a != [] {
      var x, y := Field(a[0].canonicalDraftDigest) + ItemFields(a[1..]),
        Field(b[0].canonicalDraftDigest) + ItemFields(b[1..]);
      FieldInjective(a[0].claimId, b[0].claimId, x, y);
      FieldInjective(a[0].canonicalDraftDigest, b[0].canonicalDraftDigest, ItemFields(a[1..]), ItemFields(b[1..]));
      ItemsInjective(a[1..], b[1..]);
      assert a == [a[0]] + a[1..] && b == [b[0]] + b[1..];
    }
  }

  // Claim ids all have the same length, so the joined text splits in one way only.
  lemma {:induction false} JoinInjective(a: seq<string>, b: seq<string>)
    requires forall id :: id in a ==> IsClaimId(id)
    requires forall id :: id in b ==> IsClaimId(id)
    requires JoinNul(a) == JoinNul(b)
    ensures a == b
  {
    JoinLength(a);
    JoinLength(b);
    if a != [] {
      assert a[0] in a && b[0] in b;
      assert JoinNul(a)[..36] == a[0] && JoinNul(b)[..36] == b[0];
      if |a| > 1 {
        assert JoinNul(a)[37..] == JoinNul(a[1..]) && JoinNul(b)[37..] == JoinNul(b[1..]);
        JoinInjective(a[1..], b[1..]);
      }
      assert a == [a[0]] + a[1..] && b == [b[0]] + b[1..];
    }
  }

  lemma {:induction false} JoinLength(a: seq<string>)
    requires forall id :: id in a ==> IsClaimId(id)
    ensures |JoinNul(a)| == if a == [] then 0 else 37 * |a| - 1
  {
    if a != [] {
      assert a[0] in a;
      JoinLength(a[1..]);
    }
  }

  // ----- the theorems -----

  // Same superseded ids up to order; the ids are sorted before they are hashed.
  ghost predicate SameAction(p: ChallengePrepare, q: ChallengePrepare) {
    && p.workspace == q.workspace && p.operation == q.operation && p.items == q.items
    && (p.items == [] ==>
          && p.claimId == q.claimId && p.canonicalDraftDigest == q.canonicalDraftDigest
          && p.priorVerificationDigest == q.priorVerificationDigest && p.revokeReason == q.revokeReason
          && multiset(p.supersededIds) == multiset(q.supersededIds))
  }

  lemma SingleInjective(p: ChallengePrepare, q: ChallengePrepare)
    requires Fits(p) && Fits(q) && IdsOk(p) && IdsOk(q) && p.items == [] && q.items == []
    requires SingleFields(p) == SingleFields(q)
    ensures p.claimId == q.claimId && p.canonicalDraftDigest == q.canonicalDraftDigest
    ensures p.priorVerificationDigest == q.priorVerificationDigest && p.revokeReason == q.revokeReason
    ensures multiset(p.supersededIds) == multiset(q.supersededIds)
  {
    var p5, q5 := Field(p.revokeReason), Field(q.revokeReason);
    var p4, q4 := Field(p.priorVerificationDigest) + p5, Field(q.priorVerificationDigest) + q5;
    var ps, qs := Sort(p.supersededIds), Sort(q.supersededIds);
    var p3, q3 := Field(JoinNul(ps)) + p4, Field(JoinNul(qs)) + q4;
    var p2, q2 := Field(p.canonicalDraftDigest) + p3, Field(q.canonicalDraftDigest) + q3;
    FieldInjective(p.claimId, q.claimId, p2, q2);
    FieldInjective(p.canonicalDraftDigest, q.canonicalDraftDigest, p3, q3);
    FieldInjective(JoinNul(ps), JoinNul(qs), p4, q4);
    FieldInjective(p.priorVerificationDigest, q.priorVerificationDigest, p5, q5);
    assert p5 + [] == p5 && q5 + [] == q5;
    FieldInjective(p.revokeReason, q.revokeReason, [], []);
    forall id | id in ps ensures IsClaimId(id) { SortMembers(p.supersededIds, Self, id); }
    forall id | id in qs ensures IsClaimId(id) { SortMembers(q.supersededIds, Self, id); }
    JoinInjective(ps, qs);
    SortByContents(p.supersededIds, q.supersededIds);
  }

  // The byte 'c' of a claim id stands where a batch has the high byte of a length.
  lemma BatchIsNotSingle(p: ChallengePrepare, q: ChallengePrepare)
    requires Fits(p) && Fits(q) && IdsOk(p) && IdsOk(q) && p.items != [] && q.items == []
    ensures U64(|p.items|) + ItemFields(p.items) != SingleFields(q)
  {
    var rest := Field(q.canonicalDraftDigest) + (Field(JoinNul(Sort(q.supersededIds)))
      + (Field(q.priorVerificationDigest) + Field(q.revokeReason)));
    var tail := Raw(q.claimId) + rest;
    assert SingleFields(q) == U64(36) + tail;
    assert tail[0] == 'c' as int by {
      assert q.claimId[..4][0] == 'c';
    }
    assert IsClaimId(p.items[0].claimId);
    BigEndianLength(36, 8);
    HighByteOf36();
    assert ItemFields(p.items)[0] == 0;
    if U64(|p.items|) + ItemFields(p.items) == SingleFields(q) {
      U64Injective(|p.items|, 36, ItemFields(p.items), tail);
    }
  }

  lemma HighByteOf36()
    ensures U64(36)[0] == 0
  {
    assert BigEndian(0, 3) == [0, 0, 0] by {
      assert BigEndian(0, 1) == [0];
      assert BigEndian(0, 2) == [0, 0];
    }
    assert BigEndian(0, 6)[0] == 0 by {
      assert BigEndian(0, 4)[0] == 0;
      assert BigEndian(0, 5)[0] == 0;
    }
    BigEndianLength(0, 6);
    BigEndianLength(0, 7);
    assert BigEndian(0, 7)[0] == 0;
  }

  // Equal byte strings mean the same action.
  lemma EncodeInjective(p: ChallengePrepare, q: ChallengePrepare)
    requires Fits(p) && Fits(q) && IdsOk(p) && IdsOk(q)
    ensures Encode(p) == Encode(q) <==> SameAction(p, q)
  {
    if Encode(p) == Encode(q) {
      var pr := if p.items != [] then U64(|p.items|) + ItemFields(p.items) else SingleFields(p);
      var qr := if q.items != [] then U64(|q.items|) + ItemFields(q.items) else SingleFields(q);
      FieldInjective(p.workspace, q.workspace, Field(p.operation) + pr, Field(q.operation) + qr);
      FieldInjective(p.operation, q.operation, pr, qr);
      if p.items != [] && q.items != [] {
        U64Injective(|p.items|, |q.items|, ItemFields(p.items), ItemFields(q.items));
        ItemsInjective(p.items, q.items);
      } else if p.items == [] && q.items == [] {
        SingleInjective(p, q);
      } else if p.items != [] {
        BatchIsNotSingle(p, q);
      } else {
        BatchIsNotSingle(q, p);
      }
    }
    if SameAction(p, q) && p.items == [] {
      SortByContents(p.supersededIds, q.supersededIds);
    }
  }

  // ----- reading the bytes back -----

  function Number(b: Bytes): int {
    if b == [] then 0 else 256 * Number(b[..|b| - 1]) + b[|b| - 1]
  }

  // The bytes that a length of eight bytes announces, and what follows them.
  function TakeField(b: Bytes): Option<(Bytes, Bytes)> {
    if |b| < 8 then None
    else
      var n := Number(b[..8]);
      if 0 <= n <= |b| - 8 then Some((b[8..8 + n], b[8 + n..])) else None
  }

  function TakeFields(b: Bytes, k: nat): Option<(seq<Bytes>, Bytes)> {
    if k == 0 then Some(([], b))
    else
      match TakeField(b)
      case None => None
      case Some((field, rest)) =>
        match TakeFields(rest, k - 1)
        case None => None
        case Some((fields, end)) => Some(([field] + fields, end))
  }

  lemma {:induction false} NumberReads(n: nat, width: nat)
    requires n < Bound(width)
    ensures Number(BigEndian(n, width)) == n
  {
    if width > 0 {
      var high := BigEndian(n / 256, width - 1);
      NumberReads(n / 256, width - 1);
      assert (high + [n % 256])[..|high|] == high;
    }
  }

  lemma U64Reads(n: nat, rest: Bytes)
    requires n < U64_SIZE
    ensures |U64(n) + rest| >= 8 && Number((U64(n) + rest)[..8]) == n && (U64(n) + rest)[8..] == rest
  {
    BigEndianLength(n, 8);
    BoundOfU64();
    NumberReads(n, 8);
    assert (U64(n) + rest)[..8] == U64(n);
  }

  lemma FieldReads(s: string, rest: Bytes)
    requires |s| < U64_SIZE
    ensures TakeField(Field(s) + rest) == Some((Raw(s), rest))
  {
    var b := U64(|s|) + (Raw(s) + rest);
    assert Field(s) + rest == b;
    U64Reads(|s|, Raw(s) + rest);
    assert b[8..] == Raw(s) + rest;
    assert b[8..8 + |s|] == b[8..][..|s|] == Raw(s) && b[8 + |s|..] == b[8..][|s|..] == rest;
  }

  function Raws(texts: seq<string>): seq<Bytes> {
    seq(|texts|, i requires 0 <= i < |texts| => Raw(texts[i]))
  }

  function Fields(texts: seq<string>): Bytes {
    if texts == [] then [] else Field(texts[0]) + Fields(texts[1..])
  }

  lemma FieldsCons(text: string, texts: seq<string>)
    ensures Fields([text] + texts) == Field(text) + Fields(texts)
  {
    assert ([text] + texts)[1..] == texts;
  }

  lemma TakeStep(b: Bytes, k: nat, field: Bytes, mid: Bytes, fields: seq<Bytes>, rest: Bytes)
    requires TakeField(b) == Some((field, mid)) && TakeFields(mid, k) == Some((fields, rest))
    ensures TakeFields(b, k + 1) == Some(([field] + fields, rest))
  {
  }

  lemma FieldFirst(text: string, tail: Bytes, rest: Bytes, k: nat, fields: seq<Bytes>)
    requires |text| < U64_SIZE && TakeFields(tail + rest, k) == Some((fields, rest))
    ensures TakeFields((Field(text) + tail) + rest, k + 1) == Some(([Raw(text)] + fields, rest))
  {
    FieldReads(text, tail + rest);
    assert (Field(text) + tail) + rest == Field(text) + (tail + rest);
    TakeStep((Field(text) + tail) + rest, k, Raw(text), tail + rest, fields, rest);
  }

  lemma {:induction false} FieldsRead(texts: seq<string>, rest: Bytes)
    requires forall text :: text in texts ==> |text| < U64_SIZE
    ensures TakeFields(Fields(texts) + rest, |texts|) == Some((Raws(texts), rest))
  {
    if texts == [] {
      assert Fields(texts) + rest == rest;
    } else {
      var n := |texts| - 1;
      FieldsRead(texts[1..], rest);
      FieldFirst(texts[0], Fields(texts[1..]), rest, n, Raws(texts[1..]));
      assert Raws(texts) == [Raw(texts[0])] + Raws(texts[1..]);
    }
  }

  // Bytes that are nothing but the fields of these texts read back as the texts.
  lemma ReadsBack(b: Bytes, texts: seq<string>)
    requires b == Fields(texts) && forall text :: text in texts ==> |text| < U64_SIZE
    ensures TakeFields(b, |texts|) == Some((Raws(texts), []))
  {
    FieldsRead(texts, []);
    assert b + [] == b;
  }

  // The texts that are hashed for a challenge of one claim, in order.
  function SingleTexts(p: ChallengePrepare): seq<string> {
    [p.workspace] + ([p.operation] + ([p.claimId] + ([p.canonicalDraftDigest]
      + ([JoinWith(Sort(p.supersededIds), "\0")] + ([p.priorVerificationDigest] + ([p.revokeReason] + []))))))
  }

  // Those of the items of a batch.
  function ItemTexts(items: seq<ChallengeItem>): seq<string> {
    if items == [] then [] else [items[0].claimId] + ([items[0].canonicalDraftDigest] + ItemTexts(items[1..]))
  }

  lemma {:induction false} ItemsAreFields(items: seq<ChallengeItem>)
    ensures ItemFields(items) == Fields(ItemTexts(items))
  {
    if items != [] {
      var rest := ItemTexts(items[1..]);
      ItemsAreFields(items[1..]);
      FieldsCons(items[0].canonicalDraftDigest, rest);
      FieldsCons(items[0].claimId, [items[0].canonicalDraftDigest] + rest);
    }
  }

  lemma {:induction false} ItemTextsAre(items: seq<ChallengeItem>)
    ensures |ItemTexts(items)| == 2 * |items|
    ensures forall i :: 0 <= i < |items| ==>
      ItemTexts(items)[2 * i] == items[i].claimId && ItemTexts(items)[2 * i + 1] == items[i].canonicalDraftDigest
  {
    if items != [] {
      ItemTextsAre(items[1..]);
      var rest := ItemTexts(items[1..]);
      forall i | 0 < i < |items|
        ensures ItemTexts(items)[2 * i] == items[i].claimId
        ensures ItemTexts(items)[2 * i + 1] == items[i].canonicalDraftDigest
      {
        assert ItemTexts(items)[2 * i] == rest[2 * (i - 1)] && ItemTexts(items)[2 * i + 1] == rest[2 * (i - 1) + 1];
        assert items[i] == items[1..][i - 1];
      }
    }
  }

  lemma ItemTextsFit(items: seq<ChallengeItem>, text: string)
    requires forall i :: 0 <= i < |items| ==>
      |items[i].claimId| < U64_SIZE && |items[i].canonicalDraftDigest| < U64_SIZE
    requires text in ItemTexts(items)
    ensures |text| < U64_SIZE
  {
    ItemTextsAre(items);
    var k :| 0 <= k < |ItemTexts(items)| && ItemTexts(items)[k] == text;
    assert k == 2 * (k / 2) || k == 2 * (k / 2) + 1;
  }

  lemma SingleIsFields(p: ChallengePrepare)
    requires p.items == []
    ensures Encode(p) == Fields(SingleTexts(p))
  {
    var ids := JoinWith(Sort(p.supersededIds), "\0");
    JoinNulIs(Sort(p.supersededIds));
    var t1 := [p.revokeReason] + [];
    var t2 := [p.priorVerificationDigest] + t1;
    var t3 := [ids] + t2;
    var t4 := [p.canonicalDraftDigest] + t3;
    var t5 := [p.claimId] + t4;
    var t6 := [p.operation] + t5;
    FieldsCons(p.revokeReason, []);
    assert Field(p.revokeReason) + [] == Field(p.revokeReason);
    FieldsCons(p.priorVerificationDigest, t1);
    FieldsCons(ids, t2);
    FieldsCons(p.canonicalDraftDigest, t3);
    FieldsCons(p.claimId, t4);
    FieldsCons(p.operation, t5);
    FieldsCons(p.workspace, t6);
  }

  // The bytes of a challenge of one claim read back as those texts.
  lemma SingleReads(p: ChallengePrepare)
    requires Fits(p) && p.items == []
    ensures TakeFields(Encode(p), |SingleTexts(p)|) == Some((Raws(SingleTexts(p)), []))
  {
    SingleIsFields(p);
    SingleTextsFit(p);
    ReadsBack(Encode(p), SingleTexts(p));
  }

  lemma SingleTextsFit(p: ChallengePrepare)
    requires Fits(p)
    ensures forall text :: text in SingleTexts(p) ==> |text| < U64_SIZE
  {
    JoinNulIs(Sort(p.supersededIds));
  }

  // Those of a batch read back as the workspace, the operation, the number of the items and two
  // texts for each of them.
  lemma BatchReads(p: ChallengePrepare) returns (rest: Bytes)
    requires Fits(p) && p.items != []
    ensures var head := [p.workspace, p.operation]; TakeFields(Encode(p), |head|) == Some((Raws(head), rest))
    ensures |rest| >= 8 && Number(rest[..8]) == |p.items|
    ensures TakeFields(rest[8..], 2 * |p.items|) == Some((Raws(ItemTexts(p.items)), []))
  {
    rest := U64(|p.items|) + ItemFields(p.items);
    U64Reads(|p.items|, ItemFields(p.items));
    ItemsRead(p.items);
    BatchHead(p);
    FieldsRead([p.workspace, p.operation], rest);
  }

  lemma BatchHead(p: ChallengePrepare)
    requires p.items != []
    ensures Encode(p) == Fields([p.workspace, p.operation]) + (U64(|p.items|) + ItemFields(p.items))
  {
    var rest := U64(|p.items|) + ItemFields(p.items);
    FieldsPair(p.workspace, p.operation);
    assert Field(p.workspace) + (Field(p.operation) + rest) == (Field(p.workspace) + Field(p.operation)) + rest;
  }

  lemma FieldsPair(a: string, b: string)
    ensures Fields([a, b]) == Field(a) + Field(b)
  {
    FieldsCons(b, []);
    FieldsCons(a, [b]);
    assert [b] + [] == [b] && [a] + [b] == [a, b] && Field(b) + [] == Field(b);
  }

  lemma ItemsRead(items: seq<ChallengeItem>)
    requires forall i :: 0 <= i < |items| ==>
      |items[i].claimId| < U64_SIZE && |items[i].canonicalDraftDigest| < U64_SIZE
    ensures TakeFields(ItemFields(items), 2 * |items|) == Some((Raws(ItemTexts(items)), []))
  {
    ItemsAreFields(items);
    ItemTextsAre(items);
    forall text | text in ItemTexts(items) ensures |text| < U64_SIZE { ItemTextsFit(items, text); }
    ReadsBack(ItemFields(items), ItemTexts(items));
  }

  lemma {:induction false} JoinNulIs(ids: seq<string>)
    ensures JoinNul(ids) == JoinWith(ids, "\0")
  {
    if |ids| > 1 { JoinNulIs(ids[1..]); }
  }

  // The stored record keeps the ids sorted; hashing it again gives the same bytes.
  lemma StoredRederives(p: ChallengePrepare)
    ensures Encode(p.(supersededIds := Sort(p.supersededIds))) == Encode(p)
  {
    SortTwice(p.supersededIds);
  }
}
