/** The byte strings hashed into the digest of an evidence snapshot and into the digest of a
    quoted span, and why they bind all that goes into them. */
module EvidenceDigest {
  import opened Wrappers
  import opened Identifiers
  import opened Digests

  // ----- decimal numbers -----

  function Digit(d: nat): char
    requires d < 10
  {
    ('0' as int + d) as char
  }

  function Digits(n: nat): string {
    if n < 10 then [Digit(n)] else Digits(n / 10) + [Digit(n % 10)]
  }

  function Decimal(n: int): string {
    if n < 0 then "-" + Digits(-n) else Digits(n)
  }

  lemma {:induction false} DigitsAre(n: nat)
    ensures Digits(n) != "" && (n >= 10 ==> |Digits(n)| >= 2)
    ensures forall i :: 0 <= i < |Digits(n)| ==> '0' <= Digits(n)[i] <= '9'
  {
    if n >= 10 { DigitsAre(n / 10); }
  }

  lemma {:induction false} DigitsInjective(m: nat, n: nat)
    requires Digits(m) == Digits(n)
    ensures m == n
  {
    DigitsAre(m);
    DigitsAre(n);
    if m >= 10 && n >= 10 {
      var a, b := Digits(m / 10), Digits(n / 10);
      assert Digits(m)[..|a|] == a && Digits(n)[..|b|] == b;
      assert Digits(m)[|a|] == Digit(m % 10) && Digits(n)[|b|] == Digit(n % 10);
      DigitsInjective(m / 10, n / 10);
    } else {
      assert Digits(m)[0] == Digits(n)[0];
    }
  }

  lemma DecimalInjective(m: int, n: int)
    requires Decimal(m) == Decimal(n)
    ensures m == n
  {
    SignShows(m);
    SignShows(n);
    if m < 0 && n < 0 {
      assert Decimal(m)[1..] == Digits(-m) && Decimal(n)[1..] == Digits(-n);
      DigitsInjective(-m, -n);
    } else if m >= 0 && n >= 0 {
      DigitsInjective(m, n);
    }
  }

  lemma SignShows(n: int)
    ensures Decimal(n) != "" && (Decimal(n)[0] == '-' <==> n < 0)
    ensures '\n' !in Decimal(n) && (n >= 0 ==> '-' !in Decimal(n))
  {
    DigitsAre(if n < 0 then -n else n);
  }

  // ----- fields that end at their first stop -----

  lemma FirstStop(stop: char, a: string, x: string, b: string, y: string)
    requires stop !in a && stop !in b && a + ([stop] + x) == b + ([stop] + y)
    ensures a == b && x == y
  {
    var s, t := a + ([stop] + x), b + ([stop] + y);
    assert s[|a|] == stop && t[|b|] == stop;
    assert forall k :: 0 <= k < |a| ==> s[k] == a[k];
    assert forall k :: 0 <= k < |b| ==> t[k] == b[k];
    assert s[..|a|] == a && t[..|b|] == b && s[|a| + 1..] == x && t[|b| + 1..] == y;
  }

  lemma SamePrefix(p: string, x: string, y: string)
    requires p + x == p + y
    ensures x == y
  {
    assert (p + x)[|p|..] == x && (p + y)[|p|..] == y;
  }

  // ----- reading the fields back -----

  function Behind(prefix: string, s: string): Option<string> {
    if StartsWith(s, prefix) then Some(s[|prefix|..]) else None
  }

  // What stands before the first stop, and what follows it.
  function UpTo(stop: char, s: string): (string, string) {
    if s == "" then ("", "")
    else if s[0] == stop then ("", s[1..])
    else
      var (a, b) := UpTo(stop, s[1..]);
      ([s[0]] + a, b)
  }

  function Value(digits: string): int {
    if digits == "" then 0
    else 10 * Value(digits[..|digits| - 1]) + (digits[|digits| - 1] as int - '0' as int)
  }

  lemma BehindIs(prefix: string, s: string)
    ensures Behind(prefix, prefix + s) == Some(s)
  {
    assert (prefix + s)[..|prefix|] == prefix && (prefix + s)[|prefix|..] == s;
  }

  lemma {:induction false} UpToIs(stop: char, a: string, b: string)
    requires stop !in a
    ensures UpTo(stop, a + ([stop] + b)) == (a, b)
  {
    var s := a + ([stop] + b);
    if a == "" {
      assert s == [stop] + b && s[1..] == b;
    } else {
      UpToIs(stop, a[1..], b);
      assert s[1..] == a[1..] + ([stop] + b) && s[0] == a[0];
      assert [a[0]] + a[1..] == a;
    }
  }

  lemma {:induction false} ValueReads(n: nat)
    ensures Value(Decimal(n)) == n
  {
    var digits := Digits(n);
    assert digits[|digits| - 1] == Digit(n % 10);
    if n >= 10 {
      ValueReads(n / 10);
      assert digits[..|digits| - 1] == Digits(n / 10);
    }
  }

  // ----- snapshots -----

  function SnapshotTail(byteLength: int, sha256: string): string {
    "\nraw-byte-length:" + (Decimal(byteLength) + ("\n" + ("raw-sha256:" + (sha256 + "\n"))))
  }

  // The metadata file follows its own length; what comes after has a fixed shape.
  function SnapshotBytes(metadata: string, byteLength: int, sha256: string): string {
    "zbrain.evidence/v1\nmetadata-length:"
      + (Decimal(|metadata|) + ("\n" + (metadata + SnapshotTail(byteLength, sha256))))
  }

  lemma TailInjective(m: int, g: string, n: int, h: string)
    requires SnapshotTail(m, g) == SnapshotTail(n, h)
    ensures m == n && g == h
  {
    var restM, restN := "raw-sha256:" + (g + "\n"), "raw-sha256:" + (h + "\n");
    SamePrefix("\nraw-byte-length:", Decimal(m) + ("\n" + restM), Decimal(n) + ("\n" + restN));
    SignShows(m);
    SignShows(n);
    FirstStop('\n', Decimal(m), restM, Decimal(n), restN);
    DecimalInjective(m, n);
    SamePrefix("raw-sha256:", g + "\n", h + "\n");
    assert (g + "\n")[..|g|] == g && (h + "\n")[..|h|] == h;
  }

  // Equal byte strings mean equal metadata, recorded length and raw hash.
  lemma SnapshotBytesInjective(a: string, m: int, g: string, b: string, n: int, h: string)
    requires SnapshotBytes(a, m, g) == SnapshotBytes(b, n, h)
    ensures a == b && m == n && g == h
  {
    var x, y := a + SnapshotTail(m, g), b + SnapshotTail(n, h);
    SamePrefix("zbrain.evidence/v1\nmetadata-length:", Decimal(|a|) + ("\n" + x), Decimal(|b|) + ("\n" + y));
    SignShows(|a|);
    SignShows(|b|);
    FirstStop('\n', Decimal(|a|), x, Decimal(|b|), y);
    DecimalInjective(|a|, |b|);
    assert x[..|a|] == a && y[..|b|] == b && x[|a|..] == SnapshotTail(m, g) && y[|b|..] == SnapshotTail(n, h);
    TailInjective(m, g, n, h);
  }

  function ReadSnapshot(text: string): Option<(string, int, string)> {
    match Behind("zbrain.evidence/v1\nmetadata-length:", text)
    case None => None
    case Some(x) =>
      var (size, y) := UpTo('\n', x);
      if !(0 <= Value(size) <= |y|) then None
      else
        var metadata := y[..Value(size)];
        match Behind("\nraw-byte-length:", y[Value(size)..])
        case None => None
        case Some(z) =>
          var (byteLength, w) := UpTo('\n', z);
          match Behind("raw-sha256:", w)
          case None => None
          case Some(hash) => Some((metadata, Value(byteLength), UpTo('\n', hash).0))
  }

  // The fields are read back from the bytes.
  lemma SnapshotReads(metadata: string, byteLength: nat, sha256: string)
    requires '\n' !in sha256
    ensures ReadSnapshot(SnapshotBytes(metadata, byteLength, sha256)) == Some((metadata, byteLength, sha256))
  {
    var w := "raw-sha256:" + (sha256 + "\n");
    var z := Decimal(byteLength) + ("\n" + w);
    var y := metadata + SnapshotTail(byteLength, sha256);
    BehindIs("zbrain.evidence/v1\nmetadata-length:", Decimal(|metadata|) + ("\n" + y));
    SignShows(|metadata|);
    UpToIs('\n', Decimal(|metadata|), y);
    ValueReads(|metadata|);
    assert y[..|metadata|] == metadata && y[|metadata|..] == "\nraw-byte-length:" + z;
    BehindIs("\nraw-byte-length:", z);
    SignShows(byteLength);
    UpToIs('\n', Decimal(byteLength), w);
    ValueReads(byteLength);
    BehindIs("raw-sha256:", sha256 + "\n");
    UpToIs('\n', sha256, "");
    assert sha256 + (['\n'] + "") == sha256 + "\n";
  }

  const SNAPSHOT_PREFIX: string := "sha256:evidence-v1:"

  function SnapshotDigest(hash: Hash, metadata: string, byteLength: int, sha256: ContentDigest): string {
    SNAPSHOT_PREFIX + hash(SnapshotBytes(metadata, byteLength, TextOf(hash, sha256)))
  }

  lemma SnapshotDigestInjective(hash: Hash, a: string, m: int, x: string, b: string, n: int, y: string)
    requires IsHash(hash) && SnapshotDigest(hash, a, m, Sha256(x)) == SnapshotDigest(hash, b, n, Sha256(y))
    ensures a == b && m == n && x == y
  {
    var p, q := SnapshotBytes(a, m, hash(x)), SnapshotBytes(b, n, hash(y));
    SamePrefix(SNAPSHOT_PREFIX, hash(p), hash(q));
    SnapshotBytesInjective(a, m, hash(x), b, n, hash(y));
  }

  lemma SnapshotDigestOneLine(hash: Hash, metadata: string, byteLength: int, sha256: ContentDigest)
    requires IsHash(hash)
    ensures '\n' !in SnapshotDigest(hash, metadata, byteLength, sha256)
  {
    var text := hash(SnapshotBytes(metadata, byteLength, TextOf(hash, sha256)));
    assert forall i :: 0 <= i < |text| ==> LowerHex(text[i]);
  }

  // ----- spans -----

  function SpanBytes(snapshot: string, start: int, end: int, bytes: string): string {
    "zbrain.span/v1\nsnapshot:" + (snapshot
      + ("\n" + ("range:" + (Decimal(start) + ("-" + (Decimal(end) + ("\n" + bytes)))))))
  }

  // Equal byte strings mean the same snapshot, the same lines and the same quoted bytes.
  lemma SpanBytesInjective(s: string, i: int, j: int, x: string, t: string, k: int, l: int, y: string)
    requires '\n' !in s && '\n' !in t && i >= 0 && k >= 0
    requires SpanBytes(s, i, j, x) == SpanBytes(t, k, l, y)
    ensures s == t && i == k && j == l && x == y
  {
    var endX, endY := Decimal(j) + ("\n" + x), Decimal(l) + ("\n" + y);
    var rangeX, rangeY := "range:" + (Decimal(i) + ("-" + endX)), "range:" + (Decimal(k) + ("-" + endY));
    SamePrefix("zbrain.span/v1\nsnapshot:", s + ("\n" + rangeX), t + ("\n" + rangeY));
    FirstStop('\n', s, rangeX, t, rangeY);
    SamePrefix("range:", Decimal(i) + ("-" + endX), Decimal(k) + ("-" + endY));
    SignShows(i);
    SignShows(k);
    FirstStop('-', Decimal(i), endX, Decimal(k), endY);
    SignShows(j);
    SignShows(l);
    FirstStop('\n', Decimal(j), x, Decimal(l), y);
    DecimalInjective(i, k);
    DecimalInjective(j, l);
  }

  function ReadSpan(text: string): Option<(string, int, int, string)> {
    match Behind("zbrain.span/v1\nsnapshot:", text)
    case None => None
    case Some(x) =>
      var (snapshot, y) := UpTo('\n', x);
      match Behind("range:", y)
      case None => None
      case Some(z) =>
        var (start, w) := UpTo('-', z);
        var (end, bytes) := UpTo('\n', w);
        Some((snapshot, Value(start), Value(end), bytes))
  }

  lemma SpanReads(snapshot: string, start: nat, end: nat, bytes: string)
    requires '\n' !in snapshot
    ensures ReadSpan(SpanBytes(snapshot, start, end, bytes)) == Some((snapshot, start, end, bytes))
  {
    var w := Decimal(end) + ("\n" + bytes);
    var z := Decimal(start) + ("-" + w);
    BehindIs("zbrain.span/v1\nsnapshot:", snapshot + ("\n" + ("range:" + z)));
    UpToIs('\n', snapshot, "range:" + z);
    BehindIs("range:", z);
    SignShows(start);
    UpToIs('-', Decimal(start), w);
    SignShows(end);
    UpToIs('\n', Decimal(end), bytes);
    ValueReads(start);
    ValueReads(end);
  }

  const SPAN_PREFIX: string := "sha256:span-v1:"

  function SpanDigest(hash: Hash, snapshot: string, start: int, end: int, bytes: string): string {
    SPAN_PREFIX + hash(SpanBytes(snapshot, start, end, bytes))
  }

  lemma SpanDigestInjective(hash: Hash, s: string, i: int, j: int, x: string, t: string, k: int, l: int, y: string)
    requires IsHash(hash) && '\n' !in s && '\n' !in t && i >= 0 && k >= 0
    requires SpanDigest(hash, s, i, j, x) == SpanDigest(hash, t, k, l, y)
    ensures s == t && i == k && j == l && x == y
  {
    SamePrefix(SPAN_PREFIX, hash(SpanBytes(s, i, j, x)), hash(SpanBytes(t, k, l, y)));
    SpanBytesInjective(s, i, j, x, t, k, l, y);
  }
}
