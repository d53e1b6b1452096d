/** Prefixed random identifiers and the text tests the records use.

    An identifier is a four-letter prefix and thirty-two lower-case hexadecimal digits. Lists
    of them are checked for repetition by walking a sorted copy with a set of the ids seen so
    far; the lemmas here relate that walk, and counting, to plain distinctness. */
module Identifiers {
  import opened Ordering

  predicate LowerHex(c: char) {
    '0' <= c <= '9' || 'a' <= c <= 'f'
  }

  predicate StartsWith(s: string, prefix: string) {
    |prefix| <= |s| && s[..|prefix|] == prefix
  }

  predicate HasIdPrefix(value: string, prefix: string) {
    StartsWith(value, prefix) && |value| == |prefix| + 32
    && forall i :: |prefix| <= i < |value| ==> LowerHex(value[i])
  }

  predicate IsClaimId(value: string) { HasIdPrefix(value, "clm_") }

  predicate IsEvidenceId(value: string) { HasIdPrefix(value, "evd_") }

  predicate IsChallengeId(value: string) { HasIdPrefix(value, "chg_") }

  predicate IsCampaignId(value: string) { HasIdPrefix(value, "cmp_") }

  // ASCII white space.
  predicate Blank(c: char) {
    c == ' ' || '\t' <= c <= '\r'
  }

  predicate IsBlank(s: string) {
    forall i :: 0 <= i < |s| ==> Blank(s[i])
  }

  // Text without white space at either end.
  function TrimStart(s: string): string {
    if s != "" && Blank(s[0]) then TrimStart(s[1..]) else s
  }

  function TrimEnd(s: string): string {
    if s != "" && Blank(s[|s| - 1]) then TrimEnd(s[..|s| - 1]) else s
  }

  function Trim(s: string): string { TrimEnd(TrimStart(s)) }

  // `t` is the text without the white space around it.
  ghost predicate IsTrimmed(s: string, t: string) {
    && (exists a, b :: IsBlank(a) && IsBlank(b) && s == a + t + b)
    && (t != "" ==> !Blank(t[0]) && !Blank(t[|t| - 1]))
  }

  lemma {:induction false} TrimStartIs(s: string)
    ensures exists a :: IsBlank(a) && s == a + TrimStart(s)
    ensures TrimStart(s) != "" ==> !Blank(TrimStart(s)[0])
  {
    if s != "" && Blank(s[0]) {
      TrimStartIs(s[1..]);
      var a :| IsBlank(a) && s[1..] == a + TrimStart(s);
      assert s == ([s[0]] + a) + TrimStart(s) && IsBlank([s[0]] + a);
    } else {
      assert IsBlank("") && s == "" + s;
    }
  }

  lemma {:induction false} TrimEndIs(s: string)
    ensures exists b :: IsBlank(b) && s == TrimEnd(s) + b
    ensures TrimEnd(s) != "" ==> TrimEnd(s)[0] == s[0] && !Blank(TrimEnd(s)[|TrimEnd(s)| - 1])
  {
    if s != "" && Blank(s[|s| - 1]) {
      var init, last := s[..|s| - 1], [s[|s| - 1]];
      TrimEndIs(init);
      var b :| IsBlank(b) && init == TrimEnd(s) + b;
      assert s == TrimEnd(s) + (b + last) && IsBlank(b + last);
    } else {
      assert IsBlank("") && s == s + "";
    }
  }

  lemma TrimIs(s: string)
    ensures IsTrimmed(s, Trim(s))
  {
    TrimStartIs(s);
    TrimEndIs(TrimStart(s));
    var a :| IsBlank(a) && s == a + TrimStart(s);
    var b :| IsBlank(b) && TrimStart(s) == Trim(s) + b;
    assert s == a + Trim(s) + b;
  }

  function JoinWith(parts: seq<string>, separator: string): string {
    if parts == [] then "" else if |parts| == 1 then parts[0]
      else parts[0] + separator + JoinWith(parts[1..], separator)
  }

  // ----- lists of distinct identifiers -----

  predicate Distinct(ids: seq<string>) {
    forall i, j :: 0 <= i < j < |ids| ==> ids[i] != ids[j]
  }

  lemma {:induction false} DistinctSize(ids: seq<string>)
    requires Distinct(ids)
    ensures |set id | id in ids| == |ids|
  {
    if ids != [] {
      DistinctSize(ids[1..]);
      var tail := set id | id in ids[1..];
      assert ids == [ids[0]] + ids[1..];
      forall i | 0 <= i < |ids[1..]| ensures ids[1..][i] != ids[0] { assert ids[1..][i] == ids[i + 1]; }
      assert (set id | id in ids) == {ids[0]} + tail;
    }
  }

  lemma SubsetOfSameSize(a: set<string>, b: set<string>)
    requires a <= b && |a| == |b|
    ensures a == b
  {
    assert b == a + (b - a);
    assert |b - a| == 0;
  }

  method SortedCopy(ids: seq<string>) returns (r: seq<string>)
    ensures SortedBy(r, Self) && multiset(r) == multiset(ids)
    ensures Distinct(r) <==> Distinct(ids)
    ensures forall id :: id in r <==> id in ids
  {
    r := Sort(ids);
    SortSorts(ids, Self);
    forall id ensures id in r <==> id in ids { SortMembers(ids, Self, id); }
    DistinctIsOnce(ids);
    DistinctIsOnce(r);
  }

  lemma DistinctIsOnce(ids: seq<string>)
    ensures Distinct(ids) <==> forall id :: multiset(ids)[id] <= 1
  {
    forall i, j | 0 <= i < j < |ids| && ids[i] == ids[j] ensures multiset(ids)[ids[i]] >= 2 {
      TwiceInMultiset(ids, i, j);
    }
    forall id | multiset(ids)[id] >= 2 ensures !Distinct(ids) { TwoIndices(ids, id); }
  }

  lemma DistinctStep(ids: seq<string>, i: nat)
    requires i < |ids| && Distinct(ids[..i]) && ids[i] !in ids[..i]
    ensures Distinct(ids[..i + 1])
  {
    assert ids[..i + 1] == ids[..i] + [ids[i]];
  }

  lemma RepeatedId(ids: seq<string>, i: nat)
    requires i < |ids| && ids[i] in ids[..i]
    ensures !Distinct(ids)
  {
    var k :| 0 <= k < i && ids[..i][k] == ids[i];
    assert ids[k] == ids[i];
  }
}
