/** The full-text query builder: from what a user typed to an FTS5 match expression of quoted
    lower-case phrases and alphanumeric prefixes. A char stands for one byte of ASCII text. */
module Fts {
  import opened Wrappers
  import opened Identifiers

  // ----- characters -----

  // The byte scan also takes 0x85 and 0xA0 for separators.
  predicate ScanSpace(c: char) {
    Blank(c) || c as int == 0x85 || c as int == 0xA0
  }

  predicate Solid(c: char) { !Blank(c) }

  predicate Alnum(c: char) {
    'a' <= c <= 'z' || 'A' <= c <= 'Z' || '0' <= c <= '9'
  }

  function LowerChar(c: char): char {
    if 'A' <= c <= 'Z' then (c as int + 32) as char else c
  }

  function Lower(s: string): (r: string)
    ensures |r| == |s| && forall i :: 0 <= i < |s| ==> r[i] == LowerChar(s[i])
  {
    if s == "" then "" else [LowerChar(s[0])] + Lower(s[1..])
  }

  function RunLength(s: string, keep: char -> bool): (n: nat)
    ensures n <= |s| && (forall i :: 0 <= i < n ==> keep(s[i])) && (n < |s| ==> !keep(s[n]))
  {
    if s == "" || !keep(s[0]) then 0
    else
      var n := 1 + RunLength(s[1..], keep);
      assert forall i :: 1 <= i < n ==> s[i] == s[1..][i - 1];
      n
  }

  function Fields(s: string, keep: char -> bool): seq<string>
    decreases |s|
  {
    if s == "" then []
    else if !keep(s[0]) then Fields(s[1..], keep)
    else
      var n := RunLength(s, keep);
      [s[..n]] + Fields(s[n..], keep)
  }

  ghost predicate AllKept(w: string, keep: char -> bool) {
    w != "" && forall i :: 0 <= i < |w| ==> keep(w[i])
  }

  lemma RunOf(w: string, rest: string, keep: char -> bool)
    requires AllKept(w, keep) && (rest == "" || !keep(rest[0]))
    ensures RunLength(w + rest, keep) == |w|
  {
    var s := w + rest;
    assert forall i :: 0 <= i < |w| ==> s[i] == w[i];
    assert rest != "" ==> s[|w|] == rest[0];
  }

  lemma {:induction false} FieldsKept(s: string, keep: char -> bool)
    ensures forall w :: w in Fields(s, keep) ==> AllKept(w, keep)
    decreases |s|
  {
    if s != "" {
      if keep(s[0]) {
        FieldsKept(s[RunLength(s, keep)..], keep);
      } else {
        FieldsKept(s[1..], keep);
      }
    }
  }

  lemma {:induction false} FieldsOfJoin(ws: seq<string>, keep: char -> bool)
    requires !keep(' ') && forall w :: w in ws ==> AllKept(w, keep)
    ensures Fields(JoinWith(ws, " "), keep) == ws
  {
    if |ws| == 1 {
      assert ws[0] in ws && ws[0] + "" == ws[0];
      RunOf(ws[0], "", keep);
    } else if |ws| > 1 {
      assert ws[0] in ws;
      var tail := " " + JoinWith(ws[1..], " ");
      RunOf(ws[0], tail, keep);
      FieldsOfJoin(ws[1..], keep);
      var s := JoinWith(ws, " ");
      assert s == ws[0] + tail && s[..|ws[0]|] == ws[0] && s[|ws[0]|..] == tail && tail[1..] == JoinWith(ws[1..], " ");
    }
  }

  lemma {:induction false} FieldsDropEnd(s: string, keep: char -> bool)
    requires s != "" && !keep(s[|s| - 1])
    ensures Fields(s, keep) == Fields(s[..|s| - 1], keep)
    decreases |s|
  {
    var t := s[..|s| - 1];
    if |s| > 1 {
      if keep(s[0]) {
        var n := RunLength(s, keep);
        assert n < |s|;
        assert t == s[..n] + t[n..];
        RunOf(s[..n], t[n..], keep);
        assert s[n..][..|s[n..]| - 1] == t[n..];
        FieldsDropEnd(s[n..], keep);
        assert t[..n] == s[..n];
      } else {
        assert s[1..][..|s[1..]| - 1] == t[1..];
        FieldsDropEnd(s[1..], keep);
      }
    }
  }

  lemma {:induction false} TrimKeepsWords(s: string)
    ensures Fields(TrimStart(s), Solid) == Fields(s, Solid)
    ensures Fields(TrimEnd(s), Solid) == Fields(s, Solid)
    decreases |s|
  {
    if s != "" {
      if Blank(s[0]) { TrimKeepsWords(s[1..]); }
      if Blank(s[|s| - 1]) {
        TrimKeepsWords(s[..|s| - 1]);
        FieldsDropEnd(s, Solid);
      }
    }
  }

  lemma {:induction false} SameRun(a: string, b: string, keep: char -> bool)
    requires |a| == |b| && forall i :: 0 <= i < |a| ==> keep(a[i]) == keep(b[i])
    ensures RunLength(a, keep) == RunLength(b, keep)
  {
    if a != "" { SameRun(a[1..], b[1..], keep); }
  }

  lemma LowerFirst(s: string)
    ensures var n := RunLength(s, Solid);
      RunLength(Lower(s), Solid) == n && Lower(s)[..n] == Lower(s[..n]) && Lower(s)[n..] == Lower(s[n..])
  {
    SameRun(Lower(s), s, Solid);
  }

  lemma {:induction false} LowerWords(s: string)
    ensures Fields(Lower(s), Solid) == LowerAll(Fields(s, Solid))
    decreases |s|
  {
    if s != "" {
      if Solid(s[0]) {
        LowerWords(s[RunLength(s, Solid)..]);
        LowerFirst(s);
      } else {
        LowerWords(s[1..]);
      }
    }
  }

  function LowerAll(ws: seq<string>): seq<string> {
    if ws == [] then [] else [Lower(ws[0])] + LowerAll(ws[1..])
  }

  lemma {:induction false} LowerTwice(ws: seq<string>)
    ensures LowerAll(LowerAll(ws)) == LowerAll(ws)
  {
    if ws != [] {
      LowerTwice(ws[1..]);
      assert Lower(Lower(ws[0])) == Lower(ws[0]);
    }
  }

  // ----- phrases -----

  function Normalize(phrase: string): string {
    JoinWith(Fields(Lower(Trim(phrase)), Solid), " ")
  }

  lemma NormalizeByWords(phrase: string)
    ensures Normalize(phrase) == JoinWith(LowerAll(Fields(phrase, Solid)), " ")
  {
    LowerWords(Trim(phrase));
    TrimKeepsWords(TrimStart(phrase));
    TrimKeepsWords(phrase);
  }

  lemma {:induction false} LowerAllKept(ws: seq<string>)
    requires forall w :: w in ws ==> AllKept(w, Solid)
    ensures forall w :: w in LowerAll(ws) ==> AllKept(w, Solid)
  {
    if ws != [] {
      assert ws[0] in ws;
      LowerAllKept(ws[1..]);
    }
  }

  lemma NormalizeTwice(phrase: string)
    ensures Normalize(Normalize(phrase)) == Normalize(phrase)
  {
    var ws := LowerAll(Fields(phrase, Solid));
    NormalizeByWords(phrase);
    NormalizeByWords(Normalize(phrase));
    FieldsKept(phrase, Solid);
    LowerAllKept(Fields(phrase, Solid));
    FieldsOfJoin(ws, Solid);
    LowerTwice(Fields(phrase, Solid));
  }

  // Characters of the normalized phrase: blanks become single spaces, the rest is lowered.
  lemma {:induction false} NoNewQuote(s: string)
    requires '"' !in s
    ensures forall w :: w in Fields(s, Solid) ==> '"' !in w
    decreases |s|
  {
    if s != "" {
      if Solid(s[0]) { NoNewQuote(s[RunLength(s, Solid)..]); } else { NoNewQuote(s[1..]); }
    }
  }

  lemma {:induction false} JoinNoQuote(ws: seq<string>)
    requires forall w :: w in ws ==> '"' !in w
    ensures '"' !in JoinWith(LowerAll(ws), " ")
  {
    if ws != [] {
      assert ws[0] in ws && '"' !in Lower(ws[0]);
      JoinNoQuote(ws[1..]);
    }
  }

  function DoubleQuotes(s: string): string {
    if s == "" then "" else (if s[0] == '"' then "\"\"" else [s[0]]) + DoubleQuotes(s[1..])
  }

  lemma {:induction false} NothingToDouble(s: string)
    requires '"' !in s
    ensures DoubleQuotes(s) == s
  {
    if s != "" { NothingToDouble(s[1..]); }
  }

  function Quoted(s: string): string {
    "\"" + DoubleQuotes(s) + "\""
  }

  // ----- the query -----

  function QuotedAll(fields: seq<string>): seq<string> {
    if fields == [] then [] else [Quoted(fields[0])] + QuotedAll(fields[1..])
  }

  // One raw word. None stands for giving the whole query up, because of NEAR.
  function Word(raw: string): Option<seq<string>> {
    var wildcard := raw != "" && raw[|raw| - 1] == '*';
    var base := if wildcard then raw[..|raw| - 1] else raw;
    if wildcard && Trim(base) == "" then Some([])
    else
      WordOf(Fields(Lower(base), Alnum), wildcard)
  }

  function WordOf(fields: seq<string>, wildcard: bool): Option<seq<string>> {
    if "near" in fields then None
    else if !wildcard || fields == [] then Some(QuotedAll(fields))
    else Some(QuotedAll(fields[..|fields| - 1]) + [fields[|fields| - 1] + "*"])
  }

  function Before(a: Option<seq<string>>, b: Option<seq<string>>): Option<seq<string>> {
    if a.Some? && b.Some? then Some(a.value + b.value) else None
  }

  predicate NoQuote(c: char) { c != '"' }

  predicate InWord(c: char) { !ScanSpace(c) && c != '"' }

  function PhrasePart(phrase: string): seq<string> {
    var normalized := Normalize(phrase);
    if normalized == "" then [] else [Quoted(normalized)]
  }

  // The scan over quoted phrases and raw words, whatever is then made of them.
  function ScanWith(q: string, phrase: string -> seq<string>, word: string -> Option<seq<string>>): Option<seq<string>>
    decreases |q|
  {
    if q == "" then Some([])
    else if ScanSpace(q[0]) then ScanWith(q[1..], phrase, word)
    else if q[0] == '"' then
      var end := RunLength(q[1..], NoQuote);
      if end == |q| - 1 then None
      else Before(Some(phrase(q[1..][..end])), ScanWith(q[end + 2..], phrase, word))
    else
      var n := RunLength(q, InWord);
      Before(word(q[..n]), ScanWith(q[n..], phrase, word))
  }

  function Scan(q: string): Option<seq<string>> {
    ScanWith(q, PhrasePart, Word)
  }

  // First occurrences only, in order.
  function Dedup(parts: seq<string>): seq<string> {
    if parts == [] then []
    else
      var init := Dedup(parts[..|parts| - 1]);
      if parts[|parts| - 1] in init then init else init + [parts[|parts| - 1]]
  }

  function Query(q: string): string {
    if Trim(q) == "" then ""
    else
      match Scan(q)
      case None => ""
      case Some(parts) => JoinWith(Dedup(parts), " ")
  }

  // ----- the parts of an answer -----

  ghost predicate LowerAlnum(c: char) { 'a' <= c <= 'z' || '0' <= c <= '9' }

  ghost predicate IsPhrase(p: string) {
    |p| > 2 && p[0] == '"' && p[|p| - 1] == '"' && '"' !in p[1..|p| - 1] && Normalize(p[1..|p| - 1]) == p[1..|p| - 1]
  }

  ghost predicate IsPrefix(p: string) {
    |p| > 1 && p[|p| - 1] == '*' && p[..|p| - 1] != "near" && forall i :: 0 <= i < |p| - 1 ==> LowerAlnum(p[i])
  }

  ghost predicate IsPart(p: string) {
    IsPhrase(p) || IsPrefix(p)
  }

  lemma QuotedPhrase(s: string)
    requires s != "" && '"' !in s && Normalize(s) == s
    ensures IsPhrase(Quoted(s))
  {
    NothingToDouble(s);
    assert Quoted(s)[1..|Quoted(s)| - 1] == s;
  }

  lemma PhrasePartIsPart(phrase: string)
    requires '"' !in phrase
    ensures forall p :: p in PhrasePart(phrase) ==> IsPart(p)
  {
    NormalizeTwice(phrase);
    NormalizeByWords(phrase);
    NoNewQuote(phrase);
    JoinNoQuote(Fields(phrase, Solid));
    if Normalize(phrase) != "" {
      QuotedPhrase(Normalize(phrase));
    }
  }

  ghost predicate LowerField(f: string) {
    f != "" && forall i :: 0 <= i < |f| ==> LowerAlnum(f[i])
  }

  lemma {:induction false} LowerFields(s: string)
    requires forall i :: 0 <= i < |s| ==> s[i] == LowerChar(s[i])
    ensures forall f :: f in Fields(s, Alnum) ==> LowerField(f)
    decreases |s|
  {
    if s != "" {
      if Alnum(s[0]) { LowerFields(s[RunLength(s, Alnum)..]); } else { LowerFields(s[1..]); }
    }
  }

  lemma FieldIsNormal(f: string)
    requires LowerField(f)
    ensures Normalize(f) == f && '"' !in f
  {
    NormalizeByWords(f);
    assert f + "" == f;
    RunOf(f, "", Solid);
    assert Fields(f, Solid) == [f] by {
      assert f[..|f|] == f && f[|f|..] == "";
    }
    assert Lower(f) == f;
    assert LowerAll([f]) == [f] by { assert [f][1..] == []; }
  }

  lemma {:induction false} QuotedFields(fields: seq<string>)
    requires forall f :: f in fields ==> LowerField(f)
    ensures forall p :: p in QuotedAll(fields) ==> IsPart(p)
  {
    if fields != [] {
      assert fields[0] in fields;
      FieldIsNormal(fields[0]);
      QuotedPhrase(fields[0]);
      QuotedFields(fields[1..]);
    }
  }

  lemma WordParts(raw: string)
    requires Word(raw).Some?
    ensures forall p :: p in Word(raw).value ==> IsPart(p)
  {
    var wildcard := raw != "" && raw[|raw| - 1] == '*';
    var base := if wildcard then raw[..|raw| - 1] else raw;
    var fields := Fields(Lower(base), Alnum);
    LowerFields(Lower(base));
    if !(wildcard && Trim(base) == "") { WordOfParts(fields, wildcard); }
  }

  lemma WordOfParts(fields: seq<string>, wildcard: bool)
    requires WordOf(fields, wildcard).Some? && forall f :: f in fields ==> LowerField(f)
    ensures forall p :: p in WordOf(fields, wildcard).value ==> IsPart(p)
  {
    QuotedFields(fields);
    if wildcard && fields != [] {
      QuotedFields(fields[..|fields| - 1]);
      var last := fields[|fields| - 1];
      assert last in fields;
      assert (last + "*")[..|last + "*"| - 1] == last;
      assert IsPrefix(last + "*");
    }
  }

  // Every part the scan produces is a quoted lower-case phrase without inner quotes or an
  // alphanumeric prefix other than NEAR.
  lemma {:induction false} ScanParts(q: string)
    requires Scan(q).Some?
    ensures forall p :: p in Scan(q).value ==> IsPart(p)
    decreases |q|
  {
    if q != "" {
      if ScanSpace(q[0]) {
        ScanParts(q[1..]);
      } else if q[0] == '"' {
        var end := RunLength(q[1..], NoQuote);
        PhrasePartIsPart(q[1..][..end]);
        ScanParts(q[end + 2..]);
      } else {
        var n := RunLength(q, InWord);
        WordParts(q[..n]);
        ScanParts(q[n..]);
      }
    }
  }

  // ----- reading an answer back -----

  lemma {:induction false} NoQuoteRun(s: string, rest: string)
    requires '"' !in s && rest != "" && rest[0] == '"'
    ensures RunLength(s + rest, NoQuote) == |s|
  {
    if s == "" {
      assert s + rest == rest;
    } else {
      RunOf(s, rest, NoQuote);
    }
  }

  lemma ScanPhrase(p: string, rest: string)
    requires IsPhrase(p)
    ensures Scan(p + rest) == Before(Some([p]), Scan(rest))
  {
    var q, inner := p + rest, p[1..|p| - 1];
    assert q[1..] == inner + ("\"" + rest);
    NoQuoteRun(inner, "\"" + rest);
    assert q[1..][..|inner|] == inner && q[|inner| + 2..] == rest;
    NothingToDouble(inner);
    assert Quoted(inner) == p;
  }

  lemma ScanPrefix(p: string, rest: string)
    requires IsPrefix(p) && (rest == "" || ScanSpace(rest[0]))
    ensures Scan(p + rest) == Before(Some([p]), Scan(rest))
  {
    var q, f := p + rest, p[..|p| - 1];
    assert p == f + "*";
    RunOf(p, rest, InWord);
    assert q[..|p|] == p && q[|p|..] == rest && q[0] == p[0];
    assert LowerField(f) && Lower(f) == f;
    RunOf(f, "", Alnum);
    assert f + "" == f && f[..|f|] == f && f[|f|..] == "";
    assert Fields(f, Alnum) == [f];
    assert Trim(f) == f;
    assert Word(p) == Some([p]) by {
      assert [f][..0] == [] && QuotedAll([]) + [f + "*"] == [p];
    }
  }

  lemma {:induction false} ReadBack(ps: seq<string>)
    requires forall p :: p in ps ==> IsPart(p)
    ensures Scan(JoinWith(ps, " ")) == Some(ps)
  {
    if ps != [] {
      var p, rest := ps[0], if |ps| == 1 then "" else " " + JoinWith(ps[1..], " ");
      assert p in ps;
      assert JoinWith(ps, " ") == p + rest;
      if IsPhrase(p) { ScanPhrase(p, rest); } else { ScanPrefix(p, rest); }
      assert ps == [p] + ps[1..];
      ReadBack(ps[1..]);
      if |ps| > 1 { assert rest[1..] == JoinWith(ps[1..], " "); }
    }
  }

  // Deduplication keeps exactly the first occurrence of each part, in order.
  lemma {:induction false} DedupFirstSeen(parts: seq<string>)
    ensures Distinct(Dedup(parts))
    ensures forall p :: p in Dedup(parts) <==> p in parts
    ensures forall i, j :: 0 <= i < j < |Dedup(parts)| ==> SeenBefore(parts, Dedup(parts)[i], Dedup(parts)[j])
    decreases |parts|
  {
    if parts != [] {
      var n := |parts| - 1;
      var init := Dedup(parts[..n]);
      DedupFirstSeen(parts[..n]);
      assert parts == parts[..n] + [parts[n]];
      assert Dedup(parts) == if parts[n] in init then init else init + [parts[n]];
      forall x, y | SeenBefore(parts[..n], x, y) ensures SeenBefore(parts, x, y) { SeenLonger(parts, x, y); }
      forall x | x in parts[..n] && parts[n] !in parts[..n] ensures SeenBefore(parts, x, parts[n]) {
        SeenLast(parts, x);
      }
    }
  }

  // x occurs before the first y.
  ghost predicate SeenBefore(parts: seq<string>, x: string, y: string) {
    exists k :: 0 <= k < |parts| && parts[k] == x && y !in parts[..k + 1]
  }

  lemma SeenLonger(parts: seq<string>, x: string, y: string)
    requires parts != [] && SeenBefore(parts[..|parts| - 1], x, y)
    ensures SeenBefore(parts, x, y)
  {
    var init := parts[..|parts| - 1];
    var k :| 0 <= k < |init| && init[k] == x && y !in init[..k + 1];
    assert parts[..k + 1] == init[..k + 1] && parts[k] == x;
  }

  lemma SeenLast(parts: seq<string>, x: string)
    requires parts != [] && x in parts[..|parts| - 1] && parts[|parts| - 1] !in parts[..|parts| - 1]
    ensures SeenBefore(parts, x, parts[|parts| - 1])
  {
    var init := parts[..|parts| - 1];
    var k :| 0 <= k < |init| && init[k] == x;
    assert init == parts[..k + 1] + init[k + 1..];
    assert parts[k] == x && parts[|parts| - 1] !in parts[..k + 1];
  }

  lemma {:induction false} DedupDistinct(parts: seq<string>)
    requires Distinct(parts)
    ensures Dedup(parts) == parts
    decreases |parts|
  {
    if parts != [] {
      var n := |parts| - 1;
      DedupDistinct(parts[..n]);
      assert parts == parts[..n] + [parts[n]];
    }
  }

  lemma PartsNotBlank(ps: seq<string>)
    requires ps != [] && forall p :: p in ps ==> IsPart(p)
    ensures Trim(JoinWith(ps, " ")) != ""
  {
    var s := JoinWith(ps, " ");
    assert ps[0] in ps && s[0] == ps[0][0] && Solid(s[0]);
    assert TrimStart(s) == s;
    TrimEndNotEmpty(s);
  }

  lemma {:induction false} TrimEndNotEmpty(s: string)
    requires s != "" && Solid(s[0])
    ensures TrimEnd(s) != ""
    decreases |s|
  {
    if Blank(s[|s| - 1]) { TrimEndNotEmpty(s[..|s| - 1]); }
  }

  // The answer parses back to its own list of parts: distinct phrases and prefixes.
  lemma AnswerReadsBack(q: string)
    requires Query(q) != ""
    ensures var ps := Dedup(Scan(q).value);
      Query(q) == JoinWith(ps, " ") && Scan(Query(q)) == Some(ps) && Distinct(ps) && forall p :: p in ps ==> IsPart(p)
  {
    var parts := Scan(q).value;
    ScanParts(q);
    DedupFirstSeen(parts);
    ReadBack(Dedup(parts));
  }

  // Building a query from an answer changes nothing.
  lemma QueryTwice(q: string)
    ensures Query(Query(q)) == Query(q)
  {
    if Query(q) != "" {
      AnswerReadsBack(q);
      var ps := Dedup(Scan(q).value);
      DedupDistinct(ps);
      if ps != [] { PartsNotBlank(ps); }
    }
  }

  // ----- the loops -----

  lemma {:induction false} FieldsAppend(done: string, tail: string, keep: char -> bool)
    requires done == "" || !keep(done[|done| - 1])
    ensures Fields(done + tail, keep) == Fields(done, keep) + Fields(tail, keep)
    decreases |done|
  {
    var s := done + tail;
    if done == "" {
      assert s == tail;
    } else if keep(done[0]) {
      var n := RunLength(done, keep);
      assert n < |done|;
      assert s == done[..n] + (done[n..] + tail);
      RunOf(done[..n], done[n..] + tail, keep);
      assert s[..n] == done[..n] && s[n..] == done[n..] + tail;
      FieldsAppend(done[n..], tail, keep);
    } else {
      assert s[1..] == done[1..] + tail;
      FieldsAppend(done[1..], tail, keep);
    }
  }

  // One more character that is not kept ends the run in progress.
  lemma FieldsStep(done: string, current: string, c: char, keep: char -> bool)
    requires current == "" || AllKept(current, keep)
    requires done == "" || !keep(done[|done| - 1])
    requires !keep(c)
    ensures Fields(done + current + [c], keep) == Fields(done, keep) + (if current == "" then [] else [current])
  {
    assert done + current + [c] == done + (current + [c]);
    FieldsAppend(done, current + [c], keep);
    assert [c][1..] == "" && Fields([c], keep) == [];
    if current == "" {
      assert current + [c] == [c];
    } else {
      RunOf(current, [c], keep);
      assert (current + [c])[..|current|] == current && (current + [c])[|current|..] == [c];
    }
  }

  method SplitAlnum(input: string) returns (fields: seq<string>)
    ensures fields == Fields(input, Alnum)
  {
    fields := [];
    var current := "";
    ghost var done := "";
    for i := 0 to |input|
      invariant input[..i] == done + current
      invariant current == "" || AllKept(current, Alnum)
      invariant done == "" || !Alnum(done[|done| - 1])
      invariant fields == Fields(done, Alnum)
    {
      var c := input[i];
      assert input[..i + 1] == done + current + [c];
      if !Alnum(c) { FieldsStep(done, current, c, Alnum); }
      if Alnum(c) {
        current := current + [c];
      } else {
        done := done + current + [c];
        if current != "" {
          fields := fields + [current];
          current := "";
        }
      }
    }
    assert input[..|input|] == input;
    assert input + " " == done + current + " ";
    FieldsStep(done, current, ' ', Alnum);
    FieldsDropEnd(input + " ", Alnum);
    assert (input + " ")[..|input|] == input;
    if current != "" {
      fields := fields + [current];
    }
  }

  method AppendWord(raw: string, parts: seq<string>) returns (ok: bool, more: seq<string>)
    ensures ok == Word(raw).Some?
    ensures ok ==> more == parts + Word(raw).value
  {
    more := parts;
    var wildcard := raw != "" && raw[|raw| - 1] == '*';
    var base := if wildcard then raw[..|raw| - 1] else raw;
    if wildcard && Trim(base) == "" { return true, more; }
    var fields := SplitAlnum(Lower(base));
    ok, more := AppendFields(fields, wildcard, parts);
  }

  method AppendFields(fields: seq<string>, wildcard: bool, parts: seq<string>) returns (ok: bool, more: seq<string>)
    ensures ok == WordOf(fields, wildcard).Some?
    ensures ok ==> more == parts + WordOf(fields, wildcard).value
  {
    more := parts;
    for i := 0 to |fields|
      invariant "near" !in fields[..i]
    {
      if fields[i] == "near" { return false, more; }
    }
    assert fields[..|fields|] == fields;
    for i := 0 to |fields|
      invariant more == parts + FieldParts(fields, i, wildcard)
    {
      FieldPartsExtend(fields, i, wildcard);
      if wildcard && i == |fields| - 1 {
        more := more + [fields[i] + "*"];
      } else {
        more := more + [Quoted(fields[i])];
      }
    }
    assert fields[..|fields|] == fields;
    return true, more;
  }

  // What the first i fields of a word become.
  function FieldParts(fields: seq<string>, i: nat, wildcard: bool): seq<string>
    requires i <= |fields|
  {
    if wildcard && i == |fields| && i > 0 then QuotedAll(fields[..i - 1]) + [fields[i - 1] + "*"]
      else QuotedAll(fields[..i])
  }

  lemma FieldPartsExtend(fields: seq<string>, i: nat, wildcard: bool)
    requires i < |fields|
    ensures FieldParts(fields, i + 1, wildcard) == FieldParts(fields, i, wildcard)
      + [if wildcard && i == |fields| - 1 then fields[i] + "*" else Quoted(fields[i])]
  {
    QuotedAllExtend(fields, i);
  }

  lemma {:induction false} QuotedAllExtend(fields: seq<string>, i: nat)
    requires i < |fields|
    ensures QuotedAll(fields[..i + 1]) == QuotedAll(fields[..i]) + [Quoted(fields[i])]
  {
    if i == 0 {
      assert fields[..1][1..] == [];
    } else {
      assert fields[..i + 1][1..] == fields[1..][..i] && fields[..i][1..] == fields[1..][..i - 1];
      QuotedAllExtend(fields[1..], i - 1);
    }
  }

  method DedupParts(parts: seq<string>) returns (deduped: seq<string>)
    ensures deduped == Dedup(parts)
  {
    deduped := [];
    for k := 0 to |parts|
      invariant deduped == Dedup(parts[..k])
    {
      assert parts[..k + 1][..k] == parts[..k];
      if parts[k] !in deduped {
        deduped := deduped + [parts[k]];
      }
    }
    assert parts[..|parts|] == parts;
  }

  // The scan by position, as the loop makes it.
  function ScanAt(q: string, i: nat, phrase: string -> seq<string>,
                  word: string -> Option<seq<string>>): Option<seq<string>>
    requires i <= |q|
    decreases |q| - i
  {
    if i == |q| then Some([])
    else if ScanSpace(q[i]) then ScanAt(q, i + 1, phrase, word)
    else if q[i] == '"' then
      var end := RunLength(q[i + 1..], NoQuote);
      if i + 1 + end == |q| then None
      else Before(Some(phrase(q[i + 1..][..end])), ScanAt(q, i + end + 2, phrase, word))
    else
      var n := RunLength(q[i..], InWord);
      Before(word(q[i..][..n]), ScanAt(q, i + n, phrase, word))
  }

  ghost predicate SameScan(q: string, i: nat, phrase: string -> seq<string>, word: string -> Option<seq<string>>)
    requires i <= |q|
  {
    ScanAt(q, i, phrase, word) == ScanWith(q[i..], phrase, word)
  }

  lemma {:induction false} ScanAtIsScan(q: string, i: nat, phrase: string -> seq<string>,
                                        word: string -> Option<seq<string>>)
    requires i <= |q|
    ensures SameScan(q, i, phrase, word)
    decreases |q| - i
  {
    forall j | i < j <= |q| ensures SameScan(q, j, phrase, word) { ScanAtIsScan(q, j, phrase, word); }
    if i < |q| { AnyStep(q, i, phrase, word); }
  }

  lemma AnyStep(q: string, i: nat, phrase: string -> seq<string>, word: string -> Option<seq<string>>)
    requires i < |q| && forall j :: i < j <= |q| ==> SameScan(q, j, phrase, word)
    ensures SameScan(q, i, phrase, word)
  {
    if ScanSpace(q[i]) {
      SpaceStep(q, i, phrase, word);
    } else if q[i] == '"' {
      QuoteStep(q, i, phrase, word);
    } else {
      WordAdvances(q, i);
      WordStep(q, i, phrase, word);
    }
  }

  lemma WordAdvances(q: string, i: nat)
    requires i < |q| && !ScanSpace(q[i]) && q[i] != '"'
    ensures 0 < RunLength(q[i..], InWord) <= |q| - i
  {
  }

  lemma SpaceStep(q: string, i: nat, phrase: string -> seq<string>, word: string -> Option<seq<string>>)
    requires i < |q| && ScanSpace(q[i])
    requires SameScan(q, i + 1, phrase, word)
    ensures SameScan(q, i, phrase, word)
  {
    assert q[i..][1..] == q[i + 1..];
  }

  lemma QuoteStep(q: string, i: nat, phrase: string -> seq<string>, word: string -> Option<seq<string>>)
    requires i < |q| && q[i] == '"'
    requires var end := RunLength(q[i + 1..], NoQuote);
      i + 1 + end < |q| ==> SameScan(q, i + end + 2, phrase, word)
    ensures SameScan(q, i, phrase, word)
  {
    var s, end := q[i..], RunLength(q[i + 1..], NoQuote);
    assert s[1..] == q[i + 1..];
    if i + 1 + end < |q| { assert s[end + 2..] == q[i + end + 2..]; }
  }

  lemma WordStep(q: string, i: nat, phrase: string -> seq<string>, word: string -> Option<seq<string>>)
    requires i < |q| && !ScanSpace(q[i]) && q[i] != '"'
    requires SameScan(q, i + RunLength(q[i..], InWord), phrase, word)
    ensures SameScan(q, i, phrase, word)
  {
    assert q[i..][RunLength(q[i..], InWord)..] == q[i + RunLength(q[i..], InWord)..];
  }

  lemma BeforeNothing(c: Option<seq<string>>)
    ensures Before(Some([]), c) == c
  {
    if c.Some? { assert [] + c.value == c.value; }
  }

  lemma BeforeAssoc(a: seq<string>, b: seq<string>, c: Option<seq<string>>)
    ensures Before(Some(a), Before(Some(b), c)) == Before(Some(a + b), c)
  {
    if c.Some? { assert a + (b + c.value) == (a + b) + c.value; }
  }

  method AppendPhrase(phrase: string, parts: seq<string>) returns (more: seq<string>)
    ensures more == parts + PhrasePart(phrase)
  {
    var normalized := Normalize(phrase);
    if normalized == "" { return parts; }
    return parts + [Quoted(normalized)];
  }

  // `phrase` and `word` name what the scan makes of a phrase and of a word. Keeping them as
  // names lets the loop be checked without looking into either.
  ghost predicate Names(phrase: string -> seq<string>, word: string -> Option<seq<string>>) {
    && (forall s {:trigger PhrasePart(s)} :: phrase(s) == PhrasePart(s))
    && (forall s {:trigger Word(s)} :: word(s) == Word(s))
  }

  // Position just behind the closing quote, or nothing when the quote is not closed.
  method TakePhrase(query: string, parts: seq<string>, i: nat,
                    ghost phrase: string -> seq<string>, ghost word: string -> Option<seq<string>>)
    returns (ok: bool, more: seq<string>, next: nat)
    requires i < |query| && Names(phrase, word)
    ensures var end := RunLength(query[i + 1..], NoQuote);
      ok == (end < |query| - i - 1) && (ok ==> next == i + end + 2 && more == parts + phrase(query[i + 1..][..end]))
  {
    more, next := parts, i;
    var body := query[i + 1..];
    var end := RunLength(body, NoQuote);
    if end == |body| { return false, more, next; }
    more := AppendPhrase(body[..end], parts);
    return true, more, i + end + 2;
  }

  method TakeWord(query: string, parts: seq<string>, i: nat,
                  ghost phrase: string -> seq<string>, ghost word: string -> Option<seq<string>>)
    returns (ok: bool, more: seq<string>, next: nat)
    requires i < |query| && InWord(query[i]) && Names(phrase, word)
    ensures i < next <= |query|
    ensures next == i + RunLength(query[i..], InWord)
    ensures ok == word(query[i..][..next - i]).Some?
    ensures ok ==> more == parts + word(query[i..][..next - i]).value
  {
    next := i;
    while next < |query| && InWord(query[next])
      invariant i <= next <= |query| && forall k :: i <= k < next ==> InWord(query[k])
    {
      next := next + 1;
    }
    assert query[i..] == query[i..next] + query[next..];
    RunOf(query[i..next], query[next..], InWord);
    assert query[i..next] == query[i..][..next - i];
    ok, more := AppendWord(query[i..next], parts);
  }

  method SkipSpace(query: string, start: nat, ghost phrase: string -> seq<string>,
                   ghost word: string -> Option<seq<string>>)
    returns (i: nat)
    requires start <= |query|
    ensures start <= i <= |query| && (i < |query| ==> !ScanSpace(query[i]))
    ensures ScanAt(query, i, phrase, word) == ScanAt(query, start, phrase, word)
  {
    i := start;
    while i < |query| && ScanSpace(query[i])
      invariant start <= i <= |query| && ScanAt(query, i, phrase, word) == ScanAt(query, start, phrase, word)
    {
      i := i + 1;
    }
  }

  // A phrase in quotes or a word, and the position behind it.
  method TakePart(query: string, parts: seq<string>, i: nat,
                  ghost phrase: string -> seq<string>, ghost word: string -> Option<seq<string>>)
    returns (ok: bool, more: seq<string>, next: nat)
    requires i < |query| && !ScanSpace(query[i]) && Names(phrase, word)
    ensures !ok ==> ScanAt(query, i, phrase, word).None?
    ensures ok ==> i < next <= |query| && |parts| <= |more| && more == parts + more[|parts|..]
    ensures ok ==> ScanAt(query, i, phrase, word) == Before(Some(more[|parts|..]), ScanAt(query, next, phrase, word))
  {
    if query[i] == '"' {
      ok, more, next := TakePhrase(query, parts, i, phrase, word);
      QuoteScanned(query, i, phrase, word);
    } else {
      ok, more, next := TakeWord(query, parts, i, phrase, word);
      WordScanned(query, i, phrase, word);
    }
  }

  lemma QuoteScanned(q: string, i: nat, phrase: string -> seq<string>, word: string -> Option<seq<string>>)
    requires i < |q| && q[i] == '"'
    ensures var end := RunLength(q[i + 1..], NoQuote);
      ScanAt(q, i, phrase, word) == if i + 1 + end == |q| then None
        else Before(Some(phrase(q[i + 1..][..end])), ScanAt(q, i + end + 2, phrase, word))
  {
  }

  lemma WordScanned(q: string, i: nat, phrase: string -> seq<string>, word: string -> Option<seq<string>>)
    requires i < |q| && !ScanSpace(q[i]) && q[i] != '"'
    ensures var n := RunLength(q[i..], InWord);
      ScanAt(q, i, phrase, word) == Before(word(q[i..][..n]), ScanAt(q, i + n, phrase, word))
  {
  }

  method ScanLoop(query: string, ghost phrase: string -> seq<string>, ghost word: string -> Option<seq<string>>)
    returns (ok: bool, parts: seq<string>)
    requires Names(phrase, word)
    ensures ok == ScanWith(query, phrase, word).Some?
    ensures ok ==> parts == ScanWith(query, phrase, word).value
  {
    ScanAtIsScan(query, 0, phrase, word);
    assert query[0..] == query;
    ghost var whole := ScanAt(query, 0, phrase, word);
    parts := [];
    BeforeNothing(whole);
    var i := 0;
    while i < |query|
      invariant 0 <= i <= |query| && whole == Before(Some(parts), ScanAt(query, i, phrase, word))
      decreases |query| - i
    {
      i := SkipSpace(query, i, phrase, word);
      if i >= |query| { break; }
      var more, next;
      ok, more, next := TakePart(query, parts, i, phrase, word);
      if !ok { return false, []; }
      BeforeAssoc(parts, more[|parts|..], ScanAt(query, next, phrase, word));
      parts, i := more, next;
    }
    BeforeNothing(Some(parts));
    return true, parts;
  }

  method BuildQuery(query: string) returns (answer: string)
    ensures answer == Query(query)
  {
    if Trim(query) == "" { return ""; }
    var ok, parts := ScanLoop(query, PhrasePart, Word);
    if !ok { return ""; }
    var deduped := DedupParts(parts);
    return JoinWith(deduped, " ");
  }
}
