/** What the query builder makes of a text: piece by piece, and character by character within
    each piece. */
module FtsMeaning {
  import opened Wrappers
  import opened Identifiers
  import opened Fts

  // ----- maximal runs -----

  // The runs with what stands before, between and after them.
  function Weave(gaps: seq<string>, runs: seq<string>): string
    requires |gaps| == |runs| + 1
  {
    if runs == [] then gaps[0] else gaps[0] + runs[0] + Weave(gaps[1..], runs[1..])
  }

  // The runs are the longest ones of kept characters: no gap holds one, and none is empty but
  // those at the ends.
  ghost predicate Runs(s: string, runs: seq<string>, gaps: seq<string>, keep: char -> bool) {
    && |gaps| == |runs| + 1 && s == Weave(gaps, runs)
    && (forall i :: 0 <= i < |runs| ==> AllKept(runs[i], keep))
    && (forall i :: 0 <= i < |gaps| ==> NoneKept(gaps[i], keep))
    && (forall i :: 0 < i < |gaps| - 1 ==> gaps[i] != "")
  }

  ghost predicate NoneKept(s: string, keep: char -> bool) {
    forall i :: 0 <= i < |s| ==> !keep(s[i])
  }

  lemma {:induction false} FieldsAreRuns(s: string, keep: char -> bool) returns (gaps: seq<string>)
    ensures Runs(s, Fields(s, keep), gaps, keep)
    ensures s != "" && keep(s[0]) ==> gaps[0] == ""
    ensures s != "" && !keep(s[0]) ==> gaps[0] != ""
    decreases |s|
  {
    if s == "" {
      gaps := [""];
    } else if !keep(s[0]) {
      var rest := FieldsAreRuns(s[1..], keep);
      gaps := [[s[0]] + rest[0]] + rest[1..];
      MoreGap(s, Fields(s[1..], keep), rest, keep);
    } else {
      var n := RunLength(s, keep);
      var rest := FieldsAreRuns(s[n..], keep);
      gaps := [""] + rest;
      OneMoreRun(s, s[..n], s[n..], Fields(s[n..], keep), rest, keep);
    }
  }

  lemma MoreGap(s: string, runs: seq<string>, rest: seq<string>, keep: char -> bool)
    requires s != "" && !keep(s[0]) && Runs(s[1..], runs, rest, keep)
    ensures Runs(s, runs, [[s[0]] + rest[0]] + rest[1..], keep)
  {
    var c, gaps := s[0], [[s[0]] + rest[0]] + rest[1..];
    assert s == [c] + s[1..] && gaps[1..] == rest[1..];
    if runs != [] { Regroup(c, rest[0], runs[0], Weave(rest[1..], runs[1..])); }
    assert NoneKept([c] + rest[0], keep);
    forall i | 0 <= i < |gaps| ensures NoneKept(gaps[i], keep) { if i > 0 { assert gaps[i] == rest[i]; } }
    forall i | 0 < i < |gaps| - 1 ensures gaps[i] != "" { assert gaps[i] == rest[i]; }
  }

  lemma Regroup(c: char, gap: string, run: string, tail: string)
    ensures ([c] + gap) + run + tail == [c] + (gap + run + tail)
  {
  }

  lemma OneMoreRun(s: string, run: string, tail: string, runs: seq<string>, rest: seq<string>, keep: char -> bool)
    requires Runs(tail, runs, rest, keep) && AllKept(run, keep) && s == run + tail
    requires runs != [] ==> rest[0] != ""
    ensures Runs(s, [run] + runs, [""] + rest, keep)
  {
    var gaps, all := [""] + rest, [run] + runs;
    assert gaps[1..] == rest && all[1..] == runs && "" + run + tail == s;
    forall i | 0 <= i < |gaps| ensures NoneKept(gaps[i], keep) { if i > 0 { assert gaps[i] == rest[i - 1]; } }
    forall i | 0 <= i < |all| ensures AllKept(all[i], keep) { if i > 0 { assert all[i] == runs[i - 1]; } }
    forall i | 0 < i < |gaps| - 1 ensures gaps[i] != "" { assert gaps[i] == rest[i - 1]; }
  }

  // ----- the pieces of a query -----

  // Space, tab, line feed, vertical tab, form feed, carriage return, and the bytes that are white
  // space in Latin-1.
  predicate Separates(c: char) {
    c == ' ' || c == '\t' || c == '\n' || c == '\r' || c as int in {0x0B, 0x0C, 0x85, 0xA0}
  }

  lemma ScanBlank(c: char, rest: string)
    requires Separates(c)
    ensures Scan([c] + rest) == Scan(rest)
  {
    assert ([c] + rest)[1..] == rest;
  }

  // A phrase in quotes.
  lemma ScanQuoted(phrase: string, rest: string)
    requires '"' !in phrase
    ensures Scan("\"" + phrase + "\"" + rest) == Before(Some(PhrasePart(phrase)), Scan(rest))
  {
    var q := "\"" + phrase + "\"" + rest;
    assert q[1..] == phrase + ("\"" + rest);
    NoQuoteRun(phrase, "\"" + rest);
    assert q[1..][..|phrase|] == phrase && q[|phrase| + 2..] == rest;
  }

  // A quote that is not closed gives the whole query up.
  lemma ScanUnclosed(phrase: string)
    requires '"' !in phrase
    ensures Scan("\"" + phrase) == None
  {
    var q := "\"" + phrase;
    assert q[1..] == phrase;
    if phrase != "" {
      RunOf(phrase, "", NoQuote);
      assert phrase + "" == phrase;
    }
  }

  // A word up to the next blank or quote.
  lemma ScanWord(word: string, rest: string)
    requires word != "" && '"' !in word && (forall i :: 0 <= i < |word| ==> !Separates(word[i]))
    requires rest == "" || rest[0] == '"' || Separates(rest[0])
    ensures Scan(word + rest) == Before(Word(word), Scan(rest))
  {
    var q := word + rest;
    RunOf(word, rest, InWord);
    assert q[..|word|] == word && q[|word|..] == rest && q[0] == word[0];
  }

  // ----- a phrase -----

  // It becomes its words in lower case with single blanks between them, in quotes; nothing
  // when there is no word in it.
  lemma PhraseMeans(phrase: string) returns (words: seq<string>, gaps: seq<string>)
    requires '"' !in phrase
    ensures Runs(phrase, words, gaps, Solid)
    ensures PhrasePart(phrase) == if words == [] then [] else ["\"" + JoinWith(LowerAll(words), " ") + "\""]
  {
    words := Fields(phrase, Solid);
    gaps := FieldsAreRuns(phrase, Solid);
    NormalizeByWords(phrase);
    NoNewQuote(phrase);
    JoinNoQuote(words);
    NothingToDouble(Normalize(phrase));
    if words != [] {
      assert words[0] != "" && LowerAll(words)[0] == Lower(words[0]);
    }
  }

  // ----- a word -----

  function LowerKeep(): char -> bool {
    (c: char) => 'a' <= c <= 'z' || '0' <= c <= '9'
  }

  function Starred(raw: string): bool { raw != "" && raw[|raw| - 1] == '*' }

  // What stands before a star at the end, in lower case.
  function Letters(raw: string): string { Lower(if Starred(raw) then raw[..|raw| - 1] else raw) }

  // The runs of letters and digits, in lower case, each become a quoted part, the last one of a
  // word that ends in a star a prefix; "near" among them gives the whole query up.
  lemma WordMeans(raw: string) returns (runs: seq<string>, gaps: seq<string>)
    ensures Runs(Letters(raw), runs, gaps, LowerKeep())
    ensures Word(raw).None? <==> "near" in runs
    ensures Word(raw).Some? ==>
      && |Word(raw).value| == |runs|
      && forall i :: 0 <= i < |runs| ==>
           Word(raw).value[i] == if Starred(raw) && i == |runs| - 1 then runs[i] + "*" else "\"" + runs[i] + "\""
  {
    runs := Fields(Letters(raw), Alnum);
    gaps := FieldsAreRuns(Letters(raw), Alnum);
    LowerFields(Letters(raw));
    LowerRuns(Letters(raw), runs, gaps);
    WordRuns(raw, runs);
    PartsOf(runs, Starred(raw));
  }

  lemma LowerRuns(text: string, runs: seq<string>, gaps: seq<string>)
    requires Runs(text, runs, gaps, Alnum) && forall f :: f in runs ==> LowerField(f)
    ensures Runs(text, runs, gaps, LowerKeep())
  {
    forall i | 0 <= i < |runs| ensures AllKept(runs[i], LowerKeep()) { assert runs[i] in runs; }
  }

  // Where there is nothing but blanks before the star there is no run either.
  lemma WordRuns(raw: string, runs: seq<string>)
    requires runs == Fields(Letters(raw), Alnum)
    ensures Word(raw) == WordOf(runs, Starred(raw))
  {
    var base := if Starred(raw) then raw[..|raw| - 1] else raw;
    if Starred(raw) && Trim(base) == "" {
      BlankHasNone(base);
    }
  }

  lemma BlankHasNone(s: string)
    requires Trim(s) == ""
    ensures Fields(Lower(s), Alnum) == []
  {
    TrimIs(s);
    var a, b :| IsBlank(a) && IsBlank(b) && s == a + Trim(s) + b;
    assert forall i :: 0 <= i < |s| ==> Blank(s[i]);
    NothingKept(Lower(s));
  }

  lemma {:induction false} NothingKept(s: string)
    requires forall i :: 0 <= i < |s| ==> !Alnum(s[i])
    ensures Fields(s, Alnum) == []
  {
    if s != "" { NothingKept(s[1..]); }
  }

  lemma {:induction false} QuotedEach(fields: seq<string>)
    requires forall f :: f in fields ==> LowerField(f)
    ensures |QuotedAll(fields)| == |fields|
    ensures forall i :: 0 <= i < |fields| ==> QuotedAll(fields)[i] == "\"" + fields[i] + "\""
  {
    if fields != [] {
      assert fields[0] in fields;
      FieldIsNormal(fields[0]);
      NothingToDouble(fields[0]);
      QuotedEach(fields[1..]);
    }
  }

  lemma PartsOf(runs: seq<string>, starred: bool)
    requires forall f :: f in runs ==> LowerField(f)
    ensures WordOf(runs, starred).None? <==> "near" in runs
    ensures WordOf(runs, starred).Some? ==>
      && |WordOf(runs, starred).value| == |runs|
      && forall i :: 0 <= i < |runs| ==>
           WordOf(runs, starred).value[i] == if starred && i == |runs| - 1 then runs[i] + "*" else "\"" + runs[i] + "\""
  {
    QuotedEach(runs);
    if runs != [] {
      QuotedEach(runs[..|runs| - 1]);
    }
  }

  // ----- the whole query -----

  // The parts of all pieces, each once, with single blanks between them; nothing when the
  // query was given up.
  lemma QueryMeans(q: string)
    ensures Scan(q).None? ==> Query(q) == ""
    ensures Scan(q).Some? ==> Query(q) == JoinWith(Dedup(Scan(q).value), " ")
  {
    if Trim(q) == "" {
      TrimIs(q);
      var a, b :| IsBlank(a) && IsBlank(b) && q == a + Trim(q) + b;
      assert forall i :: 0 <= i < |q| ==> Blank(q[i]);
      BlankScansToNothing(q);
    }
  }

  lemma {:induction false} BlankScansToNothing(q: string)
    requires forall i :: 0 <= i < |q| ==> Blank(q[i])
    ensures Scan(q) == Some([])
  {
    if q != "" { BlankScansToNothing(q[1..]); }
  }
}
