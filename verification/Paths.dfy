/** Slash-separated relative paths.

    Joining parts without a slash and splitting at the slashes are inverse to each other, so a
    path stands for its list of parts. Rust's notion of a file extension and its test of a
    suffix differ on a file named ".md"; both are here. */
module Paths {

  predicate Part(s: string) {
    s != "" && '/' !in s
  }

  ghost predicate Parts(ps: seq<string>) {
    |ps| > 0 && forall i :: 0 <= i < |ps| ==> Part(ps[i])
  }

  function Join(ps: seq<string>): string {
    if |ps| == 0 then "" else if |ps| == 1 then ps[0] else ps[0] + "/" + Join(ps[1..])
  }

  // Index of the first slash, or the length.
  function Slash(s: string): (n: nat)
    ensures n <= |s| && '/' !in s[..n] && (n < |s| ==> s[n] == '/')
  {
    if s == "" || s[0] == '/' then 0
    else
      var n := 1 + Slash(s[1..]);
      assert s[..n] == [s[0]] + s[1..][..n - 1];
      n
  }

  function Split(s: string): seq<string>
    decreases |s|
  {
    var n := Slash(s);
    if n == |s| then [s] else [s[..n]] + Split(s[n + 1..])
  }

  lemma SlashOf(p: string, rest: string)
    requires '/' !in p && (rest == "" || rest[0] == '/')
    ensures Slash(p + rest) == |p|
  {
    var s := p + rest;
    var n := Slash(s);
    assert forall k :: 0 <= k < |p| ==> s[k] == p[k];
    assert |rest| > 0 ==> s[|p|] == '/';
    forall k | 0 <= k < n ensures s[k] != '/' {
      assert s[k] == s[..n][k];
    }
  }

  lemma {:induction false} SplitJoin(ps: seq<string>)
    requires Parts(ps)
    ensures Split(Join(ps)) == ps
  {
    if |ps| == 1 {
      SlashOf(ps[0], "");
      assert ps[0] + "" == ps[0];
    } else {
      SplitJoin(ps[1..]);
      SplitFirst(ps[0], Join(ps[1..]));
      assert ps == [ps[0]] + ps[1..];
    }
  }

  lemma SplitFirst(p: string, rest: string)
    requires Part(p)
    ensures Split(p + "/" + rest) == [p] + Split(rest)
  {
    SlashOf(p, "/" + rest);
    assert p + "/" + rest == p + ("/" + rest);
    assert (p + "/" + rest)[..|p|] == p && (p + "/" + rest)[|p| + 1..] == rest;
  }

  predicate EndsWith(s: string, suffix: string) {
    |suffix| <= |s| && s[|s| - |suffix|..] == suffix
  }

  // Rust's Path::extension is "md": a file named just ".md" has no extension.
  predicate HasMdExtension(name: string) {
    |name| > 3 && EndsWith(name, ".md")
  }

  lemma MdExtensionMeans(name: string)
    ensures HasMdExtension(name) <==> exists stem: string :: stem != "" && name == stem + ".md"
  {
    if HasMdExtension(name) { assert name == name[..|name| - 3] + ".md"; }
  }

  // The top directories of the wiki.
  const TIERS: seq<string> := ["axioms", "mental-models", "projects", "decisions"]
}
