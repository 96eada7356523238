/**
 Prohibited targets: when one path covers another, and when a host and path are
 prohibited (pkg/brownfield/targets.go).
 */
module Targets {
  import opened Strings

  datatype Target = Target(host: string, path: string)

  /** The spec of an AzureIngressProhibitedTarget. */
  datatype ProhibitedTarget = ProhibitedTarget(host: string, paths: seq<string>)

  predicate EndsWithStar(s: string) {
    s != "" && s[|s| - 1] == '*'
  }

  predicate CoversAll(p: string) {
    p == "" || p == "*" || p == "/*"
  }

  /** Following the chunks of `a`, a star chunk comes up before any difference from `b`. */
  ghost predicate StarReached(a: seq<string>, b: seq<string>) {
    exists i :: 0 <= i < |a| && i <= |b| && a[i] == "*" && a[..i] == b[..i]
  }

  /** What `p.contains(o)` means. */
  ghost predicate Covers(p: string, o: string) {
    || CoversAll(p)
    || (!EndsWithStar(p) && Lower(p) == Lower(o))
    || (EndsWithStar(p) && TrimRight(Lower(p)) == TrimRight(Lower(o)))
    || (EndsWithStar(p) && |p| <= |o| && StarReached(Split(Lower(p)), Split(Lower(o))))
  }

  /** A path at least as long does not run out of chunks first. */
  lemma {:induction false} LongerHasMoreChunks(p: string, o: string, i: nat)
    requires |p| <= |o|
    requires i < |Split(p)| && i <= |Split(o)| && Split(p)[..i] == Split(o)[..i]
    ensures i < |Split(o)|
  {
    if i == |Split(o)| {
      assert Split(o) == Split(p)[..i];
      ProperChunkPrefixIsShorter(o, p);
    }
  }

  /** TargetPath.contains. The loop never looks past the other path's chunks. */
  method Contains(p: string, o: string) returns (r: bool)
    ensures r == Covers(p, o)
  {
    if p == "" || p == "*" || p == "/*" { return true; }
    if !EndsWithStar(Lower(p)) { return Lower(p) == Lower(o); }
    if TrimRight(Lower(p)) == TrimRight(Lower(o)) { return true; }
    if |p| > |o| { return false; }
    var a, b := Split(Lower(p)), Split(Lower(o));
    for i := 0 to |a|
      invariant i <= |b| && a[..i] == b[..i]
      invariant forall j :: 0 <= j < i ==> a[j] != "*"
    {
      if a[i] == "*" { return true; }
      LongerHasMoreChunks(Lower(p), Lower(o), i);
      if a[i] != b[i] {
        forall k | 0 <= k < |a| && k <= |b| && a[k] == "*" ensures a[..k] != b[..k] {
          assert i < k && a[..k][i] != b[..k][i];
        }
        return false;
      }
      assert a[..i + 1] == a[..i] + [a[i]] && b[..i + 1] == b[..i] + [b[i]];
    }
    return false;
  }

  // ---------------------------------------------------------------- the meaning of a trailing wildcard

  lemma {:induction false} TrimSnoc(s: string, c: char)
    ensures SlashOrStar(c) ==> TrimRight(s + [c]) == TrimRight(s)
    ensures !SlashOrStar(c) ==> TrimRight(s + [c]) == s + [c]
  {
    assert (s + [c])[..|s|] == s;
  }

  lemma {:induction false} TrimStarSuffix(s: string)
    ensures TrimRight(s + "/*") == TrimRight(s)
  {
    TrimSnoc(s, '/');
    TrimSnoc(s + "/", '*');
    assert s + "/*" == (s + "/") + "*";
  }

  lemma {:induction false} SplitStarSuffix(s: string)
    ensures Split(s + "/*") == Split(s) + ["*"]
  {
    SplitSlash(s, "*");
    assert s + "/" + "*" == s + "/*";
    SplitNoSlash("*");
  }

  /** `x` is `a`, or goes on behind it with a slash. */
  ghost predicate AtOrBelow(x: string, a: string) {
    x == a || StartsWith(x, a + "/")
  }

  /** A star standing between slashes or at an end of `p`, and `o` agrees with `p` up to there. */
  ghost predicate AgreesUpToStar(p: string, o: string) {
    AtOrBelow(p, "*") || exists q :: AtOrBelow(p, q + "/*") && AtOrBelow(o, q)
  }

  lemma {:induction false} StarAgrees(p: string, o: string, i: nat)
    requires i < |Split(p)| && i <= |Split(o)| && Split(p)[i] == "*" && Split(p)[..i] == Split(o)[..i]
    ensures AgreesUpToStar(p, o)
  {
    var a, b := Split(p), Split(o);
    if i == 0 {
      SplitNoSlash("*");
      ChunkPrefix("*", p);
      assert ["*"] <= a;
    } else {
      ChunksHaveNoSlash(p);
      var cs := a[..i];
      var q := Join(cs);
      SplitJoin(cs);
      SplitStarSuffix(q);
      assert a[..i + 1] == cs + ["*"];
      ChunkPrefix(q + "/*", p);
      ChunkPrefix(q, o);
      assert cs <= b && cs + ["*"] <= a;
    }
  }

  lemma {:induction false} AgreeingReaches(p: string, o: string, q: string)
    requires AtOrBelow(p, q + "/*") && AtOrBelow(o, q)
    ensures StarReached(Split(p), Split(o))
  {
    SplitStarSuffix(q);
    ChunkPrefix(q + "/*", p);
    ChunkPrefix(q, o);
    var a, b, i := Split(p), Split(o), |Split(q)|;
    assert a[..i + 1] == Split(q) + ["*"];
    assert a[..i] == a[..i + 1][..i] == Split(q) == b[..i];
    assert a[i] == a[..i + 1][i] == "*";
  }

  lemma {:induction false} StarReachedIs(p: string, o: string)
    ensures StarReached(Split(p), Split(o)) <==> AgreesUpToStar(p, o)
  {
    var a, b := Split(p), Split(o);
    if i: nat :| i < |a| && i <= |b| && a[i] == "*" && a[..i] == b[..i] {
      StarAgrees(p, o, i);
    }
    if AtOrBelow(p, "*") {
      SplitNoSlash("*");
      ChunkPrefix("*", p);
      assert a[0] == "*" && a[..0] == b[..0];
    }
    if q :| AtOrBelow(p, q + "/*") && AtOrBelow(o, q) {
      AgreeingReaches(p, o, q);
    }
  }

  /** What covering comes to, for any two paths: everything for the blank path and the two bare wildcards;
      equality ignoring case without a star at the end; and with one, equality up to trailing slashes and
      stars, or agreement up to a star between slashes with a path at least as long. */
  lemma {:induction false} CoversIff(p: string, o: string)
    ensures Covers(p, o) <==>
      || p == "" || p == "*" || p == "/*"
      || (p[|p| - 1] != '*' && SameIgnoringCase(p, o))
      || (p[|p| - 1] == '*'
          && (TrimRight(Lower(p)) == TrimRight(Lower(o)) || (|p| <= |o| && AgreesUpToStar(Lower(p), Lower(o)))))
  {
    LowerSame(p, o);
    StarReachedIs(Lower(p), Lower(o));
  }

  // For star-free q, the path q/* covers exactly q, up to trailing slashes and stars, and what
  // lies below it, ignoring case.
  lemma {:induction false} WildcardCovers(q: string, o: string)
    requires q != "" && "*" !in Split(Lower(q))
    ensures Covers(q + "/*", o) <==> TrimRight(Lower(o)) == TrimRight(Lower(q)) || Split(Lower(q)) <= Split(Lower(o))
    ensures Covers(q + "/*", o) <==>
      TrimRight(Lower(o)) == TrimRight(Lower(q)) || Lower(o) == Lower(q) || StartsWith(Lower(o), Lower(q) + "/")
  {
    var p, lq, lo := q + "/*", Lower(q), Lower(o);
    LowerConcat(q, "/*");
    assert Lower("/*") == "/*";
    assert Lower(p) == lq + "/*";
    TrimStarSuffix(lq);
    SplitStarSuffix(lq);
    ChunkPrefix(lq, lo);
    StarAtEnd(Split(lq), Split(lo));
    assert |p| == |q| + 2 && EndsWithStar(p) && !CoversAll(p);
    if Split(lq) <= Split(lo) && |o| < |p| {
      ShortContinuation(lq, lo);
    }
  }

  lemma {:induction false} StarAtEnd(q: seq<string>, b: seq<string>)
    requires "*" !in q
    ensures StarReached(q + ["*"], b) <==> q <= b
  {
    var a := q + ["*"];
    if q <= b {
      assert a[|q|] == "*" && a[..|q|] == q == b[..|q|];
    }
  }

  /** A continuation by at most a slash differs only in what trimming removes. */
  lemma {:induction false} ShortContinuation(q: string, o: string)
    requires o == q || StartsWith(o, q + "/")
    requires |o| < |q| + 2
    ensures TrimRight(o) == TrimRight(q)
  {
    if o != q {
      assert o == q + ['/'];
      TrimSnoc(q, '/');
    }
  }

  // ------------------------------------------------------- paths of non-empty star-free chunks

  predicate PlainChunk(c: string) {
    c != "" && '/' !in c && '*' !in c
  }

  predicate Plain(cs: seq<string>) {
    forall i :: 0 <= i < |cs| ==> PlainChunk(cs[i])
  }

  /** Each chunk behind a slash. */
  function SlashPath(cs: seq<string>): string {
    if cs == [] then "" else SlashPath(cs[..|cs| - 1]) + "/" + cs[|cs| - 1]
  }

  function Wildcard(cs: seq<string>): string {
    SlashPath(cs) + "/*"
  }

  function LowerAll(cs: seq<string>): (r: seq<string>)
    ensures |r| == |cs| && forall i :: 0 <= i < |cs| ==> r[i] == Lower(cs[i])
  {
    seq(|cs|, i requires 0 <= i < |cs| => Lower(cs[i]))
  }

  lemma {:induction false} LowerPlain(cs: seq<string>)
    requires Plain(cs)
    ensures Plain(LowerAll(cs))
  {
    forall i | 0 <= i < |cs| ensures PlainChunk(LowerAll(cs)[i]) {
      assert PlainChunk(cs[i]);
    }
  }

  lemma {:induction false} LowerPath(cs: seq<string>)
    ensures Lower(SlashPath(cs)) == SlashPath(LowerAll(cs))
  {
    if cs != [] {
      var init, last := cs[..|cs| - 1], cs[|cs| - 1];
      LowerPath(init);
      LowerConcat(SlashPath(init) + "/", last);
      LowerConcat(SlashPath(init), "/");
      assert Lower("/") == "/";
      assert LowerAll(cs)[..|cs| - 1] == LowerAll(init);
    }
  }

  lemma {:induction false} LowerWildcard(cs: seq<string>)
    ensures Lower(Wildcard(cs)) == Wildcard(LowerAll(cs))
  {
    LowerPath(cs);
    LowerConcat(SlashPath(cs), "/*");
    assert Lower("/*") == "/*";
  }

  lemma {:induction false} SplitPath(cs: seq<string>)
    requires forall i :: 0 <= i < |cs| ==> '/' !in cs[i]
    ensures Split(SlashPath(cs)) == [""] + cs
  {
    if cs != [] {
      var init, last := cs[..|cs| - 1], cs[|cs| - 1];
      SplitPath(init);
      SplitSlash(SlashPath(init), last);
      SplitNoSlash(last);
    }
  }

  lemma {:induction false} SplitWildcard(cs: seq<string>)
    requires Plain(cs)
    ensures Split(Wildcard(cs)) == [""] + cs + ["*"]
  {
    SplitPath(cs);
    SplitStarSuffix(SlashPath(cs));
  }

  lemma {:induction false} TrimPath(cs: seq<string>)
    requires Plain(cs)
    ensures TrimRight(SlashPath(cs)) == SlashPath(cs)
    ensures TrimRight(Wildcard(cs)) == SlashPath(cs)
  {
    if cs != [] {
      var c := cs[|cs| - 1];
      assert SlashPath(cs)[|SlashPath(cs)| - 1] == c[|c| - 1];
    }
    TrimStarSuffix(SlashPath(cs));
  }

  /** A path is determined by its chunks. */
  lemma {:induction false} PathFromChunks(s: string, cs: seq<string>)
    requires Plain(cs)
    ensures s == SlashPath(cs) <==> Split(s) == [""] + cs
  {
    SplitPath(cs);
    JoinSplit(s);
    JoinSplit(SlashPath(cs));
  }

  /** A plain wildcard covers what has its chunks first or is it after trimming. */
  lemma {:induction false} PlainWildcardCovers(cs: seq<string>, o: string)
    requires Plain(cs) && cs != []
    ensures Covers(Wildcard(cs), o) <==>
      TrimRight(Lower(o)) == SlashPath(LowerAll(cs)) || [""] + LowerAll(cs) <= Split(Lower(o))
  {
    var lcs := LowerAll(cs);
    LowerPlain(cs);
    LowerPath(cs);
    SplitPath(lcs);
    TrimPath(lcs);
    WildcardCovers(SlashPath(cs), o);
  }

  // Between plain wildcards, covering is the prefix order on chunks, ignoring case.
  lemma {:induction false} CoversIsChunkPrefix(cs: seq<string>, ds: seq<string>)
    requires Plain(cs) && Plain(ds)
    ensures Covers(Wildcard(cs), Wildcard(ds)) <==> LowerAll(cs) <= LowerAll(ds)
    ensures Covers(Wildcard(cs), SlashPath(ds)) <==> LowerAll(cs) <= LowerAll(ds)
  {
    if cs != [] {
      var lcs, lds := LowerAll(cs), LowerAll(ds);
      LowerPlain(cs);
      LowerPlain(ds);
      LowerWildcard(ds);
      LowerPath(ds);
      SplitWildcard(lds);
      SplitPath(lds);
      TrimPath(lds);
      PlainWildcardCovers(cs, Wildcard(ds));
      PlainWildcardCovers(cs, SlashPath(ds));
      PathFromChunks(SlashPath(lds), lcs);
      PrefixBeforeStar(lcs, lds);
    }
  }

  lemma {:induction false} NoStarIn(cs: seq<string>, w: seq<string>, k: nat)
    requires Plain(cs) && cs <= w && k < |w| && w[k] == "*"
    ensures |cs| <= k
  {
    assert forall i :: 0 <= i < |cs| ==> PlainChunk(cs[i]) && cs[i] == w[i];
  }

  lemma {:induction false} PrefixBeforeStar(cs: seq<string>, ds: seq<string>)
    requires Plain(cs)
    ensures [""] + cs <= [""] + ds <==> cs <= ds
    ensures [""] + cs <= [""] + ds + ["*"] <==> cs <= ds
    ensures [""] + cs == [""] + ds ==> cs == ds
  {
    var a, b, c := [""] + cs, [""] + ds, [""] + ds + ["*"];
    assert a[1..] == cs && b[1..] == ds && c[1..] == ds + ["*"];
    if a <= c {
      assert cs <= ds + ["*"];
      NoStarIn(cs, ds + ["*"], |ds|);
      assert cs == (ds + ["*"])[..|cs|] == ds[..|cs|];
    }
  }

  // A partial order up to case.
  lemma {:induction false} CoversIsPartialOrder(cs: seq<string>, ds: seq<string>, es: seq<string>)
    requires Plain(cs) && Plain(ds) && Plain(es)
    ensures Covers(Wildcard(cs), Wildcard(cs))
    ensures Covers(Wildcard(cs), Wildcard(ds)) && Covers(Wildcard(ds), Wildcard(es)) ==>
      Covers(Wildcard(cs), Wildcard(es))
    ensures Covers(Wildcard(cs), Wildcard(ds)) && Covers(Wildcard(ds), Wildcard(cs)) <==>
      Lower(Wildcard(cs)) == Lower(Wildcard(ds))
  {
    CoversIsChunkPrefix(cs, cs);
    CoversIsChunkPrefix(cs, ds);
    CoversIsChunkPrefix(ds, cs);
    CoversIsChunkPrefix(ds, es);
    CoversIsChunkPrefix(cs, es);
    LowerWildcard(cs);
    LowerWildcard(ds);
    LowerPlain(cs);
    LowerPlain(ds);
    SplitWildcard(LowerAll(cs));
    SplitWildcard(LowerAll(ds));
    PrefixBeforeStar(LowerAll(cs), LowerAll(ds));
    PrefixBeforeStar(LowerAll(ds), LowerAll(cs));
  }
}
