/**
 When a host and path are prohibited, and when prohibiting a wildcard path prohibits all it
 covers (pkg/brownfield/targets.go).
 */
module Prohibition {
  import opened Strings
  import opened Targets

  ghost predicate PathProhibits(b: string, p: string) {
    b == "" || b == "/*" || Lower(p) == Lower(b) || Covers(b, p)
  }

  predicate HostProhibits(b: string, h: string) {
    b == "" || Lower(h) == Lower(b)
  }

  ghost predicate EntryProhibits(b: Target, t: Target) {
    HostProhibits(b.host, t.host) && PathProhibits(b.path, t.path)
  }

  ghost predicate Blacklisted(t: Target, blacklist: seq<Target>) {
    exists k :: 0 <= k < |blacklist| && EntryProhibits(blacklist[k], t)
  }

  method IsBlacklisted(t: Target, blacklist: seq<Target>) returns (r: bool)
    ensures r == Blacklisted(t, blacklist)
  {
    for k := 0 to |blacklist|
      invariant forall j :: 0 <= j < k ==> !EntryProhibits(blacklist[j], t)
    {
      var b := blacklist[k];
      var hostIsBlacklisted := b.host == "" || Lower(t.host) == Lower(b.host);
      var covered := Contains(b.path, t.path);
      var pathIsBlacklisted := b.path == "" || b.path == "/*" || Lower(t.path) == Lower(b.path) || covered;
      if hostIsBlacklisted && pathIsBlacklisted { return true; }
    }
    return false;
  }

  /** Some prohibited target names the host, or none, and a path that prohibits this one, or none. */
  ghost predicate ProhibitedBy(t: Target, prohibited: ProhibitedTarget) {
    && HostProhibits(prohibited.host, t.host)
    && (prohibited.paths == [] || exists i :: 0 <= i < |prohibited.paths| && PathProhibits(prohibited.paths[i], t.path))
  }

  ghost predicate Prohibited(t: Target, prohibited: seq<ProhibitedTarget>) {
    exists k :: 0 <= k < |prohibited| && ProhibitedBy(t, prohibited[k])
  }

  /** A path prohibits the same paths in lower case. */
  lemma {:induction false} LowerCaseEntry(b: string, p: string)
    ensures PathProhibits(Lower(b), p) == PathProhibits(b, p)
  {
    LowerIdempotent(b);
    var l := Lower(b);
    assert b == "" <==> l == "";
    assert b == "/*" <==> l == "/*" by { LowerFixed(b, "/*"); }
    assert b == "*" <==> l == "*" by { LowerFixed(b, "*"); }
    assert EndsWithStar(b) <==> EndsWithStar(l);
  }

  lemma {:induction false} LowerFixed(b: string, w: string)
    requires forall i :: 0 <= i < |w| ==> SlashOrStar(w[i])
    ensures Lower(b) == w <==> b == w
  {
    if Lower(b) == w {
      forall i | 0 <= i < |b| ensures b[i] == w[i] {
        assert w[i] == LowerChar(b[i]) && SlashOrStar(w[i]);
      }
    }
    if b == w {
      forall i | 0 <= i < |b| ensures Lower(b)[i] == w[i] {
        assert SlashOrStar(w[i]);
      }
    }
  }

  /** The entries of one prohibited target. */
  function EntriesOf(p: ProhibitedTarget): (r: seq<Target>)
    ensures r != []
    ensures forall k :: 0 <= k < |r| ==> r[k].host == p.host
  {
    if p.paths == [] then [Target(p.host, "")]
    else seq(|p.paths|, i requires 0 <= i < |p.paths| => Target(p.host, Lower(p.paths[i])))
  }

  function Entries(prohibited: seq<ProhibitedTarget>): (r: seq<Target>)
    ensures r == [] <==> prohibited == []
  {
    if prohibited == [] then []
    else Entries(prohibited[..|prohibited| - 1]) + EntriesOf(prohibited[|prohibited| - 1])
  }

  lemma {:induction false} OneEntry(t: Target, p: ProhibitedTarget)
    ensures Blacklisted(t, EntriesOf(p)) <==> ProhibitedBy(t, p)
  {
    var es := EntriesOf(p);
    if p.paths == [] {
      assert es[0] == Target(p.host, "");
      assert EntryProhibits(es[0], t) <==> HostProhibits(p.host, t.host);
    } else {
      forall i | 0 <= i < |es| ensures EntryProhibits(es[i], t) <==>
        HostProhibits(p.host, t.host) && PathProhibits(p.paths[i], t.path) {
        LowerCaseEntry(p.paths[i], t.path);
      }
    }
  }

  lemma {:induction false} BlacklistedConcat(t: Target, a: seq<Target>, b: seq<Target>)
    ensures Blacklisted(t, a + b) <==> Blacklisted(t, a) || Blacklisted(t, b)
  {
    var c := a + b;
    forall k | 0 <= k < |a| ensures c[k] == a[k] {}
    forall k | 0 <= k < |b| ensures c[|a| + k] == b[k] {}
    if k :| 0 <= k < |c| && EntryProhibits(c[k], t) {
      if k >= |a| {
        assert EntryProhibits(b[k - |a|], t);
      }
    }
  }

  /** The blacklist built from the prohibited targets prohibits what they say. */
  lemma {:induction false} EntriesSay(t: Target, prohibited: seq<ProhibitedTarget>)
    ensures Blacklisted(t, Entries(prohibited)) <==> Prohibited(t, prohibited)
  {
    if prohibited != [] {
      var n := |prohibited| - 1;
      var init, last := prohibited[..n], prohibited[n];
      EntriesSay(t, init);
      OneEntry(t, last);
      BlacklistedConcat(t, Entries(init), EntriesOf(last));
      assert forall k :: 0 <= k < n ==> prohibited[k] == init[k];
    }
  }

  /** The path is prohibited by an entry for `b`: everything is by the blank path and slash-star, otherwise
      equality ignoring case and covering decide. */
  ghost predicate PathIsProhibited(b: string, p: string) {
    b == "" || b == "/*" || SameIgnoringCase(p, b) || Covers(b, p)
  }

  /** What it takes for a target to be prohibited, in terms of the prohibited targets' own fields. */
  lemma {:induction false} ProhibitedIff(t: Target, prohibited: seq<ProhibitedTarget>)
    ensures Prohibited(t, prohibited) <==>
      exists k :: 0 <= k < |prohibited|
                  && (prohibited[k].host == "" || SameIgnoringCase(t.host, prohibited[k].host))
                  && (prohibited[k].paths == [] || exists b :: b in prohibited[k].paths && PathIsProhibited(b, t.path))
  {
    forall k | 0 <= k < |prohibited|
      ensures ProhibitedBy(t, prohibited[k]) <==>
        && (prohibited[k].host == "" || SameIgnoringCase(t.host, prohibited[k].host))
        && (prohibited[k].paths == [] || exists b :: b in prohibited[k].paths && PathIsProhibited(b, t.path))
    {
      LowerSame(t.host, prohibited[k].host);
      forall b ensures PathProhibits(b, t.path) <==> PathIsProhibited(b, t.path) {
        LowerSame(t.path, b);
      }
    }
  }

  /** GetTargetBlacklist; EntriesSay gives the list's meaning. */
  method GetTargetBlacklist(prohibited: seq<ProhibitedTarget>) returns (blacklist: seq<Target>)
    ensures blacklist == Entries(prohibited)
    ensures blacklist == [] <==> prohibited == []
  {
    blacklist := [];
    for k := 0 to |prohibited|
      invariant blacklist == Entries(prohibited[..k])
    {
      blacklist := AppendEntries(blacklist, prohibited[k]);
      assert prohibited[..k + 1][..k] == prohibited[..k];
    }
    assert prohibited[..|prohibited|] == prohibited;
  }

  method AppendEntries(before: seq<Target>, p: ProhibitedTarget) returns (blacklist: seq<Target>)
    ensures blacklist == before + EntriesOf(p)
  {
    blacklist := before;
    if |p.paths| == 0 {
      blacklist := blacklist + [Target(p.host, "")];
    }
    for i := 0 to |p.paths|
      invariant p.paths != [] ==> blacklist == before + EntriesOf(p)[..i]
      invariant p.paths == [] ==> blacklist == before + EntriesOf(p)
    {
      blacklist := blacklist + [Target(p.host, Lower(p.paths[i]))];
    }
  }

  // ----------------------------------------------------------------------- downward closure

  /** Prohibiting a plain wildcard path prohibits everything that path covers. */
  ghost predicate DownwardClosed(b: string) {
    forall cs: seq<string>, o: string ::
      Plain(cs) && PathProhibits(b, Wildcard(cs)) && Covers(Wildcard(cs), o) ==> PathProhibits(b, o)
  }

  /** A leading slash and non-empty star-free chunks, or nothing. */
  predicate PlainPath(s: string) {
    var a := Split(s);
    a[0] == "" && Plain(a[1..])
  }

  /** A star chunk comes first, or after a leading slash and non-empty star-free chunks. */
  predicate PlainStem(a: seq<string>, i: nat)
    requires i < |a|
  {
    a[i] == "*" && (i == 0 || (a[0] == "" && Plain(a[1..i])))
  }

  predicate HasPlainStem(a: seq<string>) {
    exists i :: 0 <= i < |a| && PlainStem(a, i)
  }

  /** The entry is neither exact, nor a plain wildcard, nor one that matches no plain wildcard. */
  ghost predicate Irregular(b: string) {
    && EndsWithStar(b) && !CoversAll(b)
    && !PlainWildcard(Lower(b))
    && (PlainPath(TrimRight(Lower(b))) || HasPlainStem(Split(Lower(b))))
  }

  ghost predicate PlainWildcard(s: string) {
    exists cs :: Plain(cs) && s == Wildcard(cs)
  }

  lemma {:induction false} PlainPathIs(s: string)
    requires PlainPath(s)
    ensures s == SlashPath(Split(s)[1..])
  {
    PathFromChunks(s, Split(s)[1..]);
  }

  lemma {:induction false} PathIsPlain(cs: seq<string>)
    requires Plain(cs)
    ensures PlainPath(SlashPath(cs))
  {
    SplitPath(cs);
    assert ([""] + cs)[1..] == cs;
  }

  /** What a regular wildcard entry covers is closed under covering. */
  lemma {:induction false} WildcardClosed(bs: seq<string>, cs: seq<string>, o: string)
    requires Plain(bs) && Plain(cs) && bs != []
    requires Covers(Wildcard(bs), Wildcard(cs)) && Covers(Wildcard(cs), o)
    ensures Covers(Wildcard(bs), o)
  {
    var lb, lc := LowerAll(bs), LowerAll(cs);
    CoversIsChunkPrefix(bs, cs);
    PlainWildcardCovers(bs, o);
    assert cs != [];
    PlainWildcardCovers(cs, o);
    if lb != lc && TrimRight(Lower(o)) == SlashPath(lc) {
      TrimIsPrefix(Lower(o));
      LowerPlain(cs);
      StrictlyBelow(lb, lc, Lower(o));
    }
  }

  lemma {:induction false} TrimIsPrefix(s: string)
    ensures StartsWith(s, TrimRight(s))
  {
    if s != "" && SlashOrStar(s[|s| - 1]) {
      TrimIsPrefix(s[..|s| - 1]);
    }
  }

  lemma {:induction false} StrictlyBelow(bs: seq<string>, cs: seq<string>, o: string)
    requires Plain(cs) && bs < cs && StartsWith(o, SlashPath(cs))
    ensures [""] + bs <= Split(o)
  {
    assert Plain(bs) by {
      forall i | 0 <= i < |bs| ensures PlainChunk(bs[i]) { assert bs[i] == cs[i]; }
    }
    SplitPath(bs);
    SplitPath(cs);
    ChunkPrefix(SlashPath(bs), SlashPath(cs));
    assert SlashPath(cs) != SlashPath(bs) by { assert |[""] + bs| != |[""] + cs|; }
    var p := SlashPath(bs) + "/";
    assert o[..|p|] == SlashPath(cs)[..|p|] == p;
    ChunkPrefix(SlashPath(bs), o);
  }

  /** A regular entry is downward closed. */
  lemma {:induction false} RegularIsClosed(b: string, cs: seq<string>, o: string)
    requires !Irregular(b) && Plain(cs)
    requires PathProhibits(b, Wildcard(cs)) && Covers(Wildcard(cs), o)
    ensures PathProhibits(b, o)
  {
    if !CoversAll(b) {
      RegularMatch(b, cs);
      var bs := WildcardChunks(b);
      WildcardEntryClosed(b, bs, cs, o);
    }
  }

  lemma {:induction false} RegularMatch(b: string, cs: seq<string>)
    requires !Irregular(b) && Plain(cs) && PathProhibits(b, Wildcard(cs)) && !CoversAll(b)
    ensures PlainWildcard(Lower(b))
  {
    MatchesWildcard(b, cs);
    MatchesPlain(b, cs);
  }

  lemma {:induction false} WildcardChunks(b: string) returns (bs: seq<string>)
    requires PlainWildcard(Lower(b)) && !CoversAll(b)
    ensures Plain(bs) && bs != [] && Lower(b) == Wildcard(bs)
  {
    bs :| Plain(bs) && Lower(b) == Wildcard(bs);
    LowerFixed(b, "/*");
  }

  /** Only a wildcard prohibits a wildcard. */
  lemma {:induction false} MatchesWildcard(b: string, cs: seq<string>)
    requires PathProhibits(b, Wildcard(cs)) && !CoversAll(b)
    ensures EndsWithStar(b)
  {
    var p := Wildcard(cs);
    assert p[|p| - 1] == '*' && Lower(p)[|p| - 1] == '*';
    assert EndsWithStar(b) || Lower(b) == Lower(p);
    assert Lower(b) == Lower(p) ==> LowerChar(b[|b| - 1]) == '*';
  }

  lemma {:induction false} WildcardEntryClosed(b: string, bs: seq<string>, cs: seq<string>, o: string)
    requires Plain(bs) && bs != [] && Plain(cs) && Lower(b) == Wildcard(bs)
    requires PathProhibits(b, Wildcard(cs)) && Covers(Wildcard(cs), o)
    ensures PathProhibits(b, o)
  {
    LowerCaseEntry(b, o);
    LowerCaseEntry(b, Wildcard(cs));
    CoversIsChunkPrefix(bs, bs);
    WildcardEntry(bs, Wildcard(cs));
    WildcardClosed(bs, cs, o);
  }

  lemma {:induction false} WildcardEntry(bs: seq<string>, o: string)
    requires Plain(bs) && bs != []
    requires PathProhibits(Wildcard(bs), o)
    ensures Covers(Wildcard(bs), o)
  {
    assert EndsWithStar(Wildcard(bs));
  }

  /** A wildcard entry that prohibits a plain wildcard is one, or trims to a plain path, or has a plain stem. */
  lemma {:induction false} MatchesPlain(b: string, cs: seq<string>)
    requires Plain(cs) && PathProhibits(b, Wildcard(cs)) && EndsWithStar(b) && !CoversAll(b)
    ensures PlainWildcard(Lower(b)) || PlainPath(TrimRight(Lower(b))) || HasPlainStem(Split(Lower(b)))
  {
    var lc, a := LowerAll(cs), Split(Lower(b));
    LowerWildcard(cs);
    LowerPlain(cs);
    TrimPath(lc);
    PathIsPlain(lc);
    SplitWildcard(lc);
    var w := [""] + lc + ["*"];
    if StarReached(a, w) {
      var i: nat :| i < |a| && i <= |w| && a[i] == "*" && a[..i] == w[..i];
      StemOfWildcard(a, lc, i);
    }
  }

  lemma {:induction false} StemOfWildcard(a: seq<string>, lc: seq<string>, i: nat)
    requires Plain(lc)
    requires i < |a| && i <= |lc| + 2 && a[i] == "*" && a[..i] == ([""] + lc + ["*"])[..i]
    ensures HasPlainStem(a)
  {
    var w := [""] + lc + ["*"];
    if i == |lc| + 2 {
      assert a[..i][i - 1] == w[i - 1] == "*";
      assert a[..i - 1] == a[..i][..i - 1] == w[..i - 1];
      StemOfWildcard(a, lc, i - 1);
    } else if i > 0 {
      assert a[1..i] == a[..i][1..] == w[..i][1..] == lc[..i - 1];
      assert a[0] == a[..i][0] == "";
      assert PlainStem(a, i);
    } else {
      assert PlainStem(a, i);
    }
  }

  // ------------------------------------------------- irregular entries are not downward closed

  /** The chunks of a plain path whose last chunk is continued. */
  lemma {:induction false} ContinuedPath(cs: seq<string>, w: string)
    requires Plain(cs) && cs != [] && '/' !in w
    ensures Split(SlashPath(cs) + w) == [""] + cs[..|cs| - 1] + [cs[|cs| - 1] + w]
  {
    var init, c := cs[..|cs| - 1], cs[|cs| - 1];
    assert Plain(init) && PlainChunk(c);
    assert SlashPath(cs) + w == SlashPath(init) + "/" + (c + w);
    SplitSlash(SlashPath(init), c + w);
    SplitPath(init);
    SplitNoSlash(c + w);
  }

  lemma {:induction false} NotStarAt(cs: seq<string>, w: string)
    requires Plain(cs) && '/' !in w && |w| >= 1 && (cs == [] ==> |w| >= 2)
    ensures "*" !in Split(SlashPath(cs) + w)
  {
    if cs == [] {
      SplitNoSlash(w);
      assert SlashPath(cs) + w == w;
    } else {
      ContinuedPath(cs, w);
      assert |cs[|cs| - 1]| >= 1;
    }
  }

  /** An entry that trims to a plain path prohibits the wildcard below that path, not all of it. */
  lemma {:induction false} TrimmedIsNotClosed(b: string)
    requires Irregular(b) && PlainPath(TrimRight(Lower(b)))
    ensures !DownwardClosed(b)
  {
    var l := Lower(b);
    var t := TrimRight(l);
    var cs := Split(t)[1..];
    PlainPathIs(t);
    assert t == SlashPath(cs) && Plain(cs);
    var p := Wildcard(cs);
    var ds := cs + ["y"];
    var o := SlashPath(ds);
    assert ds[..|ds| - 1] == cs;
    assert PlainChunk("y");
    assert Plain(ds);
    LowerIdempotent(b);
    LoweredTrim(b);
    LoweredPath(cs, t);
    LowerWildcard(cs);
    TrimPath(cs);
    assert PathProhibits(b, p);
    CoversIsChunkPrefix(cs, ds);
    assert LowerAll(cs) <= LowerAll(ds);
    assert Covers(p, o);
    assert !PathProhibits(b, o) by { TrimmedMisses(b, cs, ds); }
  }

  lemma {:induction false} LoweredTrim(b: string)
    ensures Lower(TrimRight(Lower(b))) == TrimRight(Lower(b))
  {
    TrimIsPrefix(Lower(b));
  }

  /** Chunks of a lower-case plain path are in lower case. */
  lemma {:induction false} LoweredPath(cs: seq<string>, t: string)
    requires Plain(cs) && t == SlashPath(cs) && Lower(t) == t
    ensures LowerAll(cs) == cs
  {
    LowerPath(cs);
    LowerPlain(cs);
    SplitPath(cs);
    SplitPath(LowerAll(cs));
    assert ([""] + cs)[1..] == cs;
    assert ([""] + LowerAll(cs))[1..] == LowerAll(cs);
  }

  lemma {:induction false} TrimmedMisses(b: string, cs: seq<string>, ds: seq<string>)
    requires Irregular(b) && TrimRight(Lower(b)) == SlashPath(cs)
    requires Plain(cs) && LowerAll(cs) == cs && ds == cs + ["y"]
    ensures !PathProhibits(b, SlashPath(ds))
  {
    var o := SlashPath(ds);
    assert ds[..|ds| - 1] == cs;
    assert PlainChunk("y");
    assert Plain(ds);
    LowerAllPlusY(cs, ds);
    LowerPath(ds);
    TrimPath(ds);
    assert |o| == |SlashPath(cs)| + 2 && o[|o| - 1] == 'y';
    if |b| <= |o| {
      NoStarInShort(b, cs);
    }
    Misses(b, o);
  }

  lemma {:induction false} Misses(b: string, o: string)
    requires EndsWithStar(b) && !CoversAll(b) && o != "" && !SlashOrStar(o[|o| - 1])
    requires TrimRight(Lower(b)) != TrimRight(Lower(o))
    requires |b| <= |o| ==> "*" !in Split(Lower(b))
    ensures !PathProhibits(b, o)
  {
    assert Lower(b)[|b| - 1] == '*';
    assert Lower(o)[|o| - 1] != '*';
  }

  lemma {:induction false} NoStarInShort(b: string, cs: seq<string>)
    requires EndsWithStar(b) && !CoversAll(b) && !PlainWildcard(Lower(b))
    requires Plain(cs) && TrimRight(Lower(b)) == SlashPath(cs) && |b| <= |SlashPath(cs)| + 2
    ensures "*" !in Split(Lower(b))
  {
    var l, t := Lower(b), SlashPath(cs);
    TrimIsPrefix(l);
    var w := l[|t|..];
    assert l == t + w;
    ShortTail(l, t, w);
    LowerFixed(b, "*");
    assert l != Wildcard(cs);
    StarTail(cs, w);
  }

  lemma {:induction false} StarTail(cs: seq<string>, w: string)
    requires Plain(cs) && (w == "*" || w == "**" || w == "/*")
    requires SlashPath(cs) + w != Wildcard(cs) && SlashPath(cs) + w != "*"
    ensures "*" !in Split(SlashPath(cs) + w)
  {
    if cs == [] {
      assert SlashPath(cs) + w == w;
    }
    NotStarAt(cs, w);
  }

  lemma {:induction false} LowerAllPlusY(cs: seq<string>, ds: seq<string>)
    requires LowerAll(cs) == cs && ds == cs + ["y"]
    ensures LowerAll(ds) == ds
  {
    assert Lower("y") == "y";
  }

  lemma {:induction false} TrimmedTail(s: string, i: nat)
    requires |TrimRight(s)| <= i < |s|
    ensures SlashOrStar(s[i])
  {
    if i < |s| - 1 {
      TrimmedTail(s[..|s| - 1], i);
    }
  }

  lemma {:induction false} ShortTail(l: string, t: string, w: string)
    requires l == t + w && t == TrimRight(l) && |w| <= 2 && EndsWithStar(l)
    ensures w == "*" || w == "**" || w == "/*"
  {
    TrimIsPrefix(l[..|l| - 1]);
    assert |TrimRight(l)| < |l|;
    forall i | 0 <= i < |w| ensures SlashOrStar(w[i]) {
      assert w[i] == l[|t| + i];
      TrimmedTail(l, |t| + i);
    }
    assert w[|w| - 1] == '*';
  }

  function Ys(n: nat): (s: string)
    ensures |s| == n && forall i :: 0 <= i < n ==> s[i] == 'y'
  {
    seq(n, _ => 'y')
  }

  /** An entry with more behind a plain stem prohibits a long enough wildcard but not the path itself. */
  lemma {:induction false} StemIsNotClosed(b: string, i: nat)
    requires Irregular(b) && !PlainPath(TrimRight(Lower(b)))
    requires i < |Split(Lower(b))| && PlainStem(Split(Lower(b)), i)
    ensures !DownwardClosed(b)
  {
    var ds := if i == 0 then [] else Split(Lower(b))[1..i];
    StemIsShort(b, i, ds);
    var es := StemWitness(b, ds);
    CoversIsChunkPrefix(es, es);
    StemReached(b, i, ds, es);
    StemMisses(b, es);
    NotClosed(b, es, SlashPath(es));
  }

  /** A path below the stem that is shorter than the entry, though its wildcard is not. */
  lemma {:induction false} StemWitness(b: string, ds: seq<string>) returns (es: seq<string>)
    requires Plain(ds) && |SlashPath(ds)| + 3 <= |b|
    ensures Plain(es) && es != [] && ds <= es
    ensures |SlashPath(es)| < |b| <= |Wildcard(es)|
  {
    var room := |b| - |SlashPath(ds)| - 3;
    var z := Ys(if room < 1 then 1 else room);
    es := ds + [z];
    assert es[..|es| - 1] == ds;
    assert PlainChunk(z);
    assert |SlashPath(es)| == |SlashPath(ds)| + 1 + |z|;
  }

  lemma {:induction false} NotClosed(b: string, cs: seq<string>, o: string)
    requires Plain(cs) && PathProhibits(b, Wildcard(cs)) && Covers(Wildcard(cs), o) && !PathProhibits(b, o)
    ensures !DownwardClosed(b)
  {
  }

  lemma {:induction false} StemMisses(b: string, es: seq<string>)
    requires EndsWithStar(b) && !CoversAll(b) && !PlainPath(TrimRight(Lower(b)))
    requires Plain(es) && es != [] && |SlashPath(es)| < |b|
    ensures !PathProhibits(b, SlashPath(es))
  {
    var o, c := SlashPath(es), es[|es| - 1];
    assert PlainChunk(c);
    assert o[|o| - 1] == c[|c| - 1];
    LowerPlain(es);
    LowerPath(es);
    TrimPath(LowerAll(es));
    PathIsPlain(LowerAll(es));
    Misses(b, o);
  }

  lemma {:induction false} StemReached(b: string, i: nat, ds: seq<string>, es: seq<string>)
    requires EndsWithStar(b) && i < |Split(Lower(b))| && PlainStem(Split(Lower(b)), i)
    requires ds == if i == 0 then [] else Split(Lower(b))[1..i]
    requires Plain(es) && ds <= es && LowerAll(ds) == ds
    requires |b| <= |Wildcard(es)|
    ensures Covers(b, Wildcard(es))
  {
    var a := Split(Lower(b));
    var les := LowerAll(es);
    LowerPlain(es);
    LowerWildcard(es);
    SplitWildcard(les);
    var w := [""] + les + ["*"];
    assert Split(Lower(Wildcard(es))) == w;
    if i > 0 {
      assert LowerAll(ds) <= les;
      assert a[..i] == [""] + ds;
      assert w[..i] == [""] + les[..i - 1];
      assert les[..i - 1] == ds;
    }
    assert a[..i] == w[..i];
  }

  /** Something follows the stem's star. */
  lemma {:induction false} StemIsShort(b: string, i: nat, ds: seq<string>)
    requires EndsWithStar(b) && !CoversAll(b) && !PlainWildcard(Lower(b))
    requires i < |Split(Lower(b))| && PlainStem(Split(Lower(b)), i)
    requires ds == if i == 0 then [] else Split(Lower(b))[1..i]
    ensures Plain(ds) && LowerAll(ds) == ds
    ensures |SlashPath(ds)| + 3 <= |b|
  {
    var l, a := Lower(b), Split(Lower(b));
    LowerIdempotent(b);
    assert l[|l| - 1] == '*';
    if i == 0 {
      SplitNoSlash("*");
      assert a[..1] == ["*"];
      LowerFixed(b, "*");
      GoesOn("*", l);
    } else {
      SplitWildcard(ds);
      assert a[..i + 1] == [""] + ds + ["*"];
      assert l != Wildcard(ds);
      GoesOn(Wildcard(ds), l);
      StemIsLower(ds, l);
    }
  }

  lemma {:induction false} GoesOn(stem: string, l: string)
    requires Split(stem) <= Split(l) && l != stem && EndsWithStar(l)
    ensures |l| >= |stem| + 2 && StartsWith(l, stem)
  {
    ChunkPrefix(stem, l);
    var s := stem + "/";
    assert l[..|s|] == s;
    assert s[|stem|] == '/';
    assert l[..|stem|] == s[..|stem|] == stem;
  }

  lemma {:induction false} StemIsLower(ds: seq<string>, l: string)
    requires Plain(ds) && Lower(l) == l && StartsWith(l, Wildcard(ds))
    ensures LowerAll(ds) == ds
  {
    var t := SlashPath(ds);
    assert l[..|t|] == Wildcard(ds)[..|t|] == t;
    forall k | 0 <= k < |t| ensures Lower(t)[k] == t[k] {
      assert t[k] == l[k] == Lower(l)[k];
    }
    LoweredPath(ds, t);
  }

  // An entry is downward closed exactly when it is not irregular.
  lemma {:induction false} DownwardClosedIff(b: string)
    ensures DownwardClosed(b) <==> !Irregular(b)
  {
    if Irregular(b) {
      if PlainPath(TrimRight(Lower(b))) {
        TrimmedIsNotClosed(b);
      } else {
        var i: nat :| i < |Split(Lower(b))| && PlainStem(Split(Lower(b)), i);
        StemIsNotClosed(b, i);
      }
    } else {
      forall cs: seq<string>, o: string | Plain(cs) && PathProhibits(b, Wildcard(cs)) && Covers(Wildcard(cs), o)
        ensures PathProhibits(b, o)
      {
        RegularIsClosed(b, cs, o);
      }
    }
  }

  /** With regular entries only, a prohibited plain wildcard takes everything it covers with it. */
  lemma {:induction false} ProhibitionIsDownwardClosed(host: string, cs: seq<string>, o: string, blacklist: seq<Target>)
    requires Plain(cs) && forall k :: 0 <= k < |blacklist| ==> !Irregular(blacklist[k].path)
    requires Blacklisted(Target(host, Wildcard(cs)), blacklist) && Covers(Wildcard(cs), o)
    ensures Blacklisted(Target(host, o), blacklist)
  {
    var k :| 0 <= k < |blacklist| && EntryProhibits(blacklist[k], Target(host, Wildcard(cs)));
    DownwardClosedIff(blacklist[k].path);
    assert EntryProhibits(blacklist[k], Target(host, o));
  }

  // The entry /x* prohibits /x/* but not /x/y below it.
  lemma {:induction false} ProhibitionHasGap()
    ensures Blacklisted(Target("h", "/x/*"), [Target("h", "/x*")])
    ensures Covers("/x/*", "/x/y")
    ensures !Blacklisted(Target("h", "/x/y"), [Target("h", "/x*")])
  {
    SmallPaths();
    assert Lower("/x*") == "/x*" && Lower("/x/*") == "/x/*" && Lower("/x/y") == "/x/y";
    var b := Target("h", "/x*");
    assert EntryProhibits([b][0], Target("h", "/x/*"));
    Misses("/x*", "/x/y");
    assert !EntryProhibits(b, Target("h", "/x/y"));
  }

  lemma {:induction false} SmallPaths()
    ensures TrimRight("/x*") == TrimRight("/x/*") == "/x" && TrimRight("/x/y") == "/x/y"
    ensures Covers("/x/*", "/x/y") && "*" !in Split("/x*")
  {
    var cs, ds := ["x"], ["x", "y"];
    SmallSpelled(cs, ds);
    TrimPath(cs);
    TrimPath(ds);
    TrimSnoc("/x", '*');
    assert "/x" + ['*'] == "/x*";
    NotStarAt(cs, "*");
    CoversIsChunkPrefix(cs, ds);
  }

  lemma {:induction false} SmallSpelled(cs: seq<string>, ds: seq<string>)
    requires cs == ["x"] && ds == ["x", "y"]
    ensures Plain(cs) && Plain(ds) && LowerAll(cs) <= LowerAll(ds)
    ensures SlashPath(cs) == "/x" && SlashPath(ds) == "/x/y" && Wildcard(cs) == "/x/*"
  {
    assert PlainChunk("x");
    assert PlainChunk("y");
    assert cs[..0] == [] && ds[..1] == cs;
    assert SlashPath([]) == "";
    assert SlashPath(cs) == "/x";
    assert LowerAll(ds)[..1] == LowerAll(cs);
  }
}
