/** The string operations of the path containment test, on ASCII strings. */
module Strings {

  function LowerChar(c: char): char {
    if 'A' <= c <= 'Z' then c - 'A' + 'a' else c
  }

  function Lower(s: string): (r: string)
    ensures |r| == |s| && forall i :: 0 <= i < |s| ==> r[i] == LowerChar(s[i])
  {
    seq(|s|, i requires 0 <= i < |s| => LowerChar(s[i]))
  }

  lemma LowerIdempotent(s: string)
    ensures Lower(Lower(s)) == Lower(s)
  {
  }

  /** The same letter, in capitals or not. */
  predicate SameLetter(c: char, d: char) {
    || c == d
    || ('A' <= c <= 'Z' && d as int == c as int + 32)
    || ('A' <= d <= 'Z' && c as int == d as int + 32)
  }

  predicate SameIgnoringCase(a: string, b: string) {
    |a| == |b| && forall i :: 0 <= i < |a| ==> SameLetter(a[i], b[i])
  }

  lemma {:induction false} LowerSame(a: string, b: string)
    ensures Lower(a) == Lower(b) <==> SameIgnoringCase(a, b)
  {
    if Lower(a) == Lower(b) {
      forall i | 0 <= i < |a| ensures SameLetter(a[i], b[i]) {
        assert Lower(a)[i] == Lower(b)[i];
      }
    }
    if SameIgnoringCase(a, b) {
      forall i | 0 <= i < |a| ensures Lower(a)[i] == Lower(b)[i] {
        assert SameLetter(a[i], b[i]);
      }
    }
  }

  lemma LowerConcat(a: string, b: string)
    ensures Lower(a + b) == Lower(a) + Lower(b)
  {
  }

  /** The chunks of a string from its first character and the chunks of the rest. */
  function Prepend(c: char, rest: seq<string>): (chunks: seq<string>)
    requires |rest| >= 1
    ensures |chunks| >= 1
  {
    if c == '/' then [""] + rest else [[c] + rest[0]] + rest[1..]
  }

  /** Splitting at slashes; there is always at least one chunk. */
  function Split(s: string): (chunks: seq<string>)
    ensures |chunks| >= 1
  {
    if s == "" then [""] else Prepend(s[0], Split(s[1..]))
  }

  /** The chunks with slashes between them. */
  function Join(chunks: seq<string>): string
    requires |chunks| >= 1
  {
    if |chunks| == 1 then chunks[0] else chunks[0] + "/" + Join(chunks[1..])
  }

  lemma {:induction false} JoinSplit(s: string)
    ensures Join(Split(s)) == s
  {
    if s != "" {
      JoinSplit(s[1..]);
      var rest := Split(s[1..]);
      var chunks := Split(s);
      if s[0] == '/' {
        assert chunks[1..] == rest;
        assert s == "/" + s[1..];
      } else {
        if |rest| > 1 {
          assert chunks[1..] == rest[1..];
        }
        assert s == [s[0]] + s[1..];
      }
    }
  }

  lemma PrependConcat(c: char, x: seq<string>, y: seq<string>)
    requires |x| >= 1
    ensures Prepend(c, x + y) == Prepend(c, x) + y
  {
    assert (x + y)[1..] == x[1..] + y;
  }

  lemma SplitCons(c: char, t: string)
    ensures Split([c] + t) == Prepend(c, Split(t))
  {
    assert ([c] + t)[1..] == t;
  }

  lemma {:induction false} SplitSlash(a: string, b: string)
    ensures Split(a + "/" + b) == Split(a) + Split(b)
  {
    if a == "" {
      SplitCons('/', b);
      assert a + "/" + b == ['/'] + b;
    } else {
      var c, t := a[0], a[1..];
      SplitSlash(t, b);
      SplitCons(c, t + "/" + b);
      SplitCons(c, t);
      assert a == [c] + t;
      assert a + "/" + b == [c] + (t + "/" + b);
      PrependConcat(c, Split(t), Split(b));
    }
  }

  lemma {:induction false} JoinConcat(a: seq<string>, b: seq<string>)
    requires |a| >= 1 && |b| >= 1
    ensures Join(a + b) == Join(a) + "/" + Join(b)
  {
    if |a| == 1 {
      assert (a + b)[1..] == b;
    } else {
      JoinConcat(a[1..], b);
      assert (a + b)[1..] == a[1..] + b;
    }
  }

  ghost predicate StartsWith(s: string, prefix: string) {
    |prefix| <= |s| && s[..|prefix|] == prefix
  }

  lemma {:induction false} PrefixFromChunks(a: string, s: string)
    requires Split(a) <= Split(s)
    ensures s == a || StartsWith(s, a + "/")
  {
    JoinSplit(a);
    JoinSplit(s);
    var more := Split(s)[|Split(a)|..];
    if more != [] {
      assert Split(s) == Split(a) + more;
      JoinConcat(Split(a), more);
      assert s == a + "/" + Join(more);
    } else {
      assert Split(s) == Split(a);
    }
  }

  /** The chunks of `a` begin those of `s` exactly when `s` is `a` or goes on with a slash. */
  lemma {:induction false} ChunkPrefix(a: string, s: string)
    ensures Split(a) <= Split(s) <==> s == a || StartsWith(s, a + "/")
  {
    if Split(a) <= Split(s) {
      PrefixFromChunks(a, s);
    }
    if StartsWith(s, a + "/") {
      var b := s[|a| + 1..];
      assert s == a + "/" + b;
      SplitSlash(a, b);
    }
  }

  function ChunksLength(chunks: seq<string>): int {
    if chunks == [] then -1 else ChunksLength(chunks[..|chunks| - 1]) + 1 + |chunks[|chunks| - 1]|
  }

  lemma {:induction false} ChunksLengthConcat(a: seq<string>, b: seq<string>)
    ensures ChunksLength(a + b) == ChunksLength(a) + 1 + ChunksLength(b)
  {
    if b == [] {
      assert a + b == a;
    } else {
      ChunksLengthConcat(a, b[..|b| - 1]);
      assert (a + b)[..|a + b| - 1] == a + b[..|b| - 1];
    }
  }

  lemma {:induction false} SplitLength(s: string)
    ensures ChunksLength(Split(s)) == |s|
  {
    if s == "" {
      assert Split(s)[..0] == [];
    } else {
      SplitLength(s[1..]);
      var rest := Split(s[1..]);
      if s[0] == '/' {
        assert [""][..0] == [];
        ChunksLengthConcat([""], rest);
      } else {
        var head := [s[0]] + rest[0];
        assert [head][..0] == [] && [rest[0]][..0] == [];
        ChunksLengthConcat([head], rest[1..]);
        ChunksLengthConcat([rest[0]], rest[1..]);
        assert [rest[0]] + rest[1..] == rest;
      }
    }
  }

  lemma ChunksLengthNonNegative(chunks: seq<string>)
    ensures ChunksLength(chunks) >= -1
    ensures chunks != [] ==> ChunksLength(chunks) >= 0
  {
  }

  /** A string whose chunks properly begin those of another is shorter. */
  lemma ProperChunkPrefixIsShorter(a: string, s: string)
    requires Split(a) < Split(s)
    ensures |a| < |s|
  {
    SplitLength(a);
    SplitLength(s);
    PrefixLength(Split(a), Split(s));
  }

  lemma PrefixLength(a: seq<string>, s: seq<string>)
    requires a < s
    ensures ChunksLength(a) < ChunksLength(s)
  {
    var more := s[|a|..];
    assert s == a + more;
    ChunksLengthConcat(a, more);
    ChunksLengthNonNegative(more);
  }

  predicate SlashOrStar(c: char) {
    c == '/' || c == '*'
  }

  /** Without trailing slashes and stars. */
  function TrimRight(s: string): string {
    if s != "" && SlashOrStar(s[|s| - 1]) then TrimRight(s[..|s| - 1]) else s
  }

  lemma {:induction false} TrimRightIff(s: string, t: string)
    ensures TrimRight(s) == t <==>
      && StartsWith(s, t) && (forall i :: |t| <= i < |s| ==> s[i] == '/' || s[i] == '*')
      && (t == "" || (t[|t| - 1] != '/' && t[|t| - 1] != '*'))
  {
    if s != "" && SlashOrStar(s[|s| - 1]) {
      TrimRightIff(s[..|s| - 1], t);
      assert forall k :: 0 <= k <= |s| - 1 ==> s[..|s| - 1][..k] == s[..k];
      assert t == s ==> t[|t| - 1] == s[|s| - 1];
      assert StartsWith(s, t) && |t| == |s| ==> t == s;
    } else if StartsWith(s, t) && |t| < |s| {
      assert !(s[|s| - 1] == '/' || s[|s| - 1] == '*');
    } else if StartsWith(s, t) {
      assert t == s;
    }
  }

  /** GetLastChunkOfSlashed. */
  function LastChunk(s: string): string {
    var chunks := Split(s);
    chunks[|chunks| - 1]
  }

  lemma {:induction false} ChunksHaveNoSlash(s: string)
    ensures forall i :: 0 <= i < |Split(s)| ==> '/' !in Split(s)[i]
  {
    if s != "" {
      ChunksHaveNoSlash(s[1..]);
      var rest := Split(s[1..]);
      forall i | 0 <= i < |Split(s)| ensures '/' !in Split(s)[i] {
        if i > 0 {
          assert Split(s)[i] == if s[0] == '/' then rest[i - 1] else rest[i];
        }
      }
    }
  }

  lemma {:induction false} SplitNoSlash(c: string)
    requires '/' !in c
    ensures Split(c) == [c]
  {
    if c != "" {
      SplitNoSlash(c[1..]);
      assert c == [c[0]] + c[1..];
    }
  }

  /** Chunks without slashes come back from the joined string. */
  lemma {:induction false} SplitJoin(cs: seq<string>)
    requires |cs| >= 1 && forall i :: 0 <= i < |cs| ==> '/' !in cs[i]
    ensures Split(Join(cs)) == cs
  {
    SplitNoSlash(cs[0]);
    if |cs| > 1 {
      SplitJoin(cs[1..]);
      SplitSlash(cs[0], Join(cs[1..]));
    }
  }

  /** The last chunk is what follows the last slash, or all when there is none. */
  lemma {:induction false} LastChunkIff(s: string, n: string)
    ensures LastChunk(s) == n <==>
      '/' !in n && (s == n || (|n| < |s| && s[|s| - |n| - 1..] == "/" + n))
  {
    ChunksHaveNoSlash(s);
    JoinSplit(s);
    var chunks := Split(s);
    if LastChunk(s) == n && |chunks| > 1 {
      var front := chunks[..|chunks| - 1];
      assert chunks == front + [n];
      JoinConcat(front, [n]);
      assert s == Join(front) + "/" + n;
    }
    if '/' !in n {
      SplitNoSlash(n);
      if |n| < |s| && s[|s| - |n| - 1..] == "/" + n {
        var front := s[..|s| - |n| - 1];
        assert s == front + ("/" + n) == front + "/" + n;
        SplitSlash(front, n);
      }
    }
  }
}
