/**
 Listener identifiers, the listeners made from them, and the identifiers rebuilt from
 those listeners (pkg/appgw/internaltypes.go, pkg/appgw/configbuilder.go,
 pkg/appgw/frontend_listeners.go, pkg/appgw/frontend_ipconfigurations.go).
 */
module ListenerIds {
  import opened RoutingTypes

  function FirstNonBlank(hs: seq<string>): string {
    if hs == [] then "" else if hs[0] != "" then hs[0] else FirstNonBlank(hs[1..])
  }

  function NonBlank(hs: seq<string>): seq<string> {
    if hs == [] then [] else if hs[0] != "" then [hs[0]] + NonBlank(hs[1..]) else NonBlank(hs[1..])
  }

  function Blanks(n: nat): (s: seq<string>)
    ensures |s| == n && forall i :: 0 <= i < n ==> s[i] == ""
  {
    seq(n, i => "")
  }

  /** The first five names, filled up with blanks. */
  function Padded(hs: seq<string>): (s: seq<string>)
    ensures |s| == MAX_HOSTNAMES
  {
    if |hs| >= MAX_HOSTNAMES then hs[..MAX_HOSTNAMES] else hs + Blanks(MAX_HOSTNAMES - |hs|)
  }

  function WithHosts(id: ListenerId, hs: seq<string>): ListenerId {
    id.(hostName := FirstNonBlank(Padded(hs)), hostNames := Padded(hs))
  }

  /** An identifier with no host names yet. */
  function Bare(port: int, privateIp: bool): ListenerId {
    ListenerId(port, "", Blanks(MAX_HOSTNAMES), privateIp)
  }

  /** The first five names. */
  function FirstFive(hs: seq<string>): (s: seq<string>)
    ensures |s| <= MAX_HOSTNAMES
  {
    if |hs| > MAX_HOSTNAMES then hs[..MAX_HOSTNAMES] else hs
  }

  /** setHostNames: names beyond those given stay as they were. */
  method SetHostNames(id: ListenerId, hs: seq<string>) returns (r: ListenerId)
    requires |id.hostNames| == MAX_HOSTNAMES
    ensures var five := FirstFive(hs);
      r == id.(hostName := FirstNonBlank(five), hostNames := five + id.hostNames[|five|..])
    ensures id.hostNames == Blanks(MAX_HOSTNAMES) ==> r == WithHosts(id, hs)
  {
    r := id.(hostName := "");
    var count := if |hs| < MAX_HOSTNAMES then |hs| else MAX_HOSTNAMES;
    for i := 0 to count
      invariant |r.hostNames| == MAX_HOSTNAMES && r == id.(hostName := r.hostName, hostNames := r.hostNames)
      invariant forall j :: 0 <= j < MAX_HOSTNAMES ==> r.hostNames[j] == if j < i then hs[j] else id.hostNames[j]
      invariant r.hostName == FirstNonBlank(hs[..i])
    {
      FirstNonBlankSnoc(hs[..i], hs[i]);
      assert hs[..i + 1] == hs[..i] + [hs[i]];
      r := r.(hostName := if r.hostName == "" then hs[i] else r.hostName,
              hostNames := r.hostNames[i := hs[i]]);
    }
    assert hs[..count] == FirstFive(hs);
    assert r.hostNames == FirstFive(hs) + id.hostNames[count..];
    FirstFivePadded(hs);
  }

  lemma FirstFivePadded(hs: seq<string>)
    ensures FirstFive(hs) + Blanks(MAX_HOSTNAMES)[|FirstFive(hs)|..] == Padded(hs)
    ensures FirstNonBlank(FirstFive(hs)) == FirstNonBlank(Padded(hs))
  {
    var n := MAX_HOSTNAMES - |FirstFive(hs)|;
    FirstNonBlankPadded(FirstFive(hs), n);
    assert Padded(hs) == FirstFive(hs) + Blanks(n);
  }

  lemma FirstNonBlankSnoc(hs: seq<string>, h: string)
    ensures FirstNonBlank(hs + [h]) == if FirstNonBlank(hs) == "" then h else FirstNonBlank(hs)
  {
    if hs != [] {
      assert (hs + [h])[1..] == hs[1..] + [h];
    }
  }

  lemma FirstNonBlankPadded(hs: seq<string>, n: nat)
    ensures FirstNonBlank(hs + Blanks(n)) == FirstNonBlank(hs)
  {
    if hs != [] {
      assert (hs + Blanks(n))[1..] == hs[1..] + Blanks(n);
    } else if n > 0 {
      assert (hs + Blanks(n))[1..] == [] + Blanks(n - 1);
      FirstNonBlankPadded([], n - 1);
    } else {
      assert hs + Blanks(n) == [];
    }
  }

  /** getHostNames: the non-blank names of an identifier. */
  method GetHostNames(id: ListenerId) returns (hs: seq<string>)
    ensures hs == NonBlank(id.hostNames)
  {
    hs := [];
    for i := 0 to |id.hostNames|
      invariant hs == NonBlank(id.hostNames[..i])
    {
      assert id.hostNames[..i + 1] == id.hostNames[..i] + [id.hostNames[i]];
      NonBlankSnoc(id.hostNames[..i], id.hostNames[i]);
      if id.hostNames[i] != "" {
        hs := hs + [id.hostNames[i]];
      }
    }
    assert id.hostNames[..|id.hostNames|] == id.hostNames;
  }

  lemma NonBlankSnoc(hs: seq<string>, h: string)
    ensures NonBlank(hs + [h]) == if h == "" then NonBlank(hs) else NonBlank(hs) + [h]
  {
    if hs != [] {
      assert (hs + [h])[1..] == hs[1..] + [h];
      NonBlankSnoc(hs[1..], h);
    }
  }

  // ---------------------------------------------------------------- recovering host names

  /** No blank name comes before a non-blank one. */
  ghost predicate Gapless(hs: seq<string>) {
    forall i, j :: 0 <= i < j < |hs| && hs[j] != "" ==> hs[i] != ""
  }

  ghost predicate Canonical(id: ListenerId) {
    |id.hostNames| == MAX_HOSTNAMES && id.hostName == FirstNonBlank(id.hostNames)
  }

  lemma {:induction false} NonBlankBasics(hs: seq<string>)
    ensures |NonBlank(hs)| <= |hs|
    ensures forall i :: 0 <= i < |NonBlank(hs)| ==> NonBlank(hs)[i] != ""
    ensures FirstNonBlank(NonBlank(hs)) == FirstNonBlank(hs)
  {
    if hs != [] {
      NonBlankBasics(hs[1..]);
    }
  }

  lemma GaplessTail(hs: seq<string>)
    requires hs != [] && hs[0] != ""
    ensures Gapless(hs) <==> Gapless(hs[1..])
  {
    var t := hs[1..];
    assert forall j :: 0 <= j < |t| ==> t[j] == hs[j + 1];
    assert forall j :: 0 < j < |hs| ==> hs[j] == t[j - 1];
  }

  lemma {:induction false} GaplessCompacts(hs: seq<string>)
    requires |NonBlank(hs)| <= |hs|
    ensures Gapless(hs) <==> NonBlank(hs) + Blanks(|hs| - |NonBlank(hs)|) == hs
  {
    if hs == [] {
      assert NonBlank(hs) + Blanks(0) == hs;
    } else if hs[0] != "" {
      var t := hs[1..];
      GaplessTail(hs);
      GaplessCompacts(t);
      var padded := NonBlank(t) + Blanks(|t| - |NonBlank(t)|);
      assert NonBlank(hs) + Blanks(|hs| - |NonBlank(hs)|) == [hs[0]] + padded;
      assert hs == [hs[0]] + t;
      assert ([hs[0]] + padded)[1..] == padded;
    } else {
      BlankFirst(hs);
    }
  }

  lemma BlankFirst(hs: seq<string>)
    requires hs != [] && hs[0] == "" && |NonBlank(hs)| <= |hs|
    ensures Gapless(hs) <==> NonBlank(hs) + Blanks(|hs| - |NonBlank(hs)|) == hs
  {
    NonBlankBasics(hs);
    if Gapless(hs) {
      NonBlankOfBlanks(hs);
      assert [] + Blanks(|hs|) == hs;
    }
    var padded := NonBlank(hs) + Blanks(|hs| - |NonBlank(hs)|);
    if padded == hs {
      assert padded[0] == "";
      assert NonBlank(hs) == [];
      assert padded == Blanks(|hs|);
    }
  }

  lemma {:induction false} NonBlankCompacts(hs: seq<string>)
    ensures |NonBlank(hs)| <= |hs|
    ensures forall i :: 0 <= i < |NonBlank(hs)| ==> NonBlank(hs)[i] != ""
    ensures Gapless(hs) <==> NonBlank(hs) + Blanks(|hs| - |NonBlank(hs)|) == hs
    ensures FirstNonBlank(NonBlank(hs)) == FirstNonBlank(hs)
  {
    NonBlankBasics(hs);
    GaplessCompacts(hs);
  }

  lemma NonBlankOfBlanks(hs: seq<string>)
    requires forall i :: 0 <= i < |hs| ==> hs[i] == ""
    ensures NonBlank(hs) == []
  {
  }

  /** Host names survive the trip through a listener exactly when they have no gap. */
  lemma HostsRecoveredIff(id: ListenerId)
    requires Canonical(id)
    ensures WithHosts(Bare(id.port, id.privateIp), NonBlank(id.hostNames)) == id <==> Gapless(id.hostNames)
  {
    NonBlankCompacts(id.hostNames);
    var hs := NonBlank(id.hostNames);
    FirstNonBlankPadded(hs, MAX_HOSTNAMES - |hs|);
    assert Padded(hs) == hs + Blanks(MAX_HOSTNAMES - |hs|);
  }
}
