/**
 The merge of routing rules on any list of path maps, IDs repeated or missing included, as the
 code runs it: lookups find the first map with an ID, deletions swap out the last
 (pkg/brownfield/routing_rules.go, pkg/brownfield/pathmaps.go). Where every map has an ID of its
 own it is the merge of RuleMerging.
 */
module RuleMergingList {
  import opened Resources
  import opened RuleMerging

  /** A path map in the gateway's list; `id` is None for a nil ID. */
  datatype Entry = Entry(id: Option<Id>, contents: Contents)

  // ---------------------------------------------------------------- list operations

  ghost predicate AllHaveIds(list: seq<Entry>) {
    forall i :: 0 <= i < |list| ==> list[i].id.Some?
  }

  /** The first map with this ID from position `k` on, or -1. None is a nil dereference: a map without
      an ID comes up first. */
  ghost function LookupFrom(list: seq<Entry>, id: Id, k: nat): (idx: Option<int>)
    requires k <= |list|
    ensures idx.Some? ==> idx.value == -1 || (k <= idx.value < |list| && list[idx.value].id == Some(id))
    decreases |list| - k
  {
    if k == |list| then Some(-1)
    else if list[k].id.None? then None
    else if list[k].id.value == id then Some(k)
    else LookupFrom(list, id, k + 1)
  }

  ghost function Lookup(list: seq<Entry>, id: Id): (idx: Option<int>)
    ensures idx.Some? ==> idx.value == -1 || (0 <= idx.value < |list| && list[idx.value].id == Some(id))
  {
    LookupFrom(list, id, 0)
  }

  function SwapDelete<T>(s: seq<T>, d: nat): (rest: seq<T>)
    requires d < |s|
    ensures |rest| == |s| - 1
    ensures forall i :: 0 <= i < |rest| ==> rest[i] == if i == d then s[|s| - 1] else s[i]
  {
    s[d := s[|s| - 1]][..|s| - 1]
  }

  /** The last of the first `k` maps with this ID, or -1. */
  ghost function LastUpTo(list: seq<Entry>, id: Id, k: nat): (d: int)
    requires k <= |list|
    ensures -1 <= d < k && (0 <= d ==> list[d].id == Some(id))
    ensures forall j :: d < j < k ==> list[j].id != Some(id)
  {
    if k == 0 then -1 else if list[k - 1].id == Some(id) then k - 1 else LastUpTo(list, id, k - 1)
  }

  /** None is a nil dereference: the search for the last match looks at every ID. */
  ghost function Deleted(list: seq<Entry>, id: Id): Option<seq<Entry>> {
    if !AllHaveIds(list) then None
    else
      var d := LastUpTo(list, id, |list|);
      Some(if d == -1 then list else SwapDelete(list, d))
  }

  ghost function Rewritten(list: seq<Entry>, i: nat, c: Contents): seq<Entry>
    requires i < |list|
  {
    list[i := Entry(list[i].id, c)]
  }

  // ---------------------------------------------------------------- the merge

  /** The second path-based rule's map joins the first one's and goes. */
  ghost function AbsorbIn(list: seq<Entry>, f: nat, s: nat): Option<seq<Entry>>
    requires f < |list| && s < |list| && list[s].id.Some?
  {
    var a, b := list[f].contents, list[s].contents;
    if a.rules.None? || b.rules.None? then None
    else Deleted(Rewritten(list, f, Absorb(a, b)), list[s].id.value)
  }

  ghost function MergePairIn(list: seq<Entry>, first: Rule, second: Rule): Option<(Rule, seq<Entry>)>
    decreases first.ruleType.Basic?
  {
    if first.ruleType.Basic? && second.ruleType.PathBasedRouting? then
      MergePairIn(list, second, first)
    else if first.ruleType.Basic? then
      Some((first, list))
    else if first.pathMap.None? then
      None
    else
      var f := Lookup(list, first.pathMap.value);
      if f.None? || f.value == -1 then
        None
      else if second.ruleType.Basic? then
        Some((first, Rewritten(list, f.value, WithDefaults(list[f.value].contents, second))))
      else if second.pathMap.None? then
        None
      else
        var s := Lookup(list, second.pathMap.value);
        if s.None? || s.value == -1 then
          None
        else
          match AbsorbIn(list, f.value, s.value)
          case None => None
          case Some(rest) => Some((first, rest))
  }

  datatype MergedList = MergedList(uniq: map<Id, Rule>, list: seq<Entry>)

  ghost function MergeStepIn(st: Option<MergedList>, r: Rule): Option<MergedList> {
    if st.None? || r.listener.None? then
      None
    else
      var MergedList(uniq, list) := st.value;
      if r.listener.value !in uniq then
        Some(MergedList(uniq[r.listener.value := r], list))
      else
        match MergePairIn(list, uniq[r.listener.value], r)
        case None => None
        case Some((kept, list')) => Some(MergedList(uniq[r.listener.value := kept], list'))
  }

  /** Merging a list of rules into a list of path maps, from the first rule on. */
  ghost function MergeAllIn(list: seq<Entry>, rules: seq<Rule>): Option<MergedList> {
    if rules == [] then Some(MergedList(map[], list))
    else MergeStepIn(MergeAllIn(list, rules[..|rules| - 1]), rules[|rules| - 1])
  }

  lemma MergeAllInSnoc(list: seq<Entry>, rules: seq<Rule>, r: Rule)
    ensures MergeAllIn(list, rules + [r]) == MergeStepIn(MergeAllIn(list, rules), r)
  {
    assert (rules + [r])[..|rules|] == rules;
  }

  /** Once the merge has crashed it stays crashed. */
  lemma {:induction false} CrashStaysOn(list: seq<Entry>, rules: seq<Rule>, more: seq<Rule>)
    requires MergeAllIn(list, rules).None?
    ensures MergeAllIn(list, rules + more).None?
  {
    if more == [] {
      assert rules + more == rules;
    } else {
      CrashStaysOn(list, rules, more[..|more| - 1]);
      assert (rules + more)[..|rules + more| - 1] == rules + more[..|more| - 1];
    }
  }

  // ---------------------------------------------------------------- maps with an ID of their own

  /** Every map has an ID, and no two the same. */
  ghost predicate OwnIds(list: seq<Entry>) {
    AllHaveIds(list) && forall i, j :: 0 <= i < j < |list| ==> list[i].id != list[j].id
  }

  ghost function Ids(list: seq<Entry>): set<Id>
    requires AllHaveIds(list)
  {
    set i | 0 <= i < |list| :: list[i].id.value
  }

  /** By ID the list is `view`. */
  ghost predicate Means(list: seq<Entry>, view: map<Id, Contents>) {
    && OwnIds(list)
    && view.Keys == Ids(list)
    && forall i :: 0 <= i < |list| ==> view[list[i].id.value] == list[i].contents
  }

  lemma {:induction false} LookupFromFinds(list: seq<Entry>, id: Id, k: nat)
    requires OwnIds(list) && k <= |list|
    ensures LookupFrom(list, id, k).Some?
    ensures LookupFrom(list, id, k).value == -1 <==> forall i :: k <= i < |list| ==> list[i].id != Some(id)
    decreases |list| - k
  {
    if k < |list| { LookupFromFinds(list, id, k + 1); }
  }

  /** A lookup finds what the map knows. */
  lemma LookupFinds(list: seq<Entry>, view: map<Id, Contents>, id: Id)
    requires Means(list, view)
    ensures Lookup(list, id).Some? && (Lookup(list, id).value == -1 <==> id !in view)
    ensures id in view ==> list[Lookup(list, id).value].contents == view[id]
  {
    LookupFromFinds(list, id, 0);
    if id in view {
      var i :| 0 <= i < |list| && list[i].id.value == id;
    }
  }

  lemma RewrittenMeans(list: seq<Entry>, view: map<Id, Contents>, i: nat, c: Contents)
    requires Means(list, view) && i < |list|
    ensures Means(Rewritten(list, i, c), view[list[i].id.value := c])
  {
    var after := Rewritten(list, i, c);
    assert forall j :: 0 <= j < |list| ==> after[j].id == list[j].id;
    assert Ids(after) == Ids(list);
  }

  lemma SwapDeleteMeans(list: seq<Entry>, view: map<Id, Contents>, d: nat)
    requires Means(list, view) && d < |list|
    ensures Means(SwapDelete(list, d), view - {list[d].id.value})
  {
    var rest, last := SwapDelete(list, d), |list| - 1;
    forall m | m in Ids(list) && m != list[d].id.value ensures m in Ids(rest) {
      var i :| 0 <= i < |list| && list[i].id.value == m;
      assert rest[if i == last then d else i] == list[i];
    }
  }

  /** With IDs of their own, exactly that ID is gone. */
  lemma DeletedMeans(list: seq<Entry>, view: map<Id, Contents>, id: Id)
    requires Means(list, view)
    ensures Deleted(list, id).Some? && Means(Deleted(list, id).value, view - {id})
  {
    var d := LastUpTo(list, id, |list|);
    if d == -1 {
      assert id !in Ids(list);
      assert view - {id} == view;
    } else {
      SwapDeleteMeans(list, view, d);
    }
  }

  lemma AbsorbInMeans(list: seq<Entry>, view: map<Id, Contents>, f: nat, s: nat)
    requires Means(list, view) && f < |list| && s < |list|
    ensures var a, b := view[list[f].id.value], view[list[s].id.value];
      && (AbsorbIn(list, f, s).Some? <==> a.rules.Some? && b.rules.Some?)
      && (AbsorbIn(list, f, s).Some? ==>
            Means(AbsorbIn(list, f, s).value, view[list[f].id.value := Absorb(a, b)] - {list[s].id.value}))
  {
    var a, b := list[f].contents, list[s].contents;
    if a.rules.Some? && b.rules.Some? {
      RewrittenMeans(list, view, f, Absorb(a, b));
      DeletedMeans(Rewritten(list, f, Absorb(a, b)), view[list[f].id.value := Absorb(a, b)], list[s].id.value);
    }
  }

  /** Merging two rules in such a list is merging them in the map it means. */
  lemma PairRefines(list: seq<Entry>, view: map<Id, Contents>, first: Rule, second: Rule)
    requires Means(list, view)
    ensures MergePairIn(list, first, second).Some? <==> MergePair(view, first, second).Some?
    ensures MergePairIn(list, first, second).Some? ==>
      && MergePairIn(list, first, second).value.0 == MergePair(view, first, second).value.0
      && Means(MergePairIn(list, first, second).value.1, MergePair(view, first, second).value.1)
    decreases first.ruleType.Basic?
  {
    if first.ruleType.Basic? && second.ruleType.PathBasedRouting? {
      PairRefines(list, view, second, first);
    } else if first.ruleType.PathBasedRouting? && first.pathMap.Some? {
      LookupFinds(list, view, first.pathMap.value);
      var f := Lookup(list, first.pathMap.value);
      if f.value != -1 {
        if second.ruleType.Basic? {
          RewrittenMeans(list, view, f.value, WithDefaults(list[f.value].contents, second));
        } else if second.pathMap.Some? {
          LookupFinds(list, view, second.pathMap.value);
          var s := Lookup(list, second.pathMap.value);
          if s.value != -1 {
            AbsorbInMeans(list, view, f.value, s.value);
          }
        }
      }
    }
  }

  /** Where every path map has an ID of its own, the merge in the list is the merge in the map. */
  lemma {:induction false} MergeRefines(list: seq<Entry>, view: map<Id, Contents>, rules: seq<Rule>)
    requires Means(list, view)
    ensures MergeAllIn(list, rules).Some? <==> MergeAll(view, rules).Some?
    ensures MergeAllIn(list, rules).Some? ==>
      && MergeAllIn(list, rules).value.uniq == MergeAll(view, rules).value.uniq
      && Means(MergeAllIn(list, rules).value.list, MergeAll(view, rules).value.maps)
  {
    if rules != [] {
      var p, r := rules[..|rules| - 1], rules[|rules| - 1];
      MergeRefines(list, view, p);
      var a, b := MergeAllIn(list, p), MergeAll(view, p);
      if a.Some? && r.listener.Some? && r.listener.value in a.value.uniq {
        PairRefines(a.value.list, b.value.maps, a.value.uniq[r.listener.value], r);
      }
    }
  }

  /** In a list where some map has no ID, two path-based rules of one listener cannot be merged. */
  lemma NilIdCrashes(list: seq<Entry>, first: Rule, second: Rule)
    requires !AllHaveIds(list) && first.ruleType.PathBasedRouting? && second.ruleType.PathBasedRouting?
    ensures MergePairIn(list, first, second).None?
  {
    if first.pathMap.Some? && second.pathMap.Some? {
      var f, s := Lookup(list, first.pathMap.value), Lookup(list, second.pathMap.value);
      if && f.Some? && f.value != -1 && list[f.value].contents.rules.Some?
         && s.Some? && s.value != -1 && list[s.value].contents.rules.Some? {
        var after := Rewritten(list, f.value, Absorb(list[f.value].contents, list[s.value].contents));
        var n :| 0 <= n < |list| && list[n].id.None?;
        assert after[n].id.None?;
      }
    }
  }
}
