/** Deleting keys from a JSON tree, ignoring case (pkg/controller/helpers.go). */
module JsonTree {
  import opened Resources
  import opened Iteration
  import opened Strings

  datatype Json =
    | Null
    | Bool(truth: bool)
    | Num(digits: string)
    | Str(text: string)
    | Arr(items: seq<Json>)
    | Obj(fields: map<string, Json>)

  predicate SameKey(a: string, b: string) {
    Lower(a) == Lower(b)
  }

  /** The tree without the key. Inside an array only objects are entered, not arrays. */
  function Clean(j: Json, key: string, inArray: bool): Json {
    match j
    case Obj(fields) => Obj(map k | k in fields && !SameKey(k, key) :: Clean(fields[k], key, false))
    case Arr(items) => if inArray then j
      else Arr(seq(|items|, i requires 0 <= i < |items| => Clean(items[i], key, true)))
    case _ => j
  }

  /** All keys, one after the other. */
  function CleanAll(j: Json, keys: seq<string>): Json {
    if keys == [] then j else Clean(CleanAll(j, keys[..|keys| - 1]), keys[|keys| - 1], false)
  }

  // ----------------------------------------------------------------------- the recursive loop

  /** deleteKey on an object; the Go map is visited in some order. */
  method DeleteKey(j: Json, key: string) returns (r: Json)
    requires j.Obj?
    ensures r == Clean(j, key, false)
    decreases j, 0
  {
    var fields, left := j.fields, j.fields;
    var order := VisitOrder(fields.Keys);
    ghost var goal := Clean(j, key, false).fields;
    for n := 0 to |order|
      invariant forall i :: 0 <= i < n ==>
        (order[i] in left <==> order[i] in goal) && (order[i] in left ==> left[order[i]] == goal[order[i]])
      invariant forall i :: n <= i < |order| ==> order[i] in left && left[order[i]] == fields[order[i]]
      invariant forall k :: k in left ==> k in fields
    {
      var k := order[n];
      assert k in fields;
      if Lower(k) == Lower(key) {
        left := left - {k};
        continue;
      }
      var v := DeleteBelow(fields[k], key);
      left := left[k := v];
    }
    forall k ensures k in left <==> k in goal {
      if k in fields { assert k in order; }
    }
    forall k | k in left ensures left[k] == goal[k] {
      assert k in order;
    }
    assert left == goal;
    r := Obj(left);
  }

  /** What becomes of the value of one field. */
  method DeleteBelow(v: Json, key: string) returns (r: Json)
    ensures r == Clean(v, key, false)
    decreases v, 1
  {
    if v.Obj? {
      r := DeleteKey(v, key);
    } else if v.Arr? {
      var done := v.items;
      for i := 0 to |v.items|
        invariant |done| == |v.items|
        invariant forall j :: 0 <= j < i ==> done[j] == Clean(v.items[j], key, true)
        invariant forall j :: i <= j < |v.items| ==> done[j] == v.items[j]
      {
        if v.items[i].Obj? {
          var after := DeleteKey(v.items[i], key);
          done := done[i := after];
        }
      }
      assert done == Clean(v, key, false).items;
      r := Arr(done);
    } else {
      r := v;
    }
  }

  /** The loop of deleteKeyFromJSON. */
  method DeleteKeys(j: Json, keys: seq<string>) returns (r: Json)
    requires j.Obj?
    ensures r.Obj? && r == CleanAll(j, keys)
  {
    r := j;
    for n := 0 to |keys|
      invariant r.Obj? && r == CleanAll(j, keys[..n])
    {
      assert keys[..n + 1][..n] == keys[..n];
      r := DeleteKey(r, keys[n]);
    }
    assert keys[..|keys|] == keys;
  }

  // ----------------------------------------------------------------------- what remains

  datatype Turn = Field(key: string) | Item(index: nat)

  /** What a path leads to. */
  function Lookup(j: Json, path: seq<Turn>): Option<Json>
    decreases path
  {
    if path == [] then Some(j)
    else
      match path[0]
      case Field(k) => if j.Obj? && k in j.fields then Lookup(j.fields[k], path[1..]) else None
      case Item(i) => if j.Arr? && i < |j.items| then Lookup(j.items[i], path[1..]) else None
  }

  /** Whether deletion still looks into what lies at the end of a path, and if so whether as an
      element of an array. */
  datatype Reach = Outside | Inside(inArray: bool)

  function ReachAt(path: seq<Turn>, inArray: bool): Reach {
    if path == [] then Inside(inArray)
    else
      match path[0]
      case Field(_) => ReachAt(path[1..], false)
      case Item(_) => if inArray then Outside else ReachAt(path[1..], true)
  }

  /** The path goes through a deleted key. */
  predicate Deleted(path: seq<Turn>, key: string, inArray: bool) {
    path != [] &&
    match path[0]
    case Field(k) => SameIgnoringCase(k, key) || Deleted(path[1..], key, false)
    case Item(_) => !inArray && Deleted(path[1..], key, true)
  }

  /** A path through a deleted key leads nowhere; every other path leads where it led, to the same
      value cleaned, or to the same value where deletion does not reach. */
  lemma {:induction false} LookupClean(j: Json, path: seq<Turn>, key: string, inArray: bool)
    ensures Deleted(path, key, inArray) ==> Lookup(Clean(j, key, inArray), path) == None
    ensures !Deleted(path, key, inArray) ==>
      Lookup(Clean(j, key, inArray), path) ==
      match Lookup(j, path)
      case None => None
      case Some(v) => Some(match ReachAt(path, inArray) case Outside => v case Inside(a) => Clean(v, key, a))
    decreases path
  {
    if path != [] {
      match path[0]
      case Field(k) =>
        LowerSame(k, key);
        if j.Obj? && k in j.fields {
          LookupClean(j.fields[k], path[1..], key, false);
        }
      case Item(i) =>
        if j.Arr? && i < |j.items| && !inArray {
          LookupClean(j.items[i], path[1..], key, true);
        }
    }
  }

  /** Wherever deletion reaches, no key equal to the deleted one, ignoring case, remains. */
  lemma {:induction false} NoKeyRemains(j: Json, path: seq<Turn>, key: string, k: string)
    requires ReachAt(path, false).Inside? && SameIgnoringCase(k, key)
    ensures Lookup(Clean(j, key, false), path + [Field(k)]) == None
  {
    DeletedAtEnd(path, key, k, false);
    LookupClean(j, path + [Field(k)], key, false);
  }

  lemma {:induction false} DeletedAtEnd(path: seq<Turn>, key: string, k: string, inArray: bool)
    requires ReachAt(path, inArray).Inside? && SameIgnoringCase(k, key)
    ensures Deleted(path + [Field(k)], key, inArray)
  {
    if path != [] {
      assert (path + [Field(k)])[1..] == path[1..] + [Field(k)];
      match path[0]
      case Field(_) => DeletedAtEnd(path[1..], key, k, false);
      case Item(_) => DeletedAtEnd(path[1..], key, k, true);
    }
  }

  /** An array inside an array is not entered. */
  lemma NestedArrayKeepsKey(v: Json)
    ensures var nested := Arr([Arr([Obj(map["etag" := v])])]);
      Clean(Obj(map["x" := nested]), "etag", false) == Obj(map["x" := nested])
  {
    var inner := Arr([Obj(map["etag" := v])]);
    var nested := Arr([inner]);
    assert Clean(inner, "etag", true) == inner;
    assert Clean(nested, "etag", false).items == [inner];
    assert Lower("x")[0] == 'x' && Lower("etag")[0] == 'e';
    assert !SameKey("x", "etag");
    assert Clean(Obj(map["x" := nested]), "etag", false).fields == map["x" := nested];
  }

  // ----------------------------------------------------------------------- deleting twice

  /** Deletions commute. */
  lemma {:induction false} CleanCommutes(j: Json, a: string, b: string, inArray: bool)
    ensures Clean(Clean(j, a, inArray), b, inArray) == Clean(Clean(j, b, inArray), a, inArray)
  {
    match j
    case Obj(fields) =>
      forall k | k in fields
        ensures Clean(Clean(fields[k], a, false), b, false) == Clean(Clean(fields[k], b, false), a, false) {
        CleanCommutes(fields[k], a, b, false);
      }
    case Arr(items) =>
      if !inArray {
        forall i | 0 <= i < |items|
          ensures Clean(Clean(items[i], a, true), b, true) == Clean(Clean(items[i], b, true), a, true) {
          CleanCommutes(items[i], a, b, true);
        }
        var x, y := Clean(Clean(j, a, false), b, false), Clean(Clean(j, b, false), a, false);
        assert x.items == y.items;
      }
    case _ =>
  }

  lemma {:induction false} CleanIdempotent(j: Json, key: string, inArray: bool)
    ensures Clean(Clean(j, key, inArray), key, inArray) == Clean(j, key, inArray)
  {
    match j
    case Obj(fields) =>
      forall k | k in fields ensures Clean(Clean(fields[k], key, false), key, false) == Clean(fields[k], key, false) {
        CleanIdempotent(fields[k], key, false);
      }
    case Arr(items) =>
      if !inArray {
        forall i | 0 <= i < |items| ensures Clean(Clean(items[i], key, true), key, true) == Clean(items[i], key, true) {
          CleanIdempotent(items[i], key, true);
        }
        assert Clean(Clean(j, key, false), key, false).items == Clean(j, key, false).items;
      }
    case _ =>
  }

  // ----------------------------------------------------------------------- equality up to deleted keys

  predicate Scalar(j: Json) {
    !j.Arr? && !j.Obj?
  }

  /** Trees that clean to the same one agree on every scalar that no deleted key hides. */
  lemma {:induction false} SameScalars(a: Json, b: Json, key: string, path: seq<Turn>, v: Json)
    requires Clean(a, key, false) == Clean(b, key, false) && !Deleted(path, key, false) && Scalar(v)
    ensures Lookup(a, path) == Some(v) <==> Lookup(b, path) == Some(v)
  {
    LookupClean(a, path, key, false);
    LookupClean(b, path, key, false);
  }

  /** A field that is deleted anyway may be set to anything. */
  lemma {:induction false} DeletedFieldIsFree(fields: map<string, Json>, k: string, v: Json, key: string)
    requires SameKey(k, key)
    ensures Clean(Obj(fields[k := v]), key, false) == Clean(Obj(fields), key, false)
  {
    var after := fields[k := v];
    assert forall x :: x in after && !SameKey(x, key) <==> x in fields && !SameKey(x, key);
  }
}
