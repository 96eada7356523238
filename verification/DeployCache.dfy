/**
 When a deployment is skipped: the controller's cache of the last applied configuration over
 whole runs (pkg/controller/mutate_app_gateway.go, helpers.go).
 */
module DeployCache {
  import opened Resources
  import opened JsonTree

  type Bytes = string

  const KEYS_TO_DELETE_FOR_CACHE: seq<string> := ["etag", "tags"]

  /** The JSON encoder: any that tells trees apart and never yields nothing. */
  datatype Codec = Codec(encode: Json -> Bytes)

  ghost predicate Faithful(codec: Codec) {
    && (forall a, b :: codec.encode(a) == codec.encode(b) ==> a == b)
    && (forall j :: codec.encode(j) != "")
  }

  function Sanitised(config: Json): Json {
    CleanAll(config, KEYS_TO_DELETE_FOR_CACHE)
  }

  /** What one call of MutateAppGateway meets. `config` is the gateway after Build as an object, None
      when it cannot be marshalled; `putAccepted` tells how the deployment ends, and `panicOnPutError`
      whether a failing one ends the process. */
  datatype Round = Round(
    fetched: bool,
    valid: bool,
    built: bool,
    config: Option<map<string, Json>>,
    putAccepted: bool,
    panicOnPutError: bool
  )

  datatype Outcome = FetchFailed | Invalid | BuildFailed | Skipped | PutFailed | Died | Deployed

  // ----------------------------------------------------------------------- one call

  /** configIsSame. */
  predicate IsSame(codec: Codec, cache: Bytes, round: Round) {
    round.config.Some? && cache == codec.encode(Sanitised(Obj(round.config.value)))
  }

  function OutcomeOf(codec: Codec, cache: Bytes, round: Round): Outcome {
    if !round.fetched then FetchFailed
    else if !round.valid then Invalid
    else if !round.built then BuildFailed
    else if IsSame(codec, cache, round) then Skipped
    else if round.putAccepted then Deployed
    else if round.panicOnPutError then Died
    else PutFailed
  }

  /** A restarted process has an empty cache; a failed deployment leaves the cache alone. */
  function CacheAfter(codec: Codec, cache: Bytes, round: Round): Bytes {
    match OutcomeOf(codec, cache, round)
    case Deployed => if round.config.Some? then codec.encode(Sanitised(Obj(round.config.value))) else cache
    case Died => ""
    case _ => cache
  }

  class ByteCell {
    var bytes: Bytes
    constructor () ensures bytes == "" { bytes := ""; }
  }

  /** The controller; its methods work on a copy of it, and the copies share the cell. */
  class Controller {
    const configCache: ByteCell

    constructor ()
      ensures fresh(configCache) && configCache.bytes == ""
    {
      configCache := new ByteCell();
    }

    /** configIsSame on a copy of the controller, whose cache pointer is `cache`. */
    method ConfigIsSame(codec: Codec, cache: ByteCell?, config: Option<map<string, Json>>) returns (same: bool)
      ensures same <==> cache != null && config.Some? && cache.bytes == codec.encode(Sanitised(Obj(config.value)))
    {
      if cache == null { return false; }
      if config.None? { return false; }
      var sanitized := DeleteKeys(Obj(config.value), KEYS_TO_DELETE_FOR_CACHE);
      return cache.bytes == codec.encode(sanitized);
    }

    /** updateCache on a copy of the controller; returns the copy's cache pointer. */
    method UpdateCache(codec: Codec, cache: ByteCell, config: Option<map<string, Json>>) returns (after: ByteCell?)
      modifies cache
      ensures config.None? ==> after == null && cache.bytes == old(cache.bytes)
      ensures config.Some? ==> after == cache && cache.bytes == codec.encode(Sanitised(Obj(config.value)))
    {
      if config.None? { return null; }
      var sanitized := DeleteKeys(Obj(config.value), KEYS_TO_DELETE_FOR_CACHE);
      cache.bytes := codec.encode(sanitized);
      return cache;
    }

    /** MutateAppGateway has a value receiver: `cache` is the pointer in its copy. */
    method MutateAppGateway(codec: Codec, round: Round) returns (outcome: Outcome)
      modifies configCache
      ensures outcome == OutcomeOf(codec, old(configCache.bytes), round)
      ensures outcome == FetchFailed <==> !round.fetched
      ensures outcome == Invalid <==> round.fetched && !round.valid
      ensures outcome == BuildFailed <==> round.fetched && round.valid && !round.built
      ensures outcome == Deployed ==> round.putAccepted
      ensures outcome == Died ==> !round.putAccepted && round.panicOnPutError
      ensures outcome == PutFailed ==> !round.putAccepted && !round.panicOnPutError
      ensures outcome != Died ==> configCache.bytes == CacheAfter(codec, old(configCache.bytes), round)
    {
      var cache: ByteCell? := configCache;
      if !round.fetched { return FetchFailed; }
      if !round.valid { return Invalid; }
      if !round.built { return BuildFailed; }
      var same := ConfigIsSame(codec, cache, round.config);
      if same { return Skipped; }
      if !round.putAccepted {
        cache := null;
        return if round.panicOnPutError then Died else PutFailed;
      }
      cache := UpdateCache(codec, configCache, round.config);
      return Deployed;
    }
  }

  // ----------------------------------------------------------------------- runs

  function Cache(codec: Codec, rounds: seq<Round>): Bytes {
    if rounds == [] then "" else CacheAfter(codec, Cache(codec, rounds[..|rounds| - 1]), rounds[|rounds| - 1])
  }

  /** What round `i` of a run comes to. */
  function Result(codec: Codec, rounds: seq<Round>, i: nat): Outcome
    requires i < |rounds|
  {
    OutcomeOf(codec, Cache(codec, rounds[..i]), rounds[i])
  }

  /** Round `i` is the last that deployed. */
  ghost predicate LastDeployed(codec: Codec, rounds: seq<Round>, i: int) {
    0 <= i < |rounds| && Result(codec, rounds, i) == Deployed && forall k :: i < k < |rounds| ==>
      Result(codec, rounds, k) != Deployed
  }

  /** Round `i` deployed a configuration that could be marshalled. */
  ghost predicate Records(codec: Codec, rounds: seq<Round>, i: nat)
    requires i < |rounds|
  {
    Result(codec, rounds, i) == Deployed && rounds[i].config.Some?
  }

  /** Round `i` is the last such of the running process. */
  ghost predicate LastRecorded(codec: Codec, rounds: seq<Round>, i: int) {
    && 0 <= i < |rounds| && Records(codec, rounds, i)
    && forall k :: i < k < |rounds| ==> !Records(codec, rounds, k) && Result(codec, rounds, k) != Died
  }

  ghost predicate NothingRecorded(codec: Codec, rounds: seq<Round>) {
    forall i :: !LastRecorded(codec, rounds, i)
  }

  function ConfigOf(rounds: seq<Round>, i: nat): Json
    requires i < |rounds| && rounds[i].config.Some?
  {
    Obj(rounds[i].config.value)
  }

  lemma ResultBefore(codec: Codec, rounds: seq<Round>, n: nat, i: nat)
    requires i < n <= |rounds|
    ensures Result(codec, rounds[..n], i) == Result(codec, rounds, i)
  {
    assert rounds[..n][..i] == rounds[..i];
  }

  lemma {:induction false} RecordedBefore(codec: Codec, rounds: seq<Round>, i: int)
    requires rounds != [] && 0 <= i < |rounds| - 1
    ensures LastRecorded(codec, rounds, i) <==>
      LastRecorded(codec, rounds[..|rounds| - 1], i) && !Records(codec, rounds, |rounds| - 1)
        && Result(codec, rounds, |rounds| - 1) != Died
  {
    var n := |rounds| - 1;
    forall k: nat | k < n ensures Result(codec, rounds[..n], k) == Result(codec, rounds, k) {
      ResultBefore(codec, rounds, n, k);
    }
    if LastRecorded(codec, rounds, i) {
      forall k | i < k < n ensures !Records(codec, rounds[..n], k) && Result(codec, rounds[..n], k) != Died {
        assert !Records(codec, rounds, k);
      }
    }
    if LastRecorded(codec, rounds[..n], i) {
      forall k | i < k < n ensures !Records(codec, rounds, k) && Result(codec, rounds, k) != Died {
        assert !Records(codec, rounds[..n], k);
      }
    }
  }

  /** The cache holds the sanitised form of the last recorded configuration, or nothing. */
  lemma {:induction false} CacheIsLastRecorded(codec: Codec, rounds: seq<Round>) returns (i: int)
    ensures i >= 0 ==>
      LastRecorded(codec, rounds, i) && Cache(codec, rounds) == codec.encode(Sanitised(ConfigOf(rounds, i)))
    ensures i < 0 ==> NothingRecorded(codec, rounds) && Cache(codec, rounds) == ""
  {
    if rounds == [] {
      return -1;
    }
    var n := |rounds| - 1;
    i := CacheIsLastRecorded(codec, rounds[..n]);
    if Records(codec, rounds, n) {
      i := n;
    } else if Result(codec, rounds, n) == Died {
      i := -1;
      assert NothingRecorded(codec, rounds);
    } else {
      if i >= 0 { RecordedBefore(codec, rounds, i); }
      if i < 0 {
        forall k ensures !LastRecorded(codec, rounds, k) {
          if 0 <= k < n { RecordedBefore(codec, rounds, k); }
        }
      }
    }
  }

  lemma LastRecordedUnique(codec: Codec, rounds: seq<Round>, i: int, j: int)
    requires LastRecorded(codec, rounds, i) && LastRecorded(codec, rounds, j)
    ensures i == j
  {
  }

  /** A round that gets that far is skipped exactly when its configuration is, up to etag and tags,
      the last one recorded: failed deployments in between do not matter. */
  lemma {:induction false} SkippedIff(codec: Codec, rounds: seq<Round>, round: Round)
    requires Faithful(codec)
    ensures OutcomeOf(codec, Cache(codec, rounds), round) == Skipped <==>
      && round.fetched && round.valid && round.built && round.config.Some?
      && exists i ::
        LastRecorded(codec, rounds, i) && Sanitised(ConfigOf(rounds, i)) == Sanitised(Obj(round.config.value))
  {
    var i := CacheIsLastRecorded(codec, rounds);
    if i >= 0 {
      forall j | LastRecorded(codec, rounds, j) ensures j == i {
        LastRecordedUnique(codec, rounds, i, j);
      }
    }
  }

  /** The cache is empty or holds the last deployed configuration. */
  ghost predicate CacheIsCurrent(codec: Codec, rounds: seq<Round>) {
    || Cache(codec, rounds) == ""
    || exists i ::
      && LastDeployed(codec, rounds, i) && rounds[i].config.Some?
      && Cache(codec, rounds) == codec.encode(Sanitised(ConfigOf(rounds, i)))
  }

  /** It does unless the last deployed configuration could not be marshalled and an earlier one of
      the running process could. */
  lemma {:induction false} CacheIsCurrentIff(codec: Codec, rounds: seq<Round>)
    requires Faithful(codec)
    ensures CacheIsCurrent(codec, rounds) <==>
      NothingRecorded(codec, rounds) || exists i :: LastDeployed(codec, rounds, i) && rounds[i].config.Some?
  {
    var r := CacheIsLastRecorded(codec, rounds);
    if r >= 0 {
      if i :| LastDeployed(codec, rounds, i) && rounds[i].config.Some? {
        assert Records(codec, rounds, i);
        assert i == r by { LastIsRecorded(codec, rounds, i, r); }
      }
    }
  }

  lemma {:induction false} LastIsRecorded(codec: Codec, rounds: seq<Round>, i: int, r: int)
    requires LastDeployed(codec, rounds, i) && rounds[i].config.Some? && LastRecorded(codec, rounds, r)
    ensures i == r
  {
    assert Records(codec, rounds, i) && Records(codec, rounds, r);
    assert !(i < r) by { assert Result(codec, rounds, r) == Deployed; }
  }

  /** Marshalling succeeds throughout the run. */
  ghost predicate AllMarshal(rounds: seq<Round>) {
    forall i :: 0 <= i < |rounds| ==> rounds[i].config.Some?
  }

  lemma {:induction false} DeployedOnce(codec: Codec, rounds: seq<Round>, i: nat) returns (last: nat)
    requires i < |rounds| && Result(codec, rounds, i) == Deployed
    ensures LastDeployed(codec, rounds, last) && i <= last
    decreases |rounds| - i
  {
    if k: nat :| i < k < |rounds| && Result(codec, rounds, k) == Deployed {
      last := DeployedOnce(codec, rounds, k);
    } else {
      last := i;
    }
  }

  /** While marshalling succeeds, a skipped configuration equals the last deployed one up to etag and tags. */
  lemma {:induction false} SkippedIsDeployed(codec: Codec, rounds: seq<Round>, round: Round) returns (i: nat)
    requires Faithful(codec) && AllMarshal(rounds)
    requires OutcomeOf(codec, Cache(codec, rounds), round) == Skipped
    ensures LastDeployed(codec, rounds, i) && Sanitised(ConfigOf(rounds, i)) == Sanitised(Obj(round.config.value))
  {
    SkippedIff(codec, rounds, round);
    var r :| LastRecorded(codec, rounds, r) && Sanitised(ConfigOf(rounds, r)) == Sanitised(Obj(round.config.value));
    i := DeployedOnce(codec, rounds, r);
    LastIsRecorded(codec, rounds, i, r);
  }

  /** Resetting the cache after a failed deployment has no effect: the configuration deployed before
      it is skipped afterwards. */
  lemma {:induction false} FailureDoesNotReset(codec: Codec, a: Round, b: Round)
    requires Faithful(codec)
    requires a.fetched && a.valid && a.built && a.config.Some? && a.putAccepted
    requires b.fetched && b.valid && b.built && !b.putAccepted && !b.panicOnPutError
    requires b.config.Some? ==> Sanitised(Obj(a.config.value)) != Sanitised(Obj(b.config.value))
    ensures Result(codec, [a, b, a], 1) == PutFailed && Result(codec, [a, b, a], 2) == Skipped
  {
    var rounds := [a, b, a];
    assert rounds[..0] == [] && rounds[..1] == [a] && rounds[..2] == [a, b];
    assert [a][..0] == [] && [a, b][..1] == [a];
    assert Cache(codec, []) == "";
    assert Cache(codec, [a]) == codec.encode(Sanitised(Obj(a.config.value)));
    assert Cache(codec, [a, b]) == Cache(codec, [a]);
  }

  // ----------------------------------------------------------------------- what equality up to etag and tags means

  lemma SanitisedIs(j: Json)
    ensures Sanitised(j) == Clean(Clean(j, "etag", false), "tags", false)
  {
    var keys := KEYS_TO_DELETE_FOR_CACHE;
    assert keys[..1] == ["etag"] && ["etag"][..0] == [];
    assert CleanAll(j, []) == j;
    assert CleanAll(j, ["etag"]) == Clean(j, "etag", false);
  }

  /** Configurations that sanitise to the same agree on every scalar outside etag and tags. */
  lemma {:induction false} SameOutsideEtagAndTags(a: Json, b: Json, path: seq<Turn>, v: Json)
    requires Sanitised(a) == Sanitised(b) && Scalar(v)
    requires !Deleted(path, "etag", false) && !Deleted(path, "tags", false)
    ensures Lookup(a, path) == Some(v) <==> Lookup(b, path) == Some(v)
  {
    SanitisedIs(a);
    SanitisedIs(b);
    LookupClean(a, path, "etag", false);
    LookupClean(b, path, "etag", false);
    SameScalars(Clean(a, "etag", false), Clean(b, "etag", false), "tags", path, v);
  }

  /** The tags Build adds to its own copy of the gateway make no difference. */
  lemma {:induction false} TagsMakeNoDifference(fields: map<string, Json>, tags: Json)
    ensures Sanitised(Obj(fields["tags" := tags])) == Sanitised(Obj(fields))
  {
    SanitisedIs(Obj(fields));
    SanitisedIs(Obj(fields["tags" := tags]));
    CleanCommutes(Obj(fields), "etag", "tags", false);
    CleanCommutes(Obj(fields["tags" := tags]), "etag", "tags", false);
    DeletedFieldIsFree(fields, "tags", tags, "tags");
  }
}
