/**
 Which TLS secrets are tracked and what the certificate store holds, as a state machine over
 ingress and secret events (pkg/k8scontext/ingress_handlers.go, secrets_handlers.go,
 secretstore.go). The informer's cache update and the handler it calls are one step.
 */
module Secrets {
  import opened Resources

  /** `version` stands for everything else in the object that a deep comparison sees. The data entries
      tls.key and tls.crt of a secret are blank when missing. */
  datatype Ingress = Ingress(ns: string, name: string, agic: bool, tls: seq<string>, version: nat)
  datatype Secret = Secret(ns: string, name: string, kind: string, tlsKey: string, tlsCrt: string, version: nat)

  datatype Object = IngressObject(ing: Ingress) | SecretObject(sec: Secret)
  datatype WorkKind = Create | Update | Delete
  datatype Work = Work(kind: WorkKind, subject: Object)

  /** The configured namespaces, none meaning all, and the conversion by openssl. */
  datatype Setup = Setup(namespaces: set<string>, pkcs12: (string, string) -> Option<string>)

  /** `refs` maps ingress keys to the secret keys tracked for them. */
  datatype State = State(
    ingresses: map<string, Ingress>,
    secrets: map<string, Secret>,
    refs: map<string, set<string>>,
    store: map<string, string>,
    work: seq<Work>
  )

  const START: State := State(map[], map[], map[], map[], [])

  /** What a delete handler is given: the object, a record that it was found missing (with its last
      known state, if any), or something else. */
  datatype Notice<T> = Live(obj: T) | Tombstone(key: string, last: Option<T>) | Other

  /** The pointer that the first type assertion of a delete handler yields: nil unless it succeeds. */
  function Asserted<T>(notice: Notice<T>): Option<T> {
    if notice.Live? then Some(notice.obj) else None
  }

  /** The pointer found in a tombstone. */
  function Unwrapped<T>(notice: Notice<T>): Option<T> {
    if notice.Tombstone? then notice.last else None
  }

  datatype Event =
    | IngressSet(ing: Ingress)
    | IngressGone(oldIngress: Notice<Ingress>)
    | SecretSet(sec: Secret)
    | SecretGone(oldSecret: Notice<Secret>)

  /** GetResourceKey. */
  function Key(ns: string, name: string): string {
    ns + "/" + name
  }

  const NAMESPACES_TO_IGNORE: set<string> := {"kube-system", "kube-public"}
  const RECOGNIZED_SECRET_TYPE: string := "kubernetes.io/tls"

  predicate Accepted(setup: Setup, ns: string) {
    ns !in NAMESPACES_TO_IGNORE && (|setup.namespaces| == 0 || ns in setup.namespaces)
  }

  /** What ConvertSecret puts into the store, if it does. */
  function Convert(setup: Setup, sec: Secret): Option<string> {
    if sec.kind != RECOGNIZED_SECRET_TYPE || |sec.tlsKey| == 0 || |sec.tlsCrt| == 0 then None
    else
      match setup.pkcs12(sec.tlsCrt, sec.tlsKey)
      case None => None
      case Some(cert) => if |cert| == 0 then None else Some(cert)
  }

  function Store(setup: Setup, store: map<string, string>, key: string, sec: Secret): map<string, string> {
    match Convert(setup, sec) case None => store case Some(cert) => store[key := cert]
  }

  // ----------------------------------------------------------------------- the multimap

  predicate Paired(refs: map<string, set<string>>, i: string, k: string) {
    i in refs && k in refs[i]
  }

  predicate Referenced(refs: map<string, set<string>>, k: string) {
    exists i :: i in refs && k in refs[i]
  }

  function Inserted(refs: map<string, set<string>>, i: string, k: string): map<string, set<string>> {
    refs[i := (if i in refs then refs[i] else {}) + {k}]
  }

  function Cleared(refs: map<string, set<string>>, i: string): map<string, set<string>> {
    if i in refs then refs[i := {}] else refs
  }

  // ----------------------------------------------------------------------- handlers

  /** One round of the loop over an ingress' TLS entries. */
  function Track(setup: Setup, s: State, i: string, k: string): State {
    if Paired(s.refs, i, k) then s
    else if k in s.secrets && !Referenced(s.refs, k) then
      if Convert(setup, s.secrets[k]).None? then s
      else s.(store := Store(setup, s.store, k, s.secrets[k]), refs := Inserted(s.refs, i, k))
    else s.(refs := Inserted(s.refs, i, k))
  }

  function TrackAll(setup: Setup, s: State, ing: Ingress, tls: seq<string>): State {
    if tls == [] then s
    else Track(setup, TrackAll(setup, s, ing, tls[..|tls| - 1]), Key(ing.ns, ing.name), Key(ing.ns, tls[|tls| - 1]))
  }

  function Queue(s: State, kind: WorkKind, subject: Object): State {
    s.(work := s.work + [Work(kind, subject)])
  }

  function IngressAdd(setup: Setup, s: State, ing: Ingress): State {
    if !Accepted(setup, ing.ns) || !ing.agic then s
    else Queue(TrackAll(setup, s, ing, ing.tls), Create, IngressObject(ing))
  }

  function IngressUpdate(setup: Setup, s: State, was: Ingress, ing: Ingress): State {
    if !Accepted(setup, ing.ns) || was == ing || (!ing.agic && !was.agic) then s
    else
      var tracked :=
        if ing.tls == [] then s
        else TrackAll(setup, s.(refs := Cleared(s.refs, Key(ing.ns, ing.name))), ing, ing.tls);
      Queue(tracked, Update, IngressObject(ing))
  }

  /** None is a nil dereference: the namespace is read before it is known whether the type assertion
      succeeded. */
  function IngressDelete(setup: Setup, s: State, notice: Notice<Ingress>): Option<State> {
    var asserted := Asserted(notice);
    if asserted.None? then None
    else if !Accepted(setup, asserted.value.ns) then Some(s)
    else
      var ing := if notice.Live? then asserted else Unwrapped(notice);
      if ing.None? || !ing.value.agic then Some(s)
      else Some(Queue(s.(refs := s.refs - {Key(ing.value.ns, ing.value.name)}), Delete, IngressObject(ing.value)))
  }

  /** The common part of adding and updating a secret. */
  function SecretChange(setup: Setup, s: State, sec: Secret, kind: WorkKind): State {
    var k := Key(sec.ns, sec.name);
    if Referenced(s.refs, k) && Convert(setup, sec).Some? then
      Queue(s.(store := Store(setup, s.store, k, sec)), kind, SecretObject(sec))
    else s
  }

  function SecretAdd(setup: Setup, s: State, sec: Secret): State {
    if !Accepted(setup, sec.ns) then s else SecretChange(setup, s, sec, Create)
  }

  function SecretUpdate(setup: Setup, s: State, was: Secret, sec: Secret): State {
    if !Accepted(setup, sec.ns) || was == sec then s else SecretChange(setup, s, sec, Update)
  }

  function SecretDelete(setup: Setup, s: State, notice: Notice<Secret>): Option<State> {
    var asserted := Asserted(notice);
    if asserted.None? then None
    else if !Accepted(setup, asserted.value.ns) then Some(s)
    else
      var sec := if notice.Live? then asserted else Unwrapped(notice);
      if sec.None? then Some(s)
      else
        var k := Key(sec.value.ns, sec.value.name);
        var gone := s.(store := s.store - {k});
        Some(if Referenced(s.refs, k) then Queue(gone, Delete, SecretObject(sec.value)) else gone)
  }

  // ----------------------------------------------------------------------- runs

  /** The key the informer drops from its cache, if any. */
  function DroppedIngress(notice: Notice<Ingress>): set<string> {
    match notice case Live(ing) => {Key(ing.ns, ing.name)} case Tombstone(k, _) => {k} case Other => {}
  }

  function DroppedSecret(notice: Notice<Secret>): set<string> {
    match notice case Live(sec) => {Key(sec.ns, sec.name)} case Tombstone(k, _) => {k} case Other => {}
  }

  /** The informer updates its cache and calls a handler; None is a nil dereference. */
  function Step(setup: Setup, s: State, e: Event): Option<State> {
    match e
    case IngressSet(ing) =>
      var k := Key(ing.ns, ing.name);
      var next := s.(ingresses := s.ingresses[k := ing]);
      Some(if k in s.ingresses then IngressUpdate(setup, next, s.ingresses[k], ing) else IngressAdd(setup, next, ing))
    case IngressGone(notice) =>
      IngressDelete(setup, s.(ingresses := s.ingresses - DroppedIngress(notice)), notice)
    case SecretSet(sec) =>
      var k := Key(sec.ns, sec.name);
      var next := s.(secrets := s.secrets[k := sec]);
      Some(if k in s.secrets then SecretUpdate(setup, next, s.secrets[k], sec) else SecretAdd(setup, next, sec))
    case SecretGone(notice) =>
      SecretDelete(setup, s.(secrets := s.secrets - DroppedSecret(notice)), notice)
  }

  function Run(setup: Setup, events: seq<Event>): Option<State> {
    if events == [] then Some(START)
    else
      match Run(setup, events[..|events| - 1])
      case None => None
      case Some(s) => Step(setup, s, events[|events| - 1])
  }

  // ----------------------------------------------------------------------- invariants

  /** A Kubernetes namespace has no slash in its name. */
  predicate GoodName(ns: string) {
    '/' !in ns
  }

  ghost predicate GoodEvents(events: seq<Event>) {
    forall e :: e in events ==>
      && (e.IngressSet? ==> GoodName(e.ing.ns)) && (e.SecretSet? ==> GoodName(e.sec.ns))
      && (e.SecretGone? && e.oldSecret.Live? ==> GoodName(e.oldSecret.obj.ns))
  }

  /** The secret is of the TLS type with key and certificate, and openssl makes `cert` of them. */
  predicate ConvertsTo(setup: Setup, sec: Secret, cert: string) {
    && sec.kind == "kubernetes.io/tls" && sec.tlsKey != "" && sec.tlsCrt != ""
    && setup.pkcs12(sec.tlsCrt, sec.tlsKey) == Some(cert) && cert != ""
  }

  ghost predicate Convertible(setup: Setup, sec: Secret) {
    exists cert :: ConvertsTo(setup, sec, cert)
  }

  lemma ConvertIs(setup: Setup, sec: Secret)
    ensures forall cert :: Convert(setup, sec) == Some(cert) <==> ConvertsTo(setup, sec, cert)
    ensures Convert(setup, sec).Some? <==> Convertible(setup, sec)
  {
    if Convert(setup, sec).Some? { assert ConvertsTo(setup, sec, Convert(setup, sec).value); }
  }

  /** Not a system namespace, and configured if any are. */
  predicate Observed(setup: Setup, ns: string) {
    ns != "kube-system" && ns != "kube-public" && (setup.namespaces == {} || ns in setup.namespaces)
  }

  /** Every tracked secret whose current version converts is in the store at that version. */
  ghost predicate Current(setup: Setup, s: State) {
    forall k, cert :: Referenced(s.refs, k) && k in s.secrets && ConvertsTo(setup, s.secrets[k], cert) ==>
      k in s.store && s.store[k] == cert
  }

  /** The key lies in a namespace that is not filtered out. */
  ghost predicate Watched(setup: Setup, k: string) {
    exists ns, name :: GoodName(ns) && Observed(setup, ns) && k == Key(ns, name)
  }

  ghost predicate RefsWatched(setup: Setup, s: State) {
    forall k :: Referenced(s.refs, k) ==> Watched(setup, k)
  }

  /** The store holds only secrets that still exist. */
  ghost predicate StoreExists(setup: Setup, s: State) {
    forall k :: k in s.store ==> k in s.secrets && Watched(setup, k)
  }

  ghost predicate CacheKeyed(s: State) {
    && (forall k :: k in s.secrets ==> GoodName(s.secrets[k].ns) && k == Key(s.secrets[k].ns, s.secrets[k].name))
    && (forall k :: k in s.ingresses ==>
          GoodName(s.ingresses[k].ns) && k == Key(s.ingresses[k].ns, s.ingresses[k].name))
  }

  ghost predicate Inv(setup: Setup, s: State) {
    Current(setup, s) && RefsWatched(setup, s) && StoreExists(setup, s) && CacheKeyed(s)
  }

  /** A key names one namespace. */
  lemma {:induction false} KeyInjective(a: string, n: string, b: string, m: string)
    requires GoodName(a) && GoodName(b) && Key(a, n) == Key(b, m)
    ensures a == b && n == m
  {
    var k := Key(a, n);
    assert k[|a|] == '/' && k[|b|] == '/';
    assert forall i :: 0 <= i < |a| ==> k[i] == a[i] && a[i] != '/';
    assert forall i :: 0 <= i < |b| ==> k[i] == b[i] && b[i] != '/';
    assert a == k[..|a|] && b == k[..|b|];
    assert n == k[|a| + 1..] && m == k[|b| + 1..];
  }

  /** A watched key is accepted whichever secret carries it. */
  lemma WatchedIsAccepted(setup: Setup, ns: string, name: string)
    requires GoodName(ns) && Watched(setup, Key(ns, name))
    ensures Accepted(setup, ns)
  {
    var a, n :| GoodName(a) && Observed(setup, a) && Key(ns, name) == Key(a, n);
    KeyInjective(ns, name, a, n);
  }

  lemma InsertedPairs(refs: map<string, set<string>>, i: string, k: string, j: string, l: string)
    ensures Paired(Inserted(refs, i, k), j, l) <==> Paired(refs, j, l) || (j == i && l == k)
  {
  }

  lemma InsertedRefs(refs: map<string, set<string>>, i: string, k: string, l: string)
    ensures Referenced(Inserted(refs, i, k), l) <==> Referenced(refs, l) || l == k
  {
    var after := Inserted(refs, i, k);
    assert i in after && k in after[i];
    if j :| j in refs && l in refs[j] {
      assert j in after && l in after[j];
    }
  }

  /** Referring to one more secret keeps the invariants when the store is current for it. */
  lemma {:induction false} InsertedKeeps(setup: Setup, s: State, i: string, k: string)
    requires Inv(setup, s) && Watched(setup, k)
    requires forall cert :: k in s.secrets && ConvertsTo(setup, s.secrets[k], cert) ==>
      k in s.store && s.store[k] == cert
    ensures Inv(setup, s.(refs := Inserted(s.refs, i, k)))
  {
    forall l ensures Referenced(Inserted(s.refs, i, k), l) ==> Referenced(s.refs, l) || l == k {
      InsertedRefs(s.refs, i, k, l);
    }
  }

  /** Storing the current version of a secret keeps the invariants. */
  lemma {:induction false} StoringKeeps(setup: Setup, s: State, k: string)
    requires Inv(setup, s) && Watched(setup, k) && k in s.secrets
    ensures Inv(setup, s.(store := Store(setup, s.store, k, s.secrets[k])))
  {
  }

  lemma {:induction false} TrackKeeps(setup: Setup, s: State, i: string, k: string)
    requires Inv(setup, s) && Watched(setup, k)
    ensures Inv(setup, Track(setup, s, i, k))
  {
    if !Paired(s.refs, i, k) {
      if k in s.secrets && !Referenced(s.refs, k) {
        StoringKeeps(setup, s, k);
        InsertedKeeps(setup, s.(store := Store(setup, s.store, k, s.secrets[k])), i, k);
      } else {
        InsertedKeeps(setup, s, i, k);
      }
    }
  }

  lemma {:induction false} TrackAllKeeps(setup: Setup, s: State, ing: Ingress, tls: seq<string>)
    requires Inv(setup, s) && GoodName(ing.ns) && Accepted(setup, ing.ns)
    ensures Inv(setup, TrackAll(setup, s, ing, tls))
  {
    if tls != [] {
      TrackAllKeeps(setup, s, ing, tls[..|tls| - 1]);
      TrackKeeps(setup, TrackAll(setup, s, ing, tls[..|tls| - 1]), Key(ing.ns, ing.name), Key(ing.ns, tls[|tls| - 1]));
    }
  }

  lemma FewerRefsKeep(setup: Setup, s: State, refs: map<string, set<string>>)
    requires Inv(setup, s) && forall k :: Referenced(refs, k) ==> Referenced(s.refs, k)
    ensures Inv(setup, s.(refs := refs))
  {
  }

  lemma {:induction false} IngressSetKeeps(setup: Setup, s: State, ing: Ingress)
    requires Inv(setup, s) && GoodName(ing.ns)
    ensures Inv(setup, Step(setup, s, IngressSet(ing)).value)
  {
    var k := Key(ing.ns, ing.name);
    var next := s.(ingresses := s.ingresses[k := ing]);
    assert Inv(setup, next);
    if Accepted(setup, ing.ns) {
      TrackAllKeeps(setup, next, ing, ing.tls);
      var cleared := Cleared(s.refs, k);
      forall l | Referenced(cleared, l) ensures Referenced(s.refs, l) {
        var i :| i in cleared && l in cleared[i];
        assert i in s.refs && l in s.refs[i];
      }
      FewerRefsKeep(setup, next, cleared);
      TrackAllKeeps(setup, next.(refs := cleared), ing, ing.tls);
    }
  }

  lemma {:induction false} IngressGoneKeeps(setup: Setup, s: State, notice: Notice<Ingress>)
    requires Inv(setup, s) && Step(setup, s, IngressGone(notice)).Some?
    ensures Inv(setup, Step(setup, s, IngressGone(notice)).value)
  {
    var k := Key(notice.obj.ns, notice.obj.name);
    var next := s.(ingresses := s.ingresses - {k});
    var refs := s.refs - {k};
    forall l | Referenced(refs, l) ensures Referenced(s.refs, l) {
      var i :| i in refs && l in refs[i];
      assert i in s.refs && l in s.refs[i];
    }
    FewerRefsKeep(setup, next, refs);
  }

  /** What the state needs apart from the secret called `k`. */
  ghost predicate CurrentBut(setup: Setup, s: State, k: string) {
    forall l, cert :: l != k && Referenced(s.refs, l) && l in s.secrets && ConvertsTo(setup, s.secrets[l], cert) ==>
      l in s.store && s.store[l] == cert
  }

  lemma {:induction false} CachedSecret(setup: Setup, s: State, sec: Secret)
    requires Inv(setup, s) && GoodName(sec.ns)
    ensures var k := Key(sec.ns, sec.name);
      var next := s.(secrets := s.secrets[k := sec]);
      CurrentBut(setup, next, k) && RefsWatched(setup, next) && StoreExists(setup, next) && CacheKeyed(next)
  {
  }

  lemma {:induction false} SecretChangeKeeps(setup: Setup, s: State, sec: Secret, kind: WorkKind)
    requires var k := Key(sec.ns, sec.name);
      k in s.secrets && s.secrets[k] == sec && CurrentBut(setup, s, k) && RefsWatched(setup, s)
        && StoreExists(setup, s) && CacheKeyed(s)
    ensures Inv(setup, SecretChange(setup, s, sec, kind))
  {
  }

  lemma {:induction false} SecretSetKeeps(setup: Setup, s: State, sec: Secret)
    requires Inv(setup, s) && GoodName(sec.ns)
    ensures Inv(setup, Step(setup, s, SecretSet(sec)).value)
  {
    var k := Key(sec.ns, sec.name);
    var next := s.(secrets := s.secrets[k := sec]);
    CachedSecret(setup, s, sec);
    if Accepted(setup, sec.ns) {
      SecretChangeKeeps(setup, next, sec, Create);
      SecretChangeKeeps(setup, next, sec, Update);
      if k in s.secrets && s.secrets[k] == sec {
        assert next.secrets == s.secrets;
      }
    } else {
      assert !Referenced(s.refs, k) by {
        if Referenced(s.refs, k) { WatchedIsAccepted(setup, sec.ns, sec.name); }
      }
    }
  }

  lemma {:induction false} DroppedKeeps(setup: Setup, s: State, k: string)
    requires Inv(setup, s)
    ensures Inv(setup, s.(secrets := s.secrets - {k}, store := s.store - {k}))
  {
  }

  lemma {:induction false} SecretGoneKeeps(setup: Setup, s: State, notice: Notice<Secret>)
    requires Inv(setup, s) && Step(setup, s, SecretGone(notice)).Some? && (notice.Live? ==> GoodName(notice.obj.ns))
    ensures Inv(setup, Step(setup, s, SecretGone(notice)).value)
  {
    var sec := notice.obj;
    var k := Key(sec.ns, sec.name);
    DroppedKeeps(setup, s, k);
    if !Accepted(setup, sec.ns) {
      assert k !in s.store by {
        if k in s.store { WatchedIsAccepted(setup, sec.ns, sec.name); }
      }
      assert s.store - {k} == s.store;
    }
  }

  /** After every run that does not crash the invariants hold. */
  lemma {:induction false} RunKeeps(setup: Setup, events: seq<Event>)
    requires GoodEvents(events) && Run(setup, events).Some?
    ensures Inv(setup, Run(setup, events).value)
  {
    if events != [] {
      var n := |events| - 1;
      assert forall e :: e in events[..n] ==> e in events;
      RunKeeps(setup, events[..n]);
      var s := Run(setup, events[..n]).value;
      var e := events[n];
      assert e in events;
      match e
      case IngressSet(ing) => IngressSetKeeps(setup, s, ing);
      case IngressGone(notice) => IngressGoneKeeps(setup, s, notice);
      case SecretSet(sec) => SecretSetKeeps(setup, s, sec);
      case SecretGone(notice) => SecretGoneKeeps(setup, s, notice);
    }
  }

  /** A step crashes exactly when a delete handler is given anything but the object itself. */
  lemma {:induction false} StepCrashIff(setup: Setup, s: State, e: Event)
    ensures Step(setup, s, e).None? <==>
      (e.IngressGone? && !e.oldIngress.Live?) || (e.SecretGone? && !e.oldSecret.Live?)
  {
  }

  /** A run crashes exactly when some deletion is delivered as anything but the object itself. */
  lemma {:induction false} CrashIff(setup: Setup, events: seq<Event>)
    ensures Run(setup, events).None? <==>
      exists e :: e in events && ((e.IngressGone? && !e.oldIngress.Live?) || (e.SecretGone? && !e.oldSecret.Live?))
  {
    if events != [] {
      var n := |events| - 1;
      CrashIff(setup, events[..n]);
      if Run(setup, events[..n]).Some? {
        StepCrashIff(setup, Run(setup, events[..n]).value, events[n]);
      }
      assert forall e :: e in events <==> e in events[..n] || e == events[n];
    }
  }

  // ----------------------------------------------------------------------- where certificates come from

  /** Some version of the secret that an event delivered converts to this certificate. */
  ghost predicate Delivered(setup: Setup, events: seq<Event>, k: string, cert: string) {
    exists e :: e in events && e.SecretSet? && Key(e.sec.ns, e.sec.name) == k && ConvertsTo(setup, e.sec, cert)
  }

  ghost predicate Known(events: seq<Event>, sec: Secret) {
    exists e :: e in events && e == SecretSet(sec)
  }

  /** The cached secrets were delivered and the stored certificates come from delivered versions. */
  ghost predicate Sourced(setup: Setup, events: seq<Event>, s: State) {
    && (forall k :: k in s.secrets ==> Known(events, s.secrets[k]) && k == Key(s.secrets[k].ns, s.secrets[k].name))
    && (forall k :: k in s.store ==> Delivered(setup, events, k, s.store[k]))
  }

  lemma {:induction false} TrackAllSourced(setup: Setup, events: seq<Event>, s: State, ing: Ingress, tls: seq<string>)
    requires Sourced(setup, events, s)
    ensures Sourced(setup, events, TrackAll(setup, s, ing, tls))
  {
    if tls != [] {
      TrackAllSourced(setup, events, s, ing, tls[..|tls| - 1]);
      var mid, k := TrackAll(setup, s, ing, tls[..|tls| - 1]), Key(ing.ns, tls[|tls| - 1]);
      if k in mid.secrets {
        assert Known(events, mid.secrets[k]);
      }
    }
  }

  lemma {:induction false} IngressSetSourced(setup: Setup, events: seq<Event>, s: State, ing: Ingress)
    requires Sourced(setup, events, s)
    ensures Sourced(setup, events, Step(setup, s, IngressSet(ing)).value)
  {
    var k := Key(ing.ns, ing.name);
    var next := s.(ingresses := s.ingresses[k := ing]);
    TrackAllSourced(setup, events, next, ing, ing.tls);
    TrackAllSourced(setup, events, next.(refs := Cleared(s.refs, k)), ing, ing.tls);
  }

  lemma {:induction false} SecretSetSourced(setup: Setup, events: seq<Event>, s: State, sec: Secret)
    requires Sourced(setup, events, s) && SecretSet(sec) in events
    ensures Sourced(setup, events, Step(setup, s, SecretSet(sec)).value)
  {
    var k := Key(sec.ns, sec.name);
    var next := s.(secrets := s.secrets[k := sec]);
    assert Known(events, sec);
    assert Sourced(setup, events, next);
    if Convert(setup, sec).Some? {
      assert Delivered(setup, events, k, Convert(setup, sec).value);
    }
    assert Sourced(setup, events, next.(store := Store(setup, s.store, k, sec)));
  }

  lemma {:induction false} IngressGoneSourced(setup: Setup, events: seq<Event>, s: State, notice: Notice<Ingress>)
    requires Sourced(setup, events, s) && Step(setup, s, IngressGone(notice)).Some?
    ensures Sourced(setup, events, Step(setup, s, IngressGone(notice)).value)
  {
  }

  lemma {:induction false} SecretGoneSourced(setup: Setup, events: seq<Event>, s: State, notice: Notice<Secret>)
    requires Sourced(setup, events, s) && Step(setup, s, SecretGone(notice)).Some?
    ensures Sourced(setup, events, Step(setup, s, SecretGone(notice)).value)
  {
  }

  lemma {:induction false} StepSourced(setup: Setup, events: seq<Event>, s: State, e: Event)
    requires Sourced(setup, events, s) && e in events && Step(setup, s, e).Some?
    ensures Sourced(setup, events, Step(setup, s, e).value)
  {
    match e
    case IngressSet(ing) => IngressSetSourced(setup, events, s, ing);
    case IngressGone(notice) => IngressGoneSourced(setup, events, s, notice);
    case SecretSet(sec) => SecretSetSourced(setup, events, s, sec);
    case SecretGone(notice) => SecretGoneSourced(setup, events, s, notice);
  }

  lemma {:induction false} MoreEvents(setup: Setup, events: seq<Event>, more: seq<Event>, s: State)
    requires Sourced(setup, events, s) && forall e :: e in events ==> e in more
    ensures Sourced(setup, more, s)
  {
    forall k | k in s.store ensures Delivered(setup, more, k, s.store[k]) {
      assert Delivered(setup, events, k, s.store[k]);
    }
    forall k | k in s.secrets ensures Known(more, s.secrets[k]) {
      assert Known(events, s.secrets[k]);
    }
  }

  /** After every run each stored certificate comes from a delivered version of that secret. */
  lemma {:induction false} CertificatesAreDelivered(setup: Setup, events: seq<Event>)
    requires Run(setup, events).Some?
    ensures Sourced(setup, events, Run(setup, events).value)
  {
    if events != [] {
      var n := |events| - 1;
      var s := Run(setup, events[..n]).value;
      CertificatesAreDelivered(setup, events[..n]);
      MoreEvents(setup, events[..n], events, s);
      StepSourced(setup, events, s, events[n]);
    }
  }

  // ----------------------------------------------------------------------- which secrets get tracked

  /** The secret's reference is recorded: it is not there yet, or already referenced, or it converts. */
  ghost predicate Recordable(setup: Setup, s: State, k: string) {
    k !in s.secrets || Referenced(s.refs, k) || Convertible(setup, s.secrets[k])
  }

  ghost predicate Mentions(ing: Ingress, tls: seq<string>, k: string) {
    exists t :: t in tls && k == Key(ing.ns, t)
  }

  /** Going through the TLS entries adds exactly the pairs of mentioned recordable secrets. */
  lemma {:induction false} TrackAllPairs(setup: Setup, s: State, ing: Ingress, tls: seq<string>, j: string, k: string)
    ensures var i := Key(ing.ns, ing.name);
      Paired(TrackAll(setup, s, ing, tls).refs, j, k) <==>
      Paired(s.refs, j, k) || (j == i && Mentions(ing, tls, k) && Recordable(setup, s, k))
    ensures TrackAll(setup, s, ing, tls).secrets == s.secrets
  {
    if tls != [] {
      var n := |tls| - 1;
      var i, l := Key(ing.ns, ing.name), Key(ing.ns, tls[n]);
      var mid := TrackAll(setup, s, ing, tls[..n]);
      TrackAllPairs(setup, s, ing, tls[..n], j, k);
      TrackAllPairs(setup, s, ing, tls[..n], i, l);
      TrackAllRefs(setup, s, ing, tls[..n], l);
      InsertedPairs(mid.refs, i, l, j, k);
      MentionsSnoc(ing, tls, k);
      MentionsSnoc(ing, tls, l);
      if l in s.secrets { ConvertIs(setup, s.secrets[l]); }
    }
  }

  lemma MentionsSnoc(ing: Ingress, tls: seq<string>, k: string)
    requires tls != []
    ensures Mentions(ing, tls, k) <==> Mentions(ing, tls[..|tls| - 1], k) || k == Key(ing.ns, tls[|tls| - 1])
  {
    assert tls[|tls| - 1] in tls;
  }

  /** A secret that has become referenced on the way is paired with this ingress. */
  lemma {:induction false} TrackAllRefs(setup: Setup, s: State, ing: Ingress, tls: seq<string>, k: string)
    ensures Referenced(TrackAll(setup, s, ing, tls).refs, k) ==>
      Referenced(s.refs, k) || Paired(TrackAll(setup, s, ing, tls).refs, Key(ing.ns, ing.name), k)
    ensures Referenced(s.refs, k) ==> Referenced(TrackAll(setup, s, ing, tls).refs, k)
  {
    if tls != [] {
      var n := |tls| - 1;
      TrackAllRefs(setup, s, ing, tls[..n], k);
      var refs, i, l := TrackAll(setup, s, ing, tls[..n]).refs, Key(ing.ns, ing.name), Key(ing.ns, tls[n]);
      InsertedRefs(refs, i, l, k);
      InsertedPairs(refs, i, l, i, k);
    }
  }

  /** After an ingress of ours is added, a secret it mentions is tracked for it exactly when it was
      already, or is recordable. */
  lemma {:induction false} TrackedAfterAddIff(setup: Setup, s: State, ing: Ingress, k: string)
    requires Observed(setup, ing.ns) && ing.agic && Mentions(ing, ing.tls, k)
    ensures Paired(IngressAdd(setup, s, ing).refs, Key(ing.ns, ing.name), k) <==>
      Paired(s.refs, Key(ing.ns, ing.name), k) || Recordable(setup, s, k)
  {
    TrackAllPairs(setup, s, ing, ing.tls, Key(ing.ns, ing.name), k);
  }

  /** After an update the tracked secrets are exactly the mentioned ones that are recordable without
      the ingress' former references. */
  lemma {:induction false} TrackedAfterUpdateIff(setup: Setup, s: State, was: Ingress, ing: Ingress, k: string)
    requires Observed(setup, ing.ns) && (ing.agic || was.agic) && was != ing && ing.tls != []
    ensures Paired(IngressUpdate(setup, s, was, ing).refs, Key(ing.ns, ing.name), k) <==>
      Mentions(ing, ing.tls, k) && Recordable(setup, s.(refs := Cleared(s.refs, Key(ing.ns, ing.name))), k)
  {
    TrackAllPairs(setup, s.(refs := Cleared(s.refs, Key(ing.ns, ing.name))), ing, ing.tls, Key(ing.ns, ing.name), k);
  }

  /** After a deletion exactly the pairs of that ingress are gone. */
  lemma {:induction false} UntrackedAfterDelete(setup: Setup, s: State, ing: Ingress, j: string, k: string)
    requires Observed(setup, ing.ns) && ing.agic
    ensures var t := IngressDelete(setup, s, Live(ing));
      t.Some? && (Paired(t.value.refs, j, k) <==> Paired(s.refs, j, k) && j != Key(ing.ns, ing.name))
  {
  }

  // ----------------------------------------------------------------------- work

  /** What the tracked secrets have in the store is the same. */
  ghost predicate SameTracked(s: State, t: State) {
    && s.refs == t.refs
    && forall k :: Referenced(t.refs, k) ==>
      (k in s.store <==> k in t.store) && (k in s.store && k in t.store ==> s.store[k] == t.store[k])
  }

  lemma {:induction false} TrackAllKeepsWork(setup: Setup, s: State, ing: Ingress, tls: seq<string>)
    ensures TrackAll(setup, s, ing, tls).work == s.work
  {
    if tls != [] { TrackAllKeepsWork(setup, s, ing, tls[..|tls| - 1]); }
  }

  lemma {:induction false} IngressChangeIsAnnounced(setup: Setup, s: State, ing: Ingress)
    ensures var t := Step(setup, s, IngressSet(ing)).value;
      if t.work == s.work then SameTracked(s, t) else exists w :: t.work == s.work + [w]
  {
    var k := Key(ing.ns, ing.name);
    var next := s.(ingresses := s.ingresses[k := ing]);
    TrackAllKeepsWork(setup, next, ing, ing.tls);
    TrackAllKeepsWork(setup, next.(refs := Cleared(s.refs, k)), ing, ing.tls);
  }

  /** A step queues at most one piece of work, and does so whenever it changes what is tracked or the
      certificate of a tracked secret. */
  lemma {:induction false} TrackedChangeIsAnnounced(setup: Setup, s: State, e: Event)
    requires Step(setup, s, e).Some?
    ensures var t := Step(setup, s, e).value;
      if t.work == s.work then SameTracked(s, t) else exists w :: t.work == s.work + [w]
  {
    if e.IngressSet? {
      IngressChangeIsAnnounced(setup, s, e.ing);
    }
  }

  // ----------------------------------------------------------------------- what each event does

  ghost predicate StoresAt(before: map<string, string>, after: map<string, string>, k: string, cert: Option<string>) {
    if cert.Some? then k in after && after[k] == cert.value
    else (k in after <==> k in before) && (k in after ==> after[k] == before[k])
  }

  /** Tracking stores the mentioned secrets that exist, convert and were not referenced; no other entry of
      the store changes. */
  ghost predicate StoresMentioned(setup: Setup, s: State, ing: Ingress, tls: seq<string>, t: State) {
    forall k ::
      if k in s.secrets && Mentions(ing, tls, k) && !Referenced(s.refs, k) && Convertible(setup, s.secrets[k]) then
        k in t.store && ConvertsTo(setup, s.secrets[k], t.store[k])
      else
        StoresAt(s.store, t.store, k, None)
  }

  lemma {:induction false} TrackAllStores(setup: Setup, s: State, ing: Ingress, tls: seq<string>)
    ensures StoresMentioned(setup, s, ing, tls, TrackAll(setup, s, ing, tls))
  {
    if tls != [] {
      var n := |tls| - 1;
      var mid, l := TrackAll(setup, s, ing, tls[..n]), Key(ing.ns, tls[n]);
      TrackAllStores(setup, s, ing, tls[..n]);
      TrackAllRefs(setup, s, ing, tls[..n], l);
      TrackAllPairs(setup, s, ing, tls[..n], Key(ing.ns, ing.name), l);
      StoredOnce(setup, s, ing, tls[..n], mid, l);
      if l in s.secrets { ConvertIs(setup, s.secrets[l]); }
      TrackStores(setup, mid, Key(ing.ns, ing.name), l);
      forall k { MentionsSnoc(ing, tls, k); }
    }
  }

  /** One round stores at most the secret it is about. */
  lemma TrackStores(setup: Setup, s: State, i: string, l: string)
    ensures var t := Track(setup, s, i, l);
      && (forall k :: k != l ==> StoresAt(s.store, t.store, k, None))
      && (if l in s.secrets && !Referenced(s.refs, l) && Convertible(setup, s.secrets[l]) then
            l in t.store && ConvertsTo(setup, s.secrets[l], t.store[l])
          else StoresAt(s.store, t.store, l, None))
  {
    if l in s.secrets { ConvertIs(setup, s.secrets[l]); }
    assert Paired(s.refs, i, l) ==> Referenced(s.refs, l);
  }

  /** A mentioned secret that was stored on the way is referenced by then. */
  lemma {:induction false} StoredOnce(setup: Setup, s: State, ing: Ingress, tls: seq<string>, mid: State, k: string)
    requires mid == TrackAll(setup, s, ing, tls)
    ensures Mentions(ing, tls, k) && k in s.secrets && Convertible(setup, s.secrets[k]) ==> Referenced(mid.refs, k)
    ensures Referenced(mid.refs, k) && !Referenced(s.refs, k) && k in s.secrets ==>
      Mentions(ing, tls, k) && Convertible(setup, s.secrets[k])
  {
    TrackAllPairs(setup, s, ing, tls, Key(ing.ns, ing.name), k);
    TrackAllRefs(setup, s, ing, tls, k);
  }

  /** What a new or changed secret does: it is converted, stored and announced exactly when its namespace is
      observed, the object differs, some ingress refers to it and it converts. */
  lemma {:induction false} SecretSetDoes(setup: Setup, s: State, sec: Secret)
    ensures var t, k := Step(setup, s, SecretSet(sec)).value, Key(sec.ns, sec.name);
      var kind := if k in s.secrets then Update else Create;
      && t == s.(secrets := s.secrets[k := sec], store := t.store, work := t.work)
      && if Observed(setup, sec.ns) && !(k in s.secrets && s.secrets[k] == sec) && Referenced(s.refs, k)
            && Convertible(setup, sec)
         then k in t.store && ConvertsTo(setup, sec, t.store[k]) && t.store == s.store[k := t.store[k]]
              && t.work == s.work + [Work(kind, SecretObject(sec))]
         else t.store == s.store && t.work == s.work
  {
    ConvertIs(setup, sec);
  }

  lemma {:induction false} SecretGoneDoes(setup: Setup, s: State, sec: Secret)
    ensures var t, k := Step(setup, s, SecretGone(Live(sec))), Key(sec.ns, sec.name);
      && t.Some? && t.value == s.(secrets := s.secrets - {k}, store := t.value.store, work := t.value.work)
      && t.value.store == (if Observed(setup, sec.ns) then s.store - {k} else s.store)
      && t.value.work == s.work + (if Observed(setup, sec.ns) && Referenced(s.refs, k)
                                   then [Work(Delete, SecretObject(sec))] else [])
  {
  }

  /** The ingress is handled: its namespace is observed and it, or what it was, is ours; and it differs. */
  ghost predicate Handled(setup: Setup, s: State, ing: Ingress) {
    var k := Key(ing.ns, ing.name);
    && Observed(setup, ing.ns)
    && if k in s.ingresses then s.ingresses[k] != ing && (ing.agic || s.ingresses[k].agic) else ing.agic
  }

  /** What a new or changed ingress starts from: an update with TLS entries first drops the ingress' pairs. */
  function Prepared(s: State, ing: Ingress): State {
    var i := Key(ing.ns, ing.name);
    if i in s.ingresses && ing.tls != [] then s.(refs := Cleared(s.refs, i)) else s
  }

  /** What a new or changed ingress does. Which of its own pairs are there then is the subject of
      TrackedAfterAddIff and TrackedAfterUpdateIff. */
  lemma {:induction false} IngressSetDoes(setup: Setup, s: State, ing: Ingress)
    ensures var t, i := Step(setup, s, IngressSet(ing)).value, Key(ing.ns, ing.name);
      var kind := if i in s.ingresses then Update else Create;
      && t == s.(ingresses := s.ingresses[i := ing], refs := t.refs, store := t.store, work := t.work)
      && if Handled(setup, s, ing)
         then t.work == s.work + [Work(kind, IngressObject(ing))]
              && (forall j, k :: j != i ==> (Paired(t.refs, j, k) <==> Paired(s.refs, j, k)))
              && StoresMentioned(setup, Prepared(s, ing), ing, ing.tls, t)
         else t.refs == s.refs && t.store == s.store && t.work == s.work
  {
    var i := Key(ing.ns, ing.name);
    var next := Prepared(s, ing).(ingresses := s.ingresses[i := ing]);
    assert ing.tls == [] ==> TrackAll(setup, next, ing, ing.tls) == next;
    TrackAllFrame(setup, next, ing, ing.tls);
    TrackAllStores(setup, next, ing, ing.tls);
    forall j, k | j != i ensures Paired(TrackAll(setup, next, ing, ing.tls).refs, j, k) <==> Paired(s.refs, j, k) {
      TrackAllPairs(setup, next, ing, ing.tls, j, k);
    }
    assert StoresMentioned(setup, Prepared(s, ing), ing, ing.tls, TrackAll(setup, next, ing, ing.tls));
  }

  lemma {:induction false} TrackAllFrame(setup: Setup, s: State, ing: Ingress, tls: seq<string>)
    ensures var t := TrackAll(setup, s, ing, tls); t == s.(refs := t.refs, store := t.store)
  {
    if tls != [] { TrackAllFrame(setup, s, ing, tls[..|tls| - 1]); }
  }

  lemma {:induction false} IngressGoneDoes(setup: Setup, s: State, ing: Ingress)
    ensures var t, i := Step(setup, s, IngressGone(Live(ing))), Key(ing.ns, ing.name);
      var ours := Observed(setup, ing.ns) && ing.agic;
      && t.Some? && t.value == s.(ingresses := s.ingresses - {i}, refs := t.value.refs, work := t.value.work)
      && t.value.refs == (if ours then s.refs - {i} else s.refs)
      && t.value.work == s.work + (if ours then [Work(Delete, IngressObject(ing))] else [])
  {
  }

  /** A secret that did not convert when its ingress was added stays out of the store once repaired. */
  lemma {:induction false} RepairedSecretIsMissed(setup: Setup, bad: Secret, good: Secret, ing: Ingress)
    requires bad.ns == good.ns == ing.ns && bad.name == good.name && ing.tls == [good.name]
    requires Observed(setup, ing.ns) && ing.agic && !Convertible(setup, bad) && Convertible(setup, good)
    ensures var k := Key(good.ns, good.name);
      var end := Run(setup, [SecretSet(bad), IngressSet(ing), SecretSet(good)]);
      end.Some? && k in end.value.secrets && end.value.secrets[k] == good && k !in end.value.store
  {
    var e1, e2, e3 := SecretSet(bad), IngressSet(ing), SecretSet(good);
    var k := Key(good.ns, good.name);
    assert [e1, e2, e3][..2] == [e1, e2] && [e1, e2][..1] == [e1] && [e1][..0] == [];
    var s1 := START.(secrets := map[k := bad]);
    assert Run(setup, [e1]) == Step(setup, START, e1);
    assert START.secrets[k := bad] == map[k := bad];
    assert Run(setup, [e1]) == Some(s1);
    var next := s1.(ingresses := map[Key(ing.ns, ing.name) := ing]);
    assert ing.tls[..0] == [];
    assert TrackAll(setup, next, ing, []) == next;
    ConvertIs(setup, bad);
    assert TrackAll(setup, next, ing, ing.tls) == next;
    var s2 := Run(setup, [e1, e2]);
    assert s2.Some? && s2.value.refs == map[] && s2.value.store == map[];
  }
}
