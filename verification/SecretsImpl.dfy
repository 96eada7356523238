/**
 The multimap, the certificate store and the event handlers as objects that change in place
 (pkg/utils/threadsafemultimap.go, pkg/k8scontext), proved against Secrets.
 */
module SecretsImpl {
  import opened Resources
  import opened Iteration
  import opened Secrets

  /** threadsafeMultiMap. */
  class MultiMap {
    var v: map<string, set<string>>

    constructor ()
      ensures v == map[]
    {
      v := map[];
    }

    method Insert(key: string, value: string)
      modifies this
      ensures v == Inserted(old(v), key, value)
      ensures forall i, k :: Paired(v, i, k) <==> Paired(old(v), i, k) || (i == key && k == value)
    {
      if key !in v {
        v := v[key := {}];
      }
      v := v[key := v[key] + {value}];
    }

    method Clear(key: string)
      modifies this
      ensures v == Cleared(old(v), key) && v.Keys == old(v).Keys
      ensures forall i, k :: Paired(v, i, k) <==> Paired(old(v), i, k) && i != key
    {
      if key in v {
        v := v[key := {}];
      }
    }

    method Erase(key: string) returns (erased: bool)
      modifies this
      ensures v == old(v) - {key} && erased == (key in old(v))
      ensures forall i, k :: Paired(v, i, k) <==> Paired(old(v), i, k) && i != key
    {
      if key in v {
        v := v - {key};
        return true;
      }
      return false;
    }

    method ContainsPair(key: string, value: string) returns (r: bool)
      ensures r == Paired(v, key, value)
    {
      return key in v && value in v[key];
    }

    method ContainsValue(value: string) returns (r: bool)
      ensures r == Referenced(v, value)
    {
      var order := VisitOrder(v.Keys);
      for n := 0 to |order|
        invariant forall j :: 0 <= j < n ==> order[j] in v && value !in v[order[j]]
      {
        assert order[n] in v;
        if value in v[order[n]] { return true; }
      }
      return false;
    }
  }

  /** SecretsStore. */
  class SecretsStore {
    var cache: map<string, string>

    constructor ()
      ensures cache == map[]
    {
      cache := map[];
    }

    method ConvertSecret(setup: Setup, key: string, sec: Secret) returns (ok: bool)
      modifies this
      ensures ok == Convert(setup, sec).Some? && cache == Store(setup, old(cache), key, sec)
      ensures ok ==> key in cache && ConvertsTo(setup, sec, cache[key]) && cache == old(cache)[key := cache[key]]
      ensures !ok ==> cache == old(cache) && forall cert :: !ConvertsTo(setup, sec, cert)
    {
      if sec.kind != RECOGNIZED_SECRET_TYPE { return false; }
      if |sec.tlsKey| == 0 || |sec.tlsCrt| == 0 { return false; }
      var out := setup.pkcs12(sec.tlsCrt, sec.tlsKey);
      if out.None? || |out.value| == 0 { return false; }
      cache := cache[key := out.value];
      return true;
    }

    method Delete(key: string)
      modifies this
      ensures cache == old(cache) - {key}
    {
      cache := cache - {key};
    }
  }

  /** The Kubernetes context with its event handlers. */
  class K8sContext {
    const setup: Setup
    const refs: MultiMap
    const store: SecretsStore
    var ingresses: map<string, Ingress>
    var secrets: map<string, Secret>
    var work: seq<Work>

    ghost function View(): State
      reads this, refs, store
    {
      State(ingresses, secrets, refs.v, store.cache, work)
    }

    constructor (setup: Setup)
      ensures this.setup == setup && View() == START
      ensures fresh(refs) && fresh(store)
    {
      this.setup := setup;
      refs := new MultiMap();
      store := new SecretsStore();
      ingresses, secrets, work := map[], map[], [];
    }

    /** The loop over the TLS entries that ingressAdd and ingressUpdate share. */
    method TrackTls(ing: Ingress)
      modifies refs, store
      ensures View() == TrackAll(setup, old(View()), ing, ing.tls)
    {
      var ingKey := Key(ing.ns, ing.name);
      for n := 0 to |ing.tls|
        invariant View() == TrackAll(setup, old(View()), ing, ing.tls[..n])
      {
        assert ing.tls[..n + 1][..n] == ing.tls[..n];
        TrackOne(ingKey, Key(ing.ns, ing.tls[n]));
      }
      assert ing.tls[..|ing.tls|] == ing.tls;
    }

    method TrackOne(ingKey: string, secKey: string)
      modifies refs, store
      ensures View() == Track(setup, old(View()), ingKey, secKey)
    {
      var paired := refs.ContainsPair(ingKey, secKey);
      if paired { return; }
      if secKey in secrets {
        var referenced := refs.ContainsValue(secKey);
        if !referenced {
          var ok := store.ConvertSecret(setup, secKey, secrets[secKey]);
          if !ok { return; }
        }
      }
      refs.Insert(ingKey, secKey);
    }

    method IngressAdd(ing: Ingress)
      modifies this`work, refs, store
      ensures View() == Secrets.IngressAdd(setup, old(View()), ing)
    {
      if !Accepted(setup, ing.ns) { return; }
      if !ing.agic { return; }
      TrackTls(ing);
      work := work + [Work(Create, IngressObject(ing))];
    }

    method IngressUpdate(was: Ingress, ing: Ingress)
      modifies this`work, refs, store
      ensures View() == Secrets.IngressUpdate(setup, old(View()), was, ing)
    {
      if !Accepted(setup, ing.ns) { return; }
      if was == ing { return; }
      if !ing.agic && !was.agic { return; }
      if |ing.tls| > 0 {
        refs.Clear(Key(ing.ns, ing.name));
        TrackTls(ing);
      }
      work := work + [Work(Update, IngressObject(ing))];
    }

    /** False is a nil dereference. */
    method IngressDelete(notice: Notice<Ingress>) returns (alive: bool)
      modifies this`work, refs
      ensures alive == Secrets.IngressDelete(setup, old(View()), notice).Some?
      ensures alive ==> View() == Secrets.IngressDelete(setup, old(View()), notice).value
    {
      var ing, ok := Asserted(notice), notice.Live?;
      if ing.None? { return false; }
      if !Accepted(setup, ing.value.ns) { return true; }
      ing := if ok then ing else Unwrapped(notice);
      if ing.None? || !ing.value.agic { return true; }
      var erased := refs.Erase(Key(ing.value.ns, ing.value.name));
      work := work + [Work(Delete, IngressObject(ing.value))];
      return true;
    }

    method SecretAdd(sec: Secret)
      modifies this`work, store
      ensures View() == Secrets.SecretAdd(setup, old(View()), sec)
    {
      if !Accepted(setup, sec.ns) { return; }
      var secKey := Key(sec.ns, sec.name);
      var referenced := refs.ContainsValue(secKey);
      if referenced {
        var ok := store.ConvertSecret(setup, secKey, sec);
        if ok {
          work := work + [Work(Create, SecretObject(sec))];
        }
      }
    }

    method SecretUpdate(was: Secret, sec: Secret)
      modifies this`work, store
      ensures View() == Secrets.SecretUpdate(setup, old(View()), was, sec)
    {
      if !Accepted(setup, sec.ns) { return; }
      if was == sec { return; }
      var secKey := Key(sec.ns, sec.name);
      var referenced := refs.ContainsValue(secKey);
      if referenced {
        var ok := store.ConvertSecret(setup, secKey, sec);
        if ok {
          work := work + [Work(Update, SecretObject(sec))];
        }
      }
    }

    /** False is a nil dereference. */
    method SecretDelete(notice: Notice<Secret>) returns (alive: bool)
      modifies this`work, store
      ensures alive == Secrets.SecretDelete(setup, old(View()), notice).Some?
      ensures alive ==> View() == Secrets.SecretDelete(setup, old(View()), notice).value
    {
      var sec, ok := Asserted(notice), notice.Live?;
      if sec.None? { return false; }
      if !Accepted(setup, sec.value.ns) { return true; }
      sec := if ok then sec else Unwrapped(notice);
      if sec.None? { return true; }
      var secKey := Key(sec.value.ns, sec.value.name);
      store.Delete(secKey);
      var referenced := refs.ContainsValue(secKey);
      if referenced {
        work := work + [Work(Delete, SecretObject(sec.value))];
      }
      return true;
    }

    /** The informer's part: update the cache, call the handler. False is a crash. */
    method Deliver(e: Event) returns (ok: bool)
      modifies this, refs, store
      ensures ok == Step(setup, old(View()), e).Some?
      ensures ok ==> View() == Step(setup, old(View()), e).value
    {
      match e
      case IngressSet(ing) =>
        var k := Key(ing.ns, ing.name);
        if k in ingresses {
          var was := ingresses[k];
          ingresses := ingresses[k := ing];
          IngressUpdate(was, ing);
        } else {
          ingresses := ingresses[k := ing];
          IngressAdd(ing);
        }
        return true;
      case IngressGone(notice) =>
        ingresses := ingresses - DroppedIngress(notice);
        ok := IngressDelete(notice);
      case SecretSet(sec) =>
        var k := Key(sec.ns, sec.name);
        if k in secrets {
          var was := secrets[k];
          secrets := secrets[k := sec];
          SecretUpdate(was, sec);
        } else {
          secrets := secrets[k := sec];
          SecretAdd(sec);
        }
        return true;
      case SecretGone(notice) =>
        secrets := secrets - DroppedSecret(notice);
        ok := SecretDelete(notice);
    }

    /** A whole run from a new context; the store ends up current for every tracked secret. */
    static method Serve(setup: Setup, events: seq<Event>) returns (c: K8sContext, ok: bool)
      requires GoodEvents(events)
      ensures c.setup == setup && ok == Run(setup, events).Some?
      ensures ok ==> c.View() == Run(setup, events).value && Current(setup, c.View())
    {
      c := new K8sContext(setup);
      ok := true;
      for n := 0 to |events|
        invariant fresh(c) && fresh(c.refs) && fresh(c.store) && c.setup == setup
        invariant Run(setup, events[..n]) == Some(c.View())
      {
        assert events[..n + 1][..n] == events[..n];
        ok := c.Deliver(events[n]);
        if !ok {
          CrashStays(setup, events, n + 1);
          return;
        }
      }
      assert events[..|events|] == events;
      RunKeeps(setup, events);
    }
  }

  lemma {:induction false} CrashStays(setup: Setup, events: seq<Event>, n: nat)
    requires n <= |events| && Run(setup, events[..n]).None?
    ensures Run(setup, events).None?
    decreases |events|
  {
    if n == |events| {
      assert events[..n] == events;
    } else {
      var before := events[..|events| - 1];
      assert before[..n] == events[..n];
      CrashStays(setup, before, n);
    }
  }
}
