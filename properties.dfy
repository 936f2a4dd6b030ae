/** What the wrapper promises across several operations: stable identity of
    nested wrappers, invalidation on overwrite and removal, and the order of
    eviction and a user trap. */
module ShadowCopyProperties {
  import opened JsValues
  import opened Handlers
  import opened ShadowCopySpec

  /** The module starts in a state the invariant holds of. */
  lemma InitialValid(heap: seq<Props>)
    requires HeapClosed(heap)
    ensures Valid(Initial(heap))
  {
  }

  /** Nesting the same value twice in a row gives the same answer, and the
      second call changes nothing. */
  lemma NestIdempotent(s: State, original: Value)
    requires Valid(s) && ValueIn(s.heap, original)
    ensures
      var n := NestStep(s, original);
      NestStep(n.0, original) == n
  {
    var n := NestStep(s, original);
    if s.currentCache.Some? {
      var cw := s.currentCache.value;
      assert n.0.wrappers[cw].target == s.wrappers[cw].target;
      assert Resolve(n.0, original) == Resolve(s, original);
    }
  }

  /** From `s` to `t` the heap is the same, the wrapper table has only grown,
      and every cache entry of `s` is still there with the same wrapper. */
  ghost predicate CachesKept(s: State, t: State)
  {
    && t.heap == s.heap
    && |s.wrappers| <= |t.wrappers|
    && forall w | 0 <= w < |s.wrappers| ::
         && t.wrappers[w].target == s.wrappers[w].target
         && s.wrappers[w].cache.Keys <= t.wrappers[w].cache.Keys
         && forall o | o in s.wrappers[w].cache :: t.wrappers[w].cache[o] == s.wrappers[w].cache[o]
  }

  /** One default read keeps every cache entry. */
  lemma GetKeepsCaches(s: State, w: WrapperId, key: Key)
    requires Valid(s) && w < |s.wrappers|
    ensures CachesKept(s, GetStep(s, w, key).0)
  {
    var t := GetStep(s, w, key).0;
    forall u | 0 <= u < |s.wrappers|
      ensures t.wrappers[u].target == s.wrappers[u].target
      ensures s.wrappers[u].cache.Keys <= t.wrappers[u].cache.Keys
      ensures forall o | o in s.wrappers[u].cache :: t.wrappers[u].cache[o] == s.wrappers[u].cache[o]
    {
      if u != w {
        assert t.wrappers[u] == s.wrappers[u];
      }
    }
  }

  lemma CachesKeptTrans(s: State, t: State, u: State)
    requires CachesKept(s, t) && CachesKept(t, u)
    ensures CachesKept(s, u)
  {
    forall w | 0 <= w < |s.wrappers|
      ensures u.wrappers[w].target == s.wrappers[w].target
      ensures s.wrappers[w].cache.Keys <= u.wrappers[w].cache.Keys
      ensures forall o | o in s.wrappers[w].cache :: u.wrappers[w].cache[o] == s.wrappers[w].cache[o]
    {
      assert w < |t.wrappers|;
    }
  }

  /** A run of default reads, each of a wrapper and a key, one after the
      other; a read may go through a wrapper an earlier read of the run
      created. A pair naming no wrapper (yet) stands for no read and is
      skipped. Reads never write the heap and never drop a cache entry. */
  function Reads(s: State, accesses: seq<(WrapperId, Key)>): (t: State)
    requires Valid(s)
    ensures Valid(t) && CachesKept(s, t)
    decreases |accesses|
  {
    if accesses == [] then s
    else if accesses[0].0 < |s.wrappers| then
      var g := GetStep(s, accesses[0].0, accesses[0].1);
      GetKeepsCaches(s, accesses[0].0, accesses[0].1);
      var t := Reads(g.0, accesses[1..]);
      CachesKeptTrans(s, g.0, t);
      t
    else Reads(s, accesses[1..])
  }

  /** Identity is stable across interleaved reads: reading `w[key]`, then
      any run of default reads on any wrappers, then `w[key]` again returns
      the first answer. */
  lemma {:induction false} StableIdentity(s: State, w: WrapperId, key: Key, accesses: seq<(WrapperId, Key)>)
    requires Valid(s) && w < |s.wrappers|
    ensures
      var g := GetStep(s, w, key);
      var t := Reads(g.0, accesses);
      GetStep(t, w, key).1 == g.1
  {
    var g := GetStep(s, w, key);
    var t := Reads(g.0, accesses);
    var v := Read(s.heap, s.wrappers[w].target, key);
    assert Read(t.heap, t.wrappers[w].target, key) == v;
  }

  /** Two default reads of the same unchanged property return the identical
      wrapper (or the identical primitive), and the second read leaves the
      state exactly as the first left it. */
  lemma {:induction false} GetIdempotent(s: State, w: WrapperId, key: Key)
    requires Valid(s) && w < |s.wrappers|
    ensures
      var g := GetStep(s, w, key);
      GetStep(g.0, w, key) == g
  {
    var g := GetStep(s, w, key);
    var e := EnterGet(s, w, key);
    var n := NestStep(e, UNDEFINED);
    assert g == (n.0, n.1.value);
    assert EnterGet(g.0, w, key) == g.0;
    NestIdempotent(e, UNDEFINED);
  }

  /** After a default `set` of `v` at `key`, a default read of `key` answers
      for `v` (the value itself, or a wrapper over that very object), and it is
      never the wrapper cached for the value that was overwritten, even when
      `v` is that same object. */
  lemma SetThenGet(s: State, w: WrapperId, key: Key, v: Value)
    requires Valid(s) && w < |s.wrappers| && ValueIn(s.heap, v)
    ensures
      var wr := s.wrappers[w];
      var stale := Read(s.heap, wr.target, key);
      var g := GetStep(SetStep(s, w, key, v), w, key);
      && Shadows(g.0, g.1, v, wr.handler)
      && (stale.Obj? && stale.id in wr.cache ==> g.1 != Proxy(wr.cache[stale.id]))
  {
    var wr := s.wrappers[w];
    var stale := Read(s.heap, wr.target, key);
    var s1 := SetStep(s, w, key, v);
    var g := GetStep(s1, w, key);
    if stale.Obj? && stale.id in wr.cache {
      var x := wr.cache[stale.id];
      assert CacheEntryOk(s, wr, stale.id);
      assert x < |s1.wrappers| && s1.wrappers[x].target == stale.id;
      assert g.0.wrappers[x].target == stale.id;
    }
  }

  /** The same for `defineProperty`. */
  lemma DefineThenGet(s: State, w: WrapperId, key: Key, v: Value)
    requires Valid(s) && w < |s.wrappers| && ValueIn(s.heap, v)
    ensures
      var wr := s.wrappers[w];
      var stale := Read(s.heap, wr.target, key);
      var g := GetStep(DefinePropertyStep(s, w, key, v), w, key);
      && Shadows(g.0, g.1, v, wr.handler)
      && (stale.Obj? && stale.id in wr.cache ==> g.1 != Proxy(wr.cache[stale.id]))
  {
    var wr := s.wrappers[w];
    var stale := Read(s.heap, wr.target, key);
    var s1 := DefinePropertyStep(s, w, key, v);
    var g := GetStep(s1, w, key);
    if stale.Obj? && stale.id in wr.cache {
      var x := wr.cache[stale.id];
      assert CacheEntryOk(s, wr, stale.id);
      assert x < |s1.wrappers| && s1.wrappers[x].target == stale.id;
      assert g.0.wrappers[x].target == stale.id;
    }
  }

  /** After a default `deleteProperty`, a default read of the key yields
      undefined and no wrapper. */
  lemma DeleteThenGet(s: State, w: WrapperId, key: Key)
    requires Valid(s) && w < |s.wrappers|
    ensures GetStep(DeletePropertyStep(s, w, key), w, key).1 == Raw(UNDEFINED)
  {
    var s1 := DeletePropertyStep(s, w, key);
    assert Read(s1.heap, s.wrappers[w].target, key) == UNDEFINED;
  }

  /** A read of a property holding an object returns a wrapper that is not
      the raw object, whose path is one key longer than its parent's when the
      read created it. */
  lemma GetWrapsObjects(s: State, w: WrapperId, key: Key)
    requires Valid(s) && w < |s.wrappers|
    requires Read(s.heap, s.wrappers[w].target, key).Obj?
    ensures
      var g := GetStep(s, w, key);
      var o := Read(s.heap, s.wrappers[w].target, key).id;
      && g.1 != Raw(Obj(o)) && g.1.Proxy?
      && g.0.wrappers[g.1.w].target == o
      && (g.1.w >= |s.wrappers| ==> g.0.wrappers[g.1.w].path == s.wrappers[w].path + [key])
  {
  }

  /** A user trap for a kind that may erase a value runs after the eviction:
      when it throws, the exception propagates unchanged, the composed trap
      itself does not write the target, and the evicted entry stays evicted.
      The callback is taken to have no effect of its own here. */
  lemma FailingTrapKeepsEviction(s: State, w: WrapperId, kind: TrapKind, key: Key, v: Value, e: Error)
    requires Valid(s) && w < |s.wrappers| && ValueIn(s.heap, v)
    requires kind in s.wrappers[w].handler.traps && kind in MAY_ERASE_VALUE_IN_OBJECT
    ensures
      var wr := s.wrappers[w];
      var stale := Read(s.heap, wr.target, key);
      var r := DispatchStep(s, w, kind, key, v, Abrupt(e));
      && r.1 == Abrupt(e)
      && r.0.heap == s.heap
      && r.0.path == wr.path + [key]
      && (stale.Obj? ==> stale.id !in r.0.wrappers[w].cache)
  {
  }

  /** Without a trap for `get`, dispatching a read runs the default; with
      one, the default does not run, the composed trap itself changes no
      cache, and the trap's value is returned even when it is a raw object
      (no implicit wrapping). */
  lemma GetDispatch(s: State, w: WrapperId, key: Key, outcome: Completion)
    requires Valid(s) && w < |s.wrappers|
    ensures
      var r := DispatchStep(s, w, Get, key, UNDEFINED, outcome);
      && (Get !in s.wrappers[w].handler.traps ==>
            r == (GetStep(s, w, key).0, Normal(GetStep(s, w, key).1)))
      && (Get in s.wrappers[w].handler.traps ==>
            r.1 == outcome && r.0.wrappers == s.wrappers && r.0.path == s.wrappers[w].path + [key])
  {
  }
}
