/** The wrapper-dispatch state machine as pure transitions on a snapshot of
    everything it touches: the host heap, the wrapper table (each wrapper with
    its own cache), the four module-level "current" variables and the static
    `ShadowCopy.path`. The class in ShadowCopyRuntime is proved against these. */
module ShadowCopySpec {
  import opened JsValues
  import opened Handlers

  /** One `Proxy` built by the constructor: its target, the user handler and
      path it was given, its finished handler, and its own identity cache
      from raw nested objects to the wrappers made for them. */
  datatype Wrapper = Wrapper(
    target: ObjId,
    handler: Handler,
    path: seq<Key>,
    final: map<TrapKind, Slot>,
    cache: map<ObjId, WrapperId>)

  /** `currentCache` names the wrapper whose cache it is (each wrapper owns one). */
  datatype State = State(
    heap: seq<Props>,
    wrappers: seq<Wrapper>,
    currentHandler: Option<Handler>,
    currentCache: Option<WrapperId>,
    currentTarget: Option<ObjId>,
    currentP: Option<Key>,
    path: seq<Key>)

  /** Module load: the currents are null and the static path is empty. */
  function Initial(heap: seq<Props>): State
  {
    State(heap, [], None, None, None, None, [])
  }

  /** A cache entry maps an object to a wrapper over that same object, built
      from the owner's handler. */
  ghost predicate CacheEntryOk(s: State, owner: Wrapper, o: ObjId)
    requires o in owner.cache
  {
    && o < |s.heap|
    && owner.cache[o] < |s.wrappers|
    && s.wrappers[owner.cache[o]].target == o
    && s.wrappers[owner.cache[o]].handler == owner.handler
  }

  ghost predicate WrapperOk(s: State, wr: Wrapper)
  {
    && wr.target < |s.heap|
    && wr.final == FinalHandler(wr.handler.traps)
    && forall o | o in wr.cache :: CacheEntryOk(s, wr, o)
  }

  /** The currents are all null, or all come from one wrapper's dispatch. */
  ghost predicate ContextOk(s: State)
  {
    match s.currentCache
    case None => s.currentHandler.None? && s.currentTarget.None? && s.currentP.None?
    case Some(cw) =>
      && cw < |s.wrappers|
      && s.currentHandler == Some(s.wrappers[cw].handler)
      && s.currentTarget == Some(s.wrappers[cw].target)
      && s.currentP.Some?
  }

  /** The invariant every transition keeps. */
  ghost predicate Valid(s: State)
  {
    && HeapClosed(s.heap)
    && (forall w | 0 <= w < |s.wrappers| :: WrapperOk(s, s.wrappers[w]))
    && ContextOk(s)
  }

  /** `r` is what the caller sees for the raw value `v`: the primitive itself,
      or a wrapper over exactly that object built from `handler`. */
  ghost predicate Shadows(s: State, r: JsValue, v: Value, handler: Handler)
  {
    match v
    case Prim(_) => r == Raw(v)
    case Obj(o) =>
      r.Proxy? && r.w < |s.wrappers| && s.wrappers[r.w].target == o
      && s.wrappers[r.w].handler == handler
  }

  /** From `s` to `t` the wrapper table may only grow and only the cache of
      wrapper `w` may change. */
  ghost predicate OthersUnchanged(s: State, t: State, w: WrapperId)
  {
    && |s.wrappers| <= |t.wrappers|
    && (w < |s.wrappers| ==> t.wrappers[w] == s.wrappers[w].(cache := t.wrappers[w].cache))
    && forall i | 0 <= i < |s.wrappers| && i != w :: t.wrappers[i] == s.wrappers[i]
  }

  /** `cache.delete(stale)`: a primitive key is not in a WeakMap, so deleting it does nothing. */
  function Evict(cache: map<ObjId, WrapperId>, stale: Value): (r: map<ObjId, WrapperId>)
    ensures stale.Obj? ==> stale.id !in r
    ensures forall o | o in cache && !(stale.Obj? && o == stale.id) :: o in r && r[o] == cache[o]
    ensures r.Keys <= cache.Keys
  {
    if stale.Obj? then cache - {stale.id} else cache
  }

  /** `new ShadowCopy(target, handler, path)`: a fresh wrapper with an empty cache. */
  function Construct(s: State, target: ObjId, handler: Handler, path: seq<Key> := []): (r: (State, WrapperId))
    requires Valid(s) && target < |s.heap|
    ensures Valid(r.0)
    ensures r.1 == |s.wrappers| && |r.0.wrappers| == |s.wrappers| + 1
    ensures r.0.wrappers[..|s.wrappers|] == s.wrappers
    ensures r.0.wrappers[r.1].target == target && r.0.wrappers[r.1].handler == handler
    ensures r.0.wrappers[r.1].path == path && r.0.wrappers[r.1].cache == map[]
    ensures r.0 == s.(wrappers := r.0.wrappers)
  {
    var wr := Wrapper(target, handler, path, FinalHandler(handler.traps), map[]);
    var t := s.(wrappers := s.wrappers + [wr]);
    assert forall i | 0 <= i < |s.wrappers| :: t.wrappers[i] == s.wrappers[i];
    assert forall i | 0 <= i < |s.wrappers| :: WrapperOk(t, t.wrappers[i]) by {
      forall i | 0 <= i < |s.wrappers| ensures WrapperOk(t, t.wrappers[i]) {
        assert WrapperOk(s, s.wrappers[i]);
      }
    }
    (t, |s.wrappers|)
  }

  /** `setCurrents(handler, cache, target, key)` as called by wrapper `w`'s handler. */
  function SetCurrents(s: State, w: WrapperId, key: Key): (r: State)
    requires Valid(s) && w < |s.wrappers|
    ensures Valid(r)
    ensures r.currentCache == Some(w) && r.currentP == Some(key)
    ensures r.currentHandler == Some(s.wrappers[w].handler)
    ensures r.currentTarget == Some(s.wrappers[w].target)
    ensures r.heap == s.heap && r.wrappers == s.wrappers && r.path == s.path
  {
    var wr := s.wrappers[w];
    s.(currentHandler := Some(wr.handler), currentCache := Some(w),
       currentTarget := Some(wr.target), currentP := Some(key))
  }

  /** The value `nest` works on: the argument, or, when it is undefined, the
      default parameter `currentTarget[currentP]`. */
  function Resolve(s: State, original: Value): (v: Value)
    requires Valid(s) && s.currentCache.Some? && ValueIn(s.heap, original)
    ensures ValueIn(s.heap, v)
    ensures original != UNDEFINED ==> v == original
    ensures original == UNDEFINED ==> v == Read(s.heap, s.currentTarget.value, s.currentP.value)
  {
    if original == UNDEFINED then Read(s.heap, s.currentTarget.value, s.currentP.value)
    else original
  }

  /** Replace wrapper `w`'s cache. */
  function WithCache(s: State, w: WrapperId, cache: map<ObjId, WrapperId>): State
    requires w < |s.wrappers|
  {
    s.(wrappers := s.wrappers[w := s.wrappers[w].(cache := cache)])
  }

  /** `ShadowCopy.nest(original)`. With no dispatch yet, the currents are null
      and the host raises a TypeError. A cached object yields its cached
      wrapper and nothing changes; an uncached object gets a new wrapper, with
      the current handler and a copy of the current path, stored in the current
      cache; a primitive comes back unchanged. */
  function NestStep(s: State, original: Value): (r: (State, Completion))
    requires Valid(s) && ValueIn(s.heap, original)
    ensures Valid(r.0)
    ensures r.1.Abrupt? <==> s.currentCache.None?
    ensures s.currentCache.None? ==> r.0 == s
    ensures !r.1.Forwarded?
    ensures r.0.heap == s.heap && r.0.path == s.path
    ensures r.0.currentHandler == s.currentHandler && r.0.currentCache == s.currentCache
    ensures r.0.currentTarget == s.currentTarget && r.0.currentP == s.currentP
    ensures s.currentCache.Some? ==>
      var cw := s.currentCache.value;
      var v := Resolve(s, original);
      && OthersUnchanged(s, r.0, cw)
      && Shadows(r.0, r.1.value, v, s.wrappers[cw].handler)
      && (v.Obj? ==> v.id in r.0.wrappers[cw].cache && r.1.value == Proxy(r.0.wrappers[cw].cache[v.id]))
      && (v.Prim? || v.id in s.wrappers[cw].cache ==> r.0 == s)
      && (v.Obj? && v.id !in s.wrappers[cw].cache ==>
            && r.1.value == Proxy(|s.wrappers|)
            && |r.0.wrappers| == |s.wrappers| + 1
            && r.0.wrappers[|s.wrappers|].path == s.path
            && r.0.wrappers[|s.wrappers|].cache == map[]
            && r.0.wrappers[cw].cache == s.wrappers[cw].cache[v.id := |s.wrappers|])
  {
    if s.currentCache.None? then (s, Abrupt(TypeError))
    else
      var cw := s.currentCache.value;
      var v := Resolve(s, original);
      var cache := s.wrappers[cw].cache;
      if v.Obj? && v.id in cache then
        assert CacheEntryOk(s, s.wrappers[cw], v.id);
        (s, Normal(Proxy(cache[v.id])))
      else if v.Obj? then
        var c := Construct(s, v.id, s.currentHandler.value, s.path);
        var t := WithCache(c.0, cw, cache[v.id := c.1]);
        assert Valid(t) by {
          NestCacheValid(s, c.0, cw, v.id, c.1);
        }
        (t, Normal(Proxy(c.1)))
      else (s, Normal(Raw(v)))
  }

  /** Storing a new wrapper over `o` in `cw`'s cache keeps the invariant. */
  lemma NestCacheValid(s: State, c: State, cw: WrapperId, o: ObjId, nw: WrapperId)
    requires Valid(s) && Valid(c) && cw < |s.wrappers| && o < |s.heap|
    requires nw == |s.wrappers| && |c.wrappers| == |s.wrappers| + 1
    requires c.wrappers[..|s.wrappers|] == s.wrappers && c == s.(wrappers := c.wrappers)
    requires c.wrappers[nw].target == o && s.currentCache == Some(cw)
    requires s.currentHandler == Some(c.wrappers[nw].handler)
    ensures Valid(WithCache(c, cw, c.wrappers[cw].cache[o := nw]))
  {
    var t := WithCache(c, cw, c.wrappers[cw].cache[o := nw]);
    assert c.wrappers[cw] == s.wrappers[cw];
    forall i | 0 <= i < |t.wrappers| ensures WrapperOk(t, t.wrappers[i]) {
      assert WrapperOk(c, c.wrappers[i]);
      if i == cw {
        forall o' | o' in t.wrappers[i].cache ensures CacheEntryOk(t, t.wrappers[i], o') {
          if o' != o {
            assert CacheEntryOk(c, c.wrappers[i], o');
          }
        }
      } else {
        forall o' | o' in t.wrappers[i].cache ensures CacheEntryOk(t, t.wrappers[i], o') {
          assert CacheEntryOk(c, c.wrappers[i], o');
        }
      }
    }
  }

  /** Evicting an entry from wrapper `w`'s cache keeps the invariant. */
  lemma EvictValid(s: State, w: WrapperId, stale: Value)
    requires Valid(s) && w < |s.wrappers|
    ensures Valid(WithCache(s, w, Evict(s.wrappers[w].cache, stale)))
  {
    var t := WithCache(s, w, Evict(s.wrappers[w].cache, stale));
    forall i | 0 <= i < |t.wrappers| ensures WrapperOk(t, t.wrappers[i]) {
      assert WrapperOk(s, s.wrappers[i]);
      forall o' | o' in t.wrappers[i].cache ensures CacheEntryOk(t, t.wrappers[i], o') {
        assert CacheEntryOk(s, s.wrappers[i], o');
      }
    }
  }

  /** The state the default `get` handler has set up when it calls `nest()`. */
  function EnterGet(s: State, w: WrapperId, key: Key): (r: State)
    requires Valid(s) && w < |s.wrappers|
    ensures Valid(r) && r.currentCache == Some(w)
  {
    SetCurrents(s, w, key).(path := s.wrappers[w].path + [key])
  }

  /** The default `get` handler of wrapper `w`: it records the dispatch in
      the currents, sets the static path to the wrapper's path plus `key`, and
      returns `nest()` of the raw value at `target[key]`. */
  function GetStep(s: State, w: WrapperId, key: Key): (r: (State, JsValue))
    requires Valid(s) && w < |s.wrappers|
    ensures Valid(r.0)
    ensures
      var wr := s.wrappers[w];
      var v := Read(s.heap, wr.target, key);
      && r.0.heap == s.heap
      && r.0.currentHandler == Some(wr.handler) && r.0.currentCache == Some(w)
      && r.0.currentTarget == Some(wr.target) && r.0.currentP == Some(key)
      && r.0.path == wr.path + [key]
      && OthersUnchanged(s, r.0, w)
      && Shadows(r.0, r.1, v, wr.handler)
      && (v.Obj? ==> v.id in r.0.wrappers[w].cache && r.1 == Proxy(r.0.wrappers[w].cache[v.id]))
      && (v.Prim? || v.id in wr.cache ==> r.0.wrappers == s.wrappers)
      && (v.Obj? && v.id !in wr.cache ==>
            && r.1 == Proxy(|s.wrappers|)
            && |r.0.wrappers| == |s.wrappers| + 1
            && r.0.wrappers[w].cache == wr.cache[v.id := |s.wrappers|]
            && r.0.wrappers[|s.wrappers|].path == wr.path + [key]
            && r.0.wrappers[|s.wrappers|].cache == map[])
  {
    var e := EnterGet(s, w, key);
    var n := NestStep(e, UNDEFINED);
    (n.0, n.1.value)
  }

  /** Drop from wrapper `w`'s cache the entry of the value now at `target[key]`. */
  function EvictAt(s: State, w: WrapperId, key: Key): (r: State)
    requires Valid(s) && w < |s.wrappers|
    ensures Valid(r)
    ensures r == WithCache(s, w, Evict(s.wrappers[w].cache, Read(s.heap, s.wrappers[w].target, key)))
  {
    EvictValid(s, w, Read(s.heap, s.wrappers[w].target, key));
    WithCache(s, w, Evict(s.wrappers[w].cache, Read(s.heap, s.wrappers[w].target, key)))
  }

  /** The default `set` handler of wrapper `w` (it then reports `true`): the
      currents record the dispatch, the entry of the value about to be
      overwritten leaves the cache, and `target[key]` becomes `v`. The path is
      left alone. */
  function SetStep(s: State, w: WrapperId, key: Key, v: Value): (r: State)
    requires Valid(s) && w < |s.wrappers| && ValueIn(s.heap, v)
    ensures Valid(r)
    ensures
      var wr := s.wrappers[w];
      var stale := Read(s.heap, wr.target, key);
      && |r.heap| == |s.heap| && Read(r.heap, wr.target, key) == v && key in r.heap[wr.target]
      && (forall o, k | 0 <= o < |s.heap| && (o != wr.target || k != key) ::
            Read(r.heap, o, k) == Read(s.heap, o, k) && (k in r.heap[o] <==> k in s.heap[o]))
      && |r.wrappers| == |s.wrappers| && OthersUnchanged(s, r, w)
      && r.wrappers[w] == wr.(cache := Evict(wr.cache, stale))
      && r.currentHandler == Some(wr.handler) && r.currentCache == Some(w)
      && r.currentTarget == Some(wr.target) && r.currentP == Some(key)
      && r.path == s.path
  {
    var t := EvictAt(SetCurrents(s, w, key), w, key);
    t.(heap := Write(t.heap, s.wrappers[w].target, key, v))
  }

  /** The default `defineProperty` handler, with the descriptor reduced to the
      value it defines: eviction, then the write; no currents, no path. */
  function DefinePropertyStep(s: State, w: WrapperId, key: Key, v: Value): (r: State)
    requires Valid(s) && w < |s.wrappers| && ValueIn(s.heap, v)
    ensures Valid(r)
    ensures
      var wr := s.wrappers[w];
      var stale := Read(s.heap, wr.target, key);
      && |r.heap| == |s.heap| && Read(r.heap, wr.target, key) == v && key in r.heap[wr.target]
      && (forall o, k | 0 <= o < |s.heap| && (o != wr.target || k != key) ::
            Read(r.heap, o, k) == Read(s.heap, o, k) && (k in r.heap[o] <==> k in s.heap[o]))
      && |r.wrappers| == |s.wrappers| && OthersUnchanged(s, r, w)
      && r.wrappers[w] == wr.(cache := Evict(wr.cache, stale))
      && r.currentHandler == s.currentHandler && r.currentCache == s.currentCache
      && r.currentTarget == s.currentTarget && r.currentP == s.currentP
      && r.path == s.path
  {
    var t := EvictAt(s, w, key);
    t.(heap := Write(t.heap, s.wrappers[w].target, key, v))
  }

  /** The default `deleteProperty` handler (it then reports `true`): eviction,
      then the key leaves the target; no currents, no path. */
  function DeletePropertyStep(s: State, w: WrapperId, key: Key): (r: State)
    requires Valid(s) && w < |s.wrappers|
    ensures Valid(r)
    ensures
      var wr := s.wrappers[w];
      var stale := Read(s.heap, wr.target, key);
      && |r.heap| == |s.heap| && key !in r.heap[wr.target]
      && (forall o, k | 0 <= o < |s.heap| && (o != wr.target || k != key) ::
            Read(r.heap, o, k) == Read(s.heap, o, k) && (k in r.heap[o] <==> k in s.heap[o]))
      && |r.wrappers| == |s.wrappers| && OthersUnchanged(s, r, w)
      && r.wrappers[w] == wr.(cache := Evict(wr.cache, stale))
      && r.currentHandler == s.currentHandler && r.currentCache == s.currentCache
      && r.currentTarget == s.currentTarget && r.currentP == s.currentP
      && r.path == s.path
  {
    var t := EvictAt(s, w, key);
    t.(heap := Remove(t.heap, s.wrappers[w].target, key))
  }

  /** What the composed user trap of kind `kind` does before it calls the
      user's callback: it records the dispatch, sets the static path to the
      wrapper's path plus `arg` for key-bearing kinds (a copy of the wrapper's
      path otherwise) and, for kinds that may erase a value, evicts the entry
      of the value at `target[arg]`. `arg` is the callback's second argument. */
  function TrapEnter(s: State, w: WrapperId, kind: TrapKind, arg: Key): (r: State)
    requires Valid(s) && w < |s.wrappers|
    ensures Valid(r)
    ensures
      var wr := s.wrappers[w];
      && r.heap == s.heap
      && r.currentHandler == Some(wr.handler) && r.currentCache == Some(w)
      && r.currentTarget == Some(wr.target) && r.currentP == Some(arg)
      && r.path == (if kind in HAS_PROPERTY_KEY_PARAM then wr.path + [arg] else wr.path)
      && |r.wrappers| == |s.wrappers| && OthersUnchanged(s, r, w)
      && r.wrappers[w] == (if kind in MAY_ERASE_VALUE_IN_OBJECT
                           then wr.(cache := Evict(wr.cache, Read(s.heap, wr.target, arg)))
                           else wr)
  {
    var e := SetCurrents(s, w, arg);
    var t := e.(path := if kind in HAS_PROPERTY_KEY_PARAM then s.wrappers[w].path + [arg]
                        else s.wrappers[w].path);
    if kind in MAY_ERASE_VALUE_IN_OBJECT then EvictAt(t, w, arg) else t
  }

  /** The built-in default of the finished handler for `kind`; a kind without
      one is left to the host (`Forwarded`). `set`, `defineProperty` and
      `deleteProperty` report `true`. */
  function DefaultStep(s: State, w: WrapperId, kind: TrapKind, key: Key, v: Value): (r: (State, Completion))
    requires Valid(s) && w < |s.wrappers| && ValueIn(s.heap, v)
    ensures Valid(r.0)
  {
    match kind
    case Get => var g := GetStep(s, w, key); (g.0, Normal(g.1))
    case Set => (SetStep(s, w, key, v), Normal(Raw(TRUE)))
    case DefineProperty => (DefinePropertyStep(s, w, key, v), Normal(Raw(TRUE)))
    case DeleteProperty => (DeletePropertyStep(s, w, key), Normal(Raw(TRUE)))
    case _ => (s, Forwarded)
  }

  /** The host calling slot `kind` of wrapper `w`'s finished handler. `key` is
      the operation's second argument, `v` the value written (used by `set`
      and `defineProperty` only) and `outcome` what the user's callback
      returns or throws, should it run. A user trap suppresses the default and
      its outcome comes back as it is, wrapped or not; without one the default
      runs, or the host does the operation itself. */
  function DispatchStep(s: State, w: WrapperId, kind: TrapKind, key: Key, v: Value, outcome: Completion)
    : (r: (State, Completion))
    requires Valid(s) && w < |s.wrappers| && ValueIn(s.heap, v)
    ensures Valid(r.0)
    ensures kind in s.wrappers[w].handler.traps ==> r == (TrapEnter(s, w, kind, key), outcome)
    ensures kind !in s.wrappers[w].handler.traps && kind in DEFAULT_HANDLED ==>
              r == DefaultStep(s, w, kind, key, v)
    ensures kind !in s.wrappers[w].handler.traps && kind !in DEFAULT_HANDLED ==> r == (s, Forwarded)
  {
    var final := s.wrappers[w].final;
    FinalHandlerSlot(s.wrappers[w].handler.traps, kind);
    if kind !in final then (s, Forwarded)
    else match final[kind]
      case UserSlot => (TrapEnter(s, w, kind, key), outcome)
      case DefaultSlot => DefaultStep(s, w, kind, key, v)
  }
}
