/** The module-level state of the library and the host heap it works on, as
    one object whose methods update it in place. Each method is proved to make
    exactly the transition ShadowCopySpec describes. */
module ShadowCopyRuntime {
  import opened JsValues
  import opened Handlers
  import Spec = ShadowCopySpec

  class Realm {
    /** The plain objects and functions of the host. */
    var heap: seq<Props>
    /** Every wrapper built so far, each with its own cache. */
    var wrappers: seq<Spec.Wrapper>
    /** The four module-level "current" variables; `currentCache` names the
        wrapper that owns the cache. */
    var currentHandler: Option<Handler>
    var currentCache: Option<WrapperId>
    var currentTarget: Option<ObjId>
    var currentP: Option<Key>
    /** The static `ShadowCopy.path`. */
    var path: seq<Key>

    ghost function Snapshot(): Spec.State
      reads this
    {
      Spec.State(heap, wrappers, currentHandler, currentCache, currentTarget, currentP, path)
    }

    ghost predicate Valid()
      reads this
    {
      Spec.Valid(Snapshot())
    }

    /** Module load over an existing heap. */
    constructor (objects: seq<Props>)
      requires HeapClosed(objects)
      ensures Valid() && Snapshot() == Spec.Initial(objects)
    {
      heap := objects;
      wrappers := [];
      currentHandler, currentCache, currentTarget, currentP := None, None, None, None;
      path := [];
    }

    /** The host evaluating an object literal or a function expression. */
    method Allocate(props: Props) returns (o: ObjId)
      requires Valid() && forall k | k in props :: ValueIn(heap, props[k])
      modifies this
      ensures Valid() && o == old(|heap|) && heap == old(heap) + [props]
      ensures Snapshot() == old(Snapshot()).(heap := heap)
    {
      o := |heap|;
      ghost var s := Snapshot();
      heap := heap + [props];
      forall i | 0 <= i < |wrappers| ensures Spec.WrapperOk(Snapshot(), wrappers[i]) {
        assert Spec.WrapperOk(s, wrappers[i]);
        forall c | c in wrappers[i].cache ensures Spec.CacheEntryOk(Snapshot(), wrappers[i], c) {
          assert Spec.CacheEntryOk(s, wrappers[i], c);
        }
      }
    }

    /** `setCurrents(handler, cache, target, p)` with the handler, cache and
        target that wrapper `w`'s handler closes over. */
    method SetCurrents(w: WrapperId, p: Key)
      requires Valid() && w < |wrappers|
      modifies this
      ensures Valid() && Snapshot() == Spec.SetCurrents(old(Snapshot()), w, p)
    {
      currentHandler := Some(wrappers[w].handler);
      currentCache := Some(w);
      currentTarget := Some(wrappers[w].target);
      currentP := Some(p);
    }

    /** `new ShadowCopy(target, handler, chain)`: a fresh, empty cache and the
        finished handler built by the loop over the user handler's entries. */
    method NewShadowCopy(target: ObjId, handler: Handler, chain: seq<Key> := []) returns (w: WrapperId)
      requires Valid() && target < |heap|
      modifies this
      ensures Valid() && (Snapshot(), w) == Spec.Construct(old(Snapshot()), target, handler, chain)
    {
      var finalHandler := BuildFinalHandler(handler.traps);
      w := |wrappers|;
      wrappers := wrappers + [Spec.Wrapper(target, handler, chain, finalHandler, map[])];
    }

    /** `cache.delete(target[key])` in wrapper `w`'s handler. */
    method EvictAt(w: WrapperId, key: Key)
      requires Valid() && w < |wrappers|
      modifies this
      ensures Valid() && Snapshot() == Spec.EvictAt(old(Snapshot()), w, key)
    {
      var wr := wrappers[w];
      wrappers := wrappers[w := wr.(cache := Spec.Evict(wr.cache, Read(heap, wr.target, key)))];
    }

    /** `ShadowCopy.nest(original)`; `UNDEFINED` stands for the omitted argument. */
    method Nest(original: Value) returns (r: Completion)
      requires Valid() && ValueIn(heap, original)
      modifies this
      ensures Valid() && (Snapshot(), r) == Spec.NestStep(old(Snapshot()), original)
    {
      if currentCache.None? {
        // the default parameter reads `currentTarget[currentP]` and the cache
        // lookup calls `currentCache.has`, both on null
        return Abrupt(TypeError);
      }
      ghost var s := Snapshot();
      var cw := currentCache.value;
      var v := if original == UNDEFINED then Read(heap, currentTarget.value, currentP.value) else original;
      assert v == Spec.Resolve(s, original);
      var cache := wrappers[cw].cache;
      if v.Obj? && v.id in cache {
        r := Normal(Proxy(cache[v.id]));
        assert (s, r) == Spec.NestStep(s, original);
        return;
      }
      if v.Obj? {
        var shadow := NewShadowCopy(v.id, currentHandler.value, path);
        ghost var c := Snapshot();
        wrappers := wrappers[cw := wrappers[cw].(cache := cache[v.id := shadow])];
        r := Normal(Proxy(shadow));
        assert (Snapshot(), r) == Spec.NestStep(s, original) by {
          assert (c, shadow) == Spec.Construct(s, v.id, s.currentHandler.value, s.path);
          assert Snapshot() == Spec.WithCache(c, cw, cache[v.id := shadow]);
        }
        return;
      }
      r := Normal(Raw(v));
      assert (s, r) == Spec.NestStep(s, original);
    }

    /** The default `get` handler of wrapper `w`. */
    method Get(w: WrapperId, key: Key) returns (r: JsValue)
      requires Valid() && w < |wrappers|
      modifies this
      ensures Valid() && (Snapshot(), r) == Spec.GetStep(old(Snapshot()), w, key)
    {
      SetCurrents(w, key);
      path := wrappers[w].path + [key];
      var n := Nest(UNDEFINED);
      r := n.value;
    }

    /** The default `set` handler of wrapper `w`. */
    method Set(w: WrapperId, key: Key, v: Value) returns (ok: bool)
      requires Valid() && w < |wrappers| && ValueIn(heap, v)
      modifies this
      ensures Valid() && Snapshot() == Spec.SetStep(old(Snapshot()), w, key, v) && ok
    {
      SetCurrents(w, key);
      EvictAt(w, key);
      var t := wrappers[w].target;
      heap := heap[t := heap[t][key := v]];
      ok := true;
    }

    /** The default `defineProperty` handler of wrapper `w`, for a data
        descriptor holding `v`. */
    method DefineProperty(w: WrapperId, key: Key, v: Value) returns (ok: bool)
      requires Valid() && w < |wrappers| && ValueIn(heap, v)
      modifies this
      ensures Valid() && Snapshot() == Spec.DefinePropertyStep(old(Snapshot()), w, key, v) && ok
    {
      EvictAt(w, key);
      var t := wrappers[w].target;
      heap := heap[t := heap[t][key := v]];
      ok := true;
    }

    /** The default `deleteProperty` handler of wrapper `w`. */
    method DeleteProperty(w: WrapperId, key: Key) returns (ok: bool)
      requires Valid() && w < |wrappers|
      modifies this
      ensures Valid() && Snapshot() == Spec.DeletePropertyStep(old(Snapshot()), w, key) && ok
    {
      EvictAt(w, key);
      var t := wrappers[w].target;
      heap := heap[t := heap[t] - {key}];
      ok := true;
    }

    /** What the composed user trap of kind `kind` does before it calls the
        user's callback. */
    method EnterTrap(w: WrapperId, kind: TrapKind, arg: Key)
      requires Valid() && w < |wrappers|
      modifies this
      ensures Valid() && Snapshot() == Spec.TrapEnter(old(Snapshot()), w, kind, arg)
    {
      SetCurrents(w, arg);
      if kind in HAS_PROPERTY_KEY_PARAM {
        path := wrappers[w].path + [arg];
      } else {
        path := wrappers[w].path;
      }
      if kind in MAY_ERASE_VALUE_IN_OBJECT {
        EvictAt(w, arg);
      }
    }

    /** The composed user trap: the set-up above, then the callback, whose
        outcome is returned as it is. */
    method InvokeTrap(w: WrapperId, kind: TrapKind, arg: Key, outcome: Completion) returns (r: Completion)
      requires Valid() && w < |wrappers|
      modifies this
      ensures Valid() && Snapshot() == Spec.TrapEnter(old(Snapshot()), w, kind, arg)
      ensures r == outcome
    {
      EnterTrap(w, kind, arg);
      r := outcome;
    }

    /** The host calling slot `kind` of wrapper `w`'s finished handler. */
    method Dispatch(w: WrapperId, kind: TrapKind, key: Key, v: Value, outcome: Completion) returns (r: Completion)
      requires Valid() && w < |wrappers| && ValueIn(heap, v)
      modifies this
      ensures Valid() && (Snapshot(), r) == Spec.DispatchStep(old(Snapshot()), w, kind, key, v, outcome)
    {
      var finalHandler := wrappers[w].final;
      if kind !in finalHandler {
        return Forwarded;
      }
      match finalHandler[kind]
      case UserSlot =>
        r := InvokeTrap(w, kind, key, outcome);
      case DefaultSlot =>
        match kind
        case Get =>
          var x := Get(w, key);
          r := Normal(x);
        case Set =>
          var _ := Set(w, key, v);
          r := Normal(Raw(TRUE));
        case DefineProperty =>
          var _ := DefineProperty(w, key, v);
          r := Normal(Raw(TRUE));
        case DeleteProperty =>
          var _ := DeleteProperty(w, key);
          r := Normal(Raw(TRUE));
        case _ =>
          r := Forwarded;
    }
  }
}
