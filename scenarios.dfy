/** Two uses of the wrapper, run on the class with the user callbacks written
    out as the code they execute between the composed trap's set-up and its
    return. */
module ShadowCopyScenarios {
  import opened JsValues
  import opened Handlers
  import Spec = ShadowCopySpec
  import opened ShadowCopyRuntime

  /** A `get` callback that records `ShadowCopy.path` and returns
      `ShadowCopy.nest(target[key])`, invoked by the composed trap. */
  method RecordingGet(realm: Realm, w: WrapperId, key: Key) returns (seen: seq<Key>, r: Completion)
    requires realm.Valid() && w < |realm.wrappers|
    modifies realm
    ensures realm.Valid() && realm.heap == old(realm.heap)
    ensures seen == old(realm.wrappers[w].path) + [key]
    ensures
      var v := Read(old(realm.heap), old(realm.wrappers[w].target), key);
      && |old(realm.wrappers)| <= |realm.wrappers|
      && realm.wrappers[w] == old(realm.wrappers[w]).(cache := realm.wrappers[w].cache)
      && (forall i | 0 <= i < |old(realm.wrappers)| && i != w :: realm.wrappers[i] == old(realm.wrappers[i]))
      && (v.Prim? ==> r == Normal(Raw(v)) && realm.wrappers == old(realm.wrappers))
      && (v.Obj? && v.id in old(realm.wrappers[w].cache) ==>
            r == Normal(Proxy(old(realm.wrappers[w].cache[v.id]))) && realm.wrappers == old(realm.wrappers))
      && (v.Obj? && v.id !in old(realm.wrappers[w].cache) ==>
            && r == Normal(Proxy(|old(realm.wrappers)|))
            && |realm.wrappers| == |old(realm.wrappers)| + 1
            && realm.wrappers[|old(realm.wrappers)|].path == seen
            && realm.wrappers[|old(realm.wrappers)|].target == v.id
            && realm.wrappers[|old(realm.wrappers)|].cache == map[]
            && realm.wrappers[w].cache == old(realm.wrappers[w].cache)[v.id := |old(realm.wrappers)|])
  {
    ghost var s := realm.Snapshot();
    realm.EnterTrap(w, Get, key);
    ghost var e := realm.Snapshot();
    seen := realm.path;
    r := realm.Nest(Read(realm.heap, realm.wrappers[w].target, key));
    assert Spec.Resolve(e, Read(e.heap, e.wrappers[w].target, key)) == Read(s.heap, s.wrappers[w].target, key);
  }

  /** The heap of the path test: `{'1': {'2': {'3': {'4': '5'}}}}`, one object per level. */
  function NestedNumbers(): (objects: seq<Props>)
    ensures HeapClosed(objects)
  {
    var objects: seq<Props> :=
      [map["1" := Obj(1)], map["2" := Obj(2)], map["3" := Obj(3)], map["4" := Prim(Str("5"))]];
    assert HeapClosed(objects) by {
      forall o, k | 0 <= o < |objects| && k in objects[o] ensures ValueIn(objects, objects[o][k]) {
      }
    }
    objects
  }

  /** Wrap the nested objects with the recording `get` trap and read
      `p['1']['2']['3']`. */
  method ReadThreeDeep() returns (realm: Realm, p: WrapperId, seen: seq<seq<Key>>, first: Completion)
    ensures fresh(realm) && realm.Valid() && realm.heap == NestedNumbers()
    ensures p < |realm.wrappers| && realm.wrappers[p].target == 0 && realm.wrappers[p].path == []
    ensures 1 < |realm.wrappers| && realm.wrappers[1].target == 1 && realm.wrappers[1].path == ["1"]
    ensures 1 in realm.wrappers[p].cache && realm.wrappers[p].cache[1] == 1
    ensures seen == [["1"], ["1", "2"], ["1", "2", "3"]] && first == Normal(Proxy(1))
  {
    realm := new Realm(NestedNumbers());
    p := realm.NewShadowCopy(0, Handler(0, [Get]));
    assert realm.wrappers[p].path == [] && realm.wrappers[p].target == 0;

    assert |realm.wrappers| == 1 && realm.wrappers[p].cache == map[];
    var s1, r1 := RecordingGet(realm, p, "1");
    assert s1 == ["1"];
    assert |realm.wrappers| == 2 && realm.wrappers[1].cache == map[];
    assert r1 == Normal(Proxy(1)) && realm.wrappers[1].path == ["1"] && realm.wrappers[1].target == 1;
    ghost var afterFirst := realm.wrappers[p];
    assert 1 in afterFirst.cache && afterFirst.cache[1] == 1;

    var s2, r2 := RecordingGet(realm, 1, "2");
    assert s2 == ["1", "2"];
    assert |realm.wrappers| == 3;
    assert r2 == Normal(Proxy(2)) && realm.wrappers[2].path == ["1", "2"] && realm.wrappers[2].target == 2;
    assert realm.wrappers[p] == afterFirst && realm.wrappers[1].path == ["1"];

    var s3, r3 := RecordingGet(realm, 2, "3");
    assert s3 == ["1", "2", "3"];
    assert realm.wrappers[p] == afterFirst && realm.wrappers[1].path == ["1"] && realm.wrappers[1].target == 1;
    assert realm.wrappers[p].path == [];
    seen := [s1, s2, s3];
    first := r1;
  }

  /** Reading `p['1']['2']['3']` and then `p['1']['a']` through a wrapper over
      `{'1': {'2': {'3': {'4': '5'}}}}` whose `get` trap records the path and
      nests: the recorded paths, and the second read of `p['1']` returns the
      wrapper of the first. */
  method RecordedPaths() returns (seen: seq<seq<Key>>, first: Completion, again: Completion)
    ensures seen == [["1"], ["1", "2"], ["1", "2", "3"], ["1"], ["1", "a"]]
    ensures first.Normal? && first.value.Proxy? && again == first
  {
    var realm, p, deep, r1 := ReadThreeDeep();
    assert Read(realm.heap, realm.wrappers[p].target, "1") == Obj(1);
    var s4, r4 := RecordingGet(realm, p, "1");
    assert s4 == ["1"] && r4 == r1;
    assert realm.wrappers[1].path == ["1"];
    var s5, r5 := RecordingGet(realm, 1, "a");
    assert s5 == ["1", "a"];
    seen := deep + [s4, s5];
    first, again := r1, r4;
  }

  /** A `get` callback that returns `ShadowCopy.nest(function () {})`: a new
      function object, wrapped afresh on every read. */
  method FreshFunctionGet(realm: Realm, w: WrapperId, key: Key) returns (child: WrapperId)
    requires realm.Valid() && w < |realm.wrappers|
    modifies realm
    ensures realm.Valid() && child == |old(realm.wrappers)| && child < |realm.wrappers|
    ensures realm.wrappers[child].path == old(realm.wrappers[w].path) + [key]
    ensures realm.wrappers[child].handler == old(realm.wrappers[w].handler)
    ensures forall i | 0 <= i < |old(realm.wrappers)| && i != w :: realm.wrappers[i] == old(realm.wrappers[i])
    ensures realm.wrappers[w].path == old(realm.wrappers[w].path)
  {
    realm.EnterTrap(w, Get, key);
    var f := realm.Allocate(map[]);
    var r := realm.Nest(Obj(f));
    child := r.value.w;
  }

  /** `db.select.from.where('a === b')` on a wrapper whose `get` trap nests a
      new function and whose `apply` trap reports `ShadowCopy.path`: the call
      sees the three keys read on the way, not extended by the call itself. */
  method QueryBuilderPath() returns (seen: seq<Key>)
    ensures seen == ["select", "from", "where"]
  {
    var objects: seq<Props> := [map[]];
    var realm := new Realm(objects);
    var handler := Handler(1, [Get, Apply]);
    var db := realm.NewShadowCopy(0, handler);
    var select := FreshFunctionGet(realm, db, "select");
    var from := FreshFunctionGet(realm, select, "from");
    var where := FreshFunctionGet(realm, from, "where");
    // `apply` has no property key: its second argument, `thisArg`, is not a
    // key, and the model passes "undefined" in its place
    realm.EnterTrap(where, Apply, "undefined");
    seen := realm.path;
  }
}
