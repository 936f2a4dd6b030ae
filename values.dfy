/** JavaScript values as the wrapper sees them: primitives, references to the
    plain objects and functions of the host heap, and references to wrappers. */
module JsValues {

  datatype Option<+T> = None | Some(value: T)

  /** A property key, modelled as a string (symbol keys are not modelled). */
  type Key = string

  /** Identity of a plain object or function in the host heap (an index into it). */
  type ObjId = nat

  /** Identity of a wrapper (a `Proxy` built by the constructor), an index into the wrapper table. */
  type WrapperId = nat

  /** The values `typeof` does not report as 'object' or 'function', and `null`. */
  datatype Prim = Undefined | Null | Bool(b: bool) | Num(n: int) | Str(s: string)

  /** A value as a target object holds it: a primitive, or a reference to an
      object or a function (both are wrapped alike, so they share one case). */
  datatype Value = Prim(p: Prim) | Obj(id: ObjId)

  const UNDEFINED: Value := Prim(Undefined)
  const TRUE: Value := Prim(Bool(true))

  /** A value handed back to the caller of an operation on a wrapper. */
  datatype JsValue = Raw(v: Value) | Proxy(w: WrapperId)

  /** An exception: the host's TypeError, or one a user trap raised. */
  datatype Error = TypeError | TrapError(code: nat)

  /** How an operation on a wrapper ends. `Forwarded` marks an operation the
      finished handler has no entry for: the host runs it on the target. */
  datatype Completion = Normal(value: JsValue) | Abrupt(error: Error) | Forwarded

  /** The own properties of one object. */
  type Props = map<Key, Value>

  /** `target[key]` on a plain object: a missing key reads as undefined. */
  function Read(heap: seq<Props>, o: ObjId, key: Key): Value
    requires o < |heap|
  {
    if key in heap[o] then heap[o][key] else UNDEFINED
  }

  /** The value refers only to objects that exist. */
  predicate ValueIn(heap: seq<Props>, v: Value)
  {
    v.Obj? ==> v.id < |heap|
  }

  /** Every property of every object refers only to objects that exist. */
  ghost predicate HeapClosed(heap: seq<Props>)
  {
    forall o, k | 0 <= o < |heap| && k in heap[o] :: ValueIn(heap, heap[o][k])
  }

  /** `heap[o][key] = v`: the one property changes and nothing else does. */
  function Write(heap: seq<Props>, o: ObjId, key: Key, v: Value): (r: seq<Props>)
    requires o < |heap|
    ensures |r| == |heap| && Read(r, o, key) == v && key in r[o]
    ensures forall p, k | 0 <= p < |heap| && (p != o || k != key) :: Read(r, p, k) == Read(heap, p, k)
    ensures forall p, k | 0 <= p < |heap| && (p != o || k != key) :: k in r[p] <==> k in heap[p]
    ensures HeapClosed(heap) && ValueIn(heap, v) ==> HeapClosed(r)
  {
    heap[o := heap[o][key := v]]
  }

  /** `delete heap[o][key]`: the property is gone and nothing else changes. */
  function Remove(heap: seq<Props>, o: ObjId, key: Key): (r: seq<Props>)
    requires o < |heap|
    ensures |r| == |heap| && key !in r[o] && Read(r, o, key) == UNDEFINED
    ensures forall p, k | 0 <= p < |heap| && (p != o || k != key) :: Read(r, p, k) == Read(heap, p, k)
    ensures forall p, k | 0 <= p < |heap| && (p != o || k != key) :: k in r[p] <==> k in heap[p]
    ensures HeapClosed(heap) ==> HeapClosed(r)
  {
    heap[o := heap[o] - {key}]
  }
}
