/** The operation kinds a `Proxy` handler can trap, the two tables that
    classify them, and the finished handler the constructor assembles. */
module Handlers {

  /** The traps the host's `Proxy` knows. Other keys of a user handler are
      copied into the finished handler too, but the host never calls them. */
  datatype TrapKind =
    | GetOwnPropertyDescriptor | Has | Get | Set | DeleteProperty | DefineProperty
    | Apply | Construct | OwnKeys | GetPrototypeOf | SetPrototypeOf
    | IsExtensible | PreventExtensions

  /** Kinds whose second argument is a property key. */
  const HAS_PROPERTY_KEY_PARAM: seq<TrapKind> :=
    [GetOwnPropertyDescriptor, Has, Get, Set, DeleteProperty, DefineProperty]

  /** Kinds that may replace or remove the value at `target[key]`. */
  const MAY_ERASE_VALUE_IN_OBJECT: seq<TrapKind> := [Set, DefineProperty, DeleteProperty]

  /** Kinds the finished handler answers with a default of its own. */
  const DEFAULT_HANDLED: set<TrapKind> := {Get, Set, DefineProperty, DeleteProperty}

  /** A user handler: its identity and the trap kinds it defines, in the order
      `Object.entries` lists them. The callbacks themselves are not modelled. */
  datatype Handler = Handler(id: nat, traps: seq<TrapKind>)

  /** What the finished handler holds for a kind: the built-in default or the
      composed user trap. A kind with no slot is left to the host. */
  datatype Slot = DefaultSlot | UserSlot

  /** The object literal of the four defaults, before any user trap is added. */
  function Defaults(): map<TrapKind, Slot>
  {
    map[Get := DefaultSlot, Set := DefaultSlot, DefineProperty := DefaultSlot,
        DeleteProperty := DefaultSlot]
  }

  /** The finished handler after the loop has visited `entries`: each entry,
      in turn, overwrites its kind's slot with the composed user trap. */
  function FinalHandler(entries: seq<TrapKind>): map<TrapKind, Slot>
  {
    if entries == [] then Defaults()
    else FinalHandler(entries[..|entries| - 1])[entries[|entries| - 1] := UserSlot]
  }

  /** A kind has a slot exactly when the user defined it or it has a default,
      and the slot is the user's exactly when the user defined the kind. */
  lemma {:induction false} FinalHandlerSlot(entries: seq<TrapKind>, k: TrapKind)
    ensures k in FinalHandler(entries) <==> k in entries || k in DEFAULT_HANDLED
    ensures k in FinalHandler(entries) ==> (FinalHandler(entries)[k] == UserSlot <==> k in entries)
  {
    if entries != [] {
      var init, last := entries[..|entries| - 1], entries[|entries| - 1];
      FinalHandlerSlot(init, k);
      assert entries == init + [last];
      assert k in entries <==> k in init || k == last;
      assert FinalHandler(entries) == FinalHandler(init)[last := UserSlot];
    }
  }

  /** The `for` loop of the constructor over the user handler's entries. */
  method BuildFinalHandler(entries: seq<TrapKind>) returns (fh: map<TrapKind, Slot>)
    ensures fh == FinalHandler(entries)
    ensures forall k :: k in fh <==> k in entries || k in DEFAULT_HANDLED
    ensures forall k :: k in fh ==> (fh[k] == UserSlot <==> k in entries)
  {
    fh := Defaults();
    for i := 0 to |entries|
      invariant fh == FinalHandler(entries[..i])
    {
      assert entries[..i + 1][..i] == entries[..i];
      fh := fh[entries[i] := UserSlot];
    }
    assert entries[..|entries|] == entries;
    forall k
      ensures k in fh <==> k in entries || k in DEFAULT_HANDLED
      ensures k in fh ==> (fh[k] == UserSlot <==> k in entries)
    {
      FinalHandlerSlot(entries, k);
    }
  }
}
