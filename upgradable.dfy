/** The upgradable wrapper of the proxy example.

    `Upgradable<T, Status>` holds one inner value and a zero-size status
    marker, `Initialized` or `NotInitialized`, that exists only in the type.
    Every persistence operation delegates to the inner value with the same
    cursor or key; the one exception is the spread pull of a `NotInitialized`
    wrapper, which first looks at the slot under the cursor and allocates a
    default value when that slot is empty.  The marker and the inner type are
    type parameters in the source; here they are ghost fields of one class,
    and the one operation where the statuses differ is two methods.  The
    presence check of the `NotInitialized` pull is modelled
    twice: as written (`PullNotInitialized`), which decodes a whole inner value
    from the first slot, and corrected (`PullNotInitializedChecked`), which
    the wrapper's method follows. */
module Upgradable {

  import opened Wrappers
  import opened Render
  import opened Store
  import opened Layout
  import opened Spread

  /** The status marker; it selects an implementation, it is never stored. */
  datatype Status = Initialized | NotInitialized

  /** `FOOTPRINT` of the wrapper under either status. */
  function WrapperFootprint<V>(status: Status, ty: InnerType<V>): (n: nat)
    ensures n == |ty.defaults|
  {
    Footprint(ty)
  }

  /** `REQUIRES_DEEP_CLEAN_UP` of the wrapper under either status. */
  function WrapperRequiresDeepCleanUp<V>(status: Status, ty: InnerType<V>): (b: bool)
    ensures b == ty.deepCleanUp
  {
    RequiresDeepCleanUp(ty)
  }

  /** `FOOTPRINT` is the number of consecutive slots a spread push writes:
      under either status, the pushed value occupies exactly the slots
      `root`, `root + 1`, ..., one field each, pairwise distinct, and no other
      key changes. */
  lemma PushUsesFootprintSlots<V>(s: Status, ty: InnerType<V>, cells: Cells<V>, root: StorageKey, vs: seq<V>)
    requires |vs| == WrapperFootprint(s, ty) <= KeyModulus
    ensures forall i, j :: 0 <= i < j < WrapperFootprint(s, ty) ==> Slot(root, i) != Slot(root, j)
    ensures forall i :: 0 <= i < WrapperFootprint(s, ty) ==>
              Slot(root, i) in PushFields(cells, root, vs) && PushFields(cells, root, vs)[Slot(root, i)] == Stored([vs[i]])
    ensures forall k :: (forall i :: 0 <= i < WrapperFootprint(s, ty) ==> k != Slot(root, i)) ==>
              (k in PushFields(cells, root, vs) <==> k in cells) &&
              (k in cells ==> PushFields(cells, root, vs)[k] == cells[k])
  {
    forall i, j | 0 <= i < j < |vs|
      ensures Slot(root, i) != Slot(root, j)
    {
      AdvanceDistinct(root, i, j);
    }
    forall k | forall i :: 0 <= i < |vs| ==> k != Slot(root, i)
      ensures (k in PushFields(cells, root, vs) <==> k in cells) &&
              (k in cells ==> PushFields(cells, root, vs)[k] == cells[k])
    {
      PushFieldsContents(cells, root, vs, k);
    }
    PushFieldsContents(cells, root, vs, root);
  }

  /** A spread clear empties exactly the footprint's slots, under either
      status and whatever the deep clean-up flag says: the flag changes
      neither the footprint nor the slots that are cleared. */
  lemma ClearUsesFootprintSlots<V>(s: Status, ty: InnerType<V>, cells: Cells<V>, root: StorageKey, flag: bool)
    ensures WrapperFootprint(s, ty.(deepCleanUp := flag)) == WrapperFootprint(s, ty)
    ensures forall i :: 0 <= i < WrapperFootprint(s, ty) ==> Slot(root, i) !in ClearFields(cells, root, WrapperFootprint(s, ty))
    ensures forall k :: (forall i :: 0 <= i < WrapperFootprint(s, ty) ==> k != Slot(root, i)) ==>
              (k in ClearFields(cells, root, WrapperFootprint(s, ty)) <==> k in cells) &&
              (k in cells ==> ClearFields(cells, root, WrapperFootprint(s, ty))[k] == cells[k])
  {
    var n := WrapperFootprint(s, ty);
    forall k | forall i :: 0 <= i < n ==> k != Slot(root, i)
      ensures (k in ClearFields(cells, root, n) <==> k in cells) &&
              (k in cells ==> ClearFields(cells, root, n)[k] == cells[k])
    {
      ClearFieldsContents(cells, root, n, k);
    }
    ClearFieldsContents(cells, root, n, root);
  }

  // ---------------------------------------------------------------------------
  // The spread pull of a NotInitialized wrapper, as a function of the store

  /** `pull_spread` for `NotInitialized`: the slot under the cursor is read as
      a whole inner value; an undecodable slot is fatal, an empty slot gives
      the allocated default, anything else the inner spread pull. */
  function PullNotInitialized<V>(ty: InnerType<V>, cells: Cells<V>, root: StorageKey): (r: Outcome<seq<V>>)
    ensures root !in cells ==> r == Value(ty.defaults)
    ensures ReadLeaves(cells, root, Footprint(ty)).DecodeError? ==> r == Panic(DecodeFailureMessage)
    ensures ReadLeaves(cells, root, Footprint(ty)).Found? ==> r == PullFields(cells, root, Footprint(ty))
  {
    match ReadLeaves(cells, root, Footprint(ty))
    case DecodeError => Panic(DecodeFailureMessage)
    case Absent => Value(ty.defaults)
    case Found(_) => PullFields(cells, root, Footprint(ty))
  }

  /** The presence check as evidently intended: the slot under the cursor
      holds the first field, so it is read as the first field. */
  function PullNotInitializedChecked<V>(ty: InnerType<V>, cells: Cells<V>, root: StorageKey): (r: Outcome<seq<V>>)
    ensures root !in cells ==> r == Value(ty.defaults)
    ensures 0 < Footprint(ty) && ReadLeaves(cells, root, 1).DecodeError? ==> r == Panic(DecodeFailureMessage)
    ensures 0 < Footprint(ty) && ReadLeaves(cells, root, 1).Found? ==> r == PullFields(cells, root, Footprint(ty))
  {
    if Footprint(ty) == 0 then Value(ty.defaults)
    else
      match ReadLeaves(cells, root, 1)
      case DecodeError => Panic(DecodeFailureMessage)
      case Absent => Value(ty.defaults)
      case Found(_) => PullFields(cells, root, Footprint(ty))
  }

  /** As written, a value of two or more fields that was pushed spread cannot
      be pulled back: the first slot holds one field, which is too short to
      decode as the whole value. */
  lemma NotInitializedPullAfterPushFails<V>(ty: InnerType<V>, cells: Cells<V>, root: StorageKey, vs: seq<V>)
    requires |vs| == Footprint(ty) && 2 <= |vs| <= KeyModulus
    ensures PullNotInitialized(ty, PushFields(cells, root, vs), root) == Panic(DecodeFailureMessage)
  {
    PushFieldsContents(cells, root, vs, root);
    AdvanceZero(root);
    assert PushFields(cells, root, vs)[Slot(root, 0)] == Stored([vs[0]]);
  }

  /** The concrete case: a value of two `u32` fields, pushed at key 5 into an
      empty store, then pulled as `NotInitialized` from key 5. */
  lemma TwoFieldCounterexample()
    ensures PullNotInitialized(InnerType([Some("a"), Some("b")], ["u32", "u32"], [0, 0], false),
                               PushFields(map[], 5, [1, 2]), 5)
         == Panic(DecodeFailureMessage)
  {
    NotInitializedPullAfterPushFails(InnerType([Some("a"), Some("b")], ["u32", "u32"], [0, 0], false), map[], 5, [1, 2]);
  }

  /** With a single-field inner value, the slot under the cursor is the whole
      value, and the check as written is exact. */
  lemma SingleFieldAgrees<V>(ty: InnerType<V>, cells: Cells<V>, root: StorageKey)
    requires Footprint(ty) == 1
    ensures PullNotInitialized(ty, cells, root) == PullNotInitializedChecked(ty, cells, root)
  {
  }

  /** The corrected pull round-trips a pushed value, whatever its number of
      fields, and allocates when nothing was pushed at the key. */
  lemma CheckedPullAfterPush<V>(ty: InnerType<V>, cells: Cells<V>, root: StorageKey, vs: seq<V>)
    requires |vs| == Footprint(ty) <= KeyModulus
    ensures PullNotInitializedChecked(ty, PushFields(cells, root, vs), root) == Value(vs)
  {
    if |vs| > 0 {
      PushFieldsContents(cells, root, vs, root);
      AdvanceZero(root);
      assert PushFields(cells, root, vs)[Slot(root, 0)] == Stored([vs[0]]);
      PullAfterPush(cells, root, vs);
    } else {
      assert vs == [] == ty.defaults;
    }
  }

  /** A corrected pull from cleared slots allocates: the value reads as the
      default again. */
  lemma CheckedPullAfterClear<V>(ty: InnerType<V>, cells: Cells<V>, root: StorageKey)
    ensures PullNotInitializedChecked(ty, ClearFields(cells, root, Footprint(ty)), root) == Value(ty.defaults)
  {
    if 0 < Footprint(ty) {
      ClearFieldsContents(cells, root, Footprint(ty), root);
      AdvanceZero(root);
      assert Slot(root, 0) !in ClearFields(cells, root, Footprint(ty));
    }
  }

  // ---------------------------------------------------------------------------
  // The wrapper

  class Upgradable<V> {
    var inner: seq<V>

    /** The inner type `T` and the status marker.  Both are type parameters in
        the source, so they never change for a given wrapper. */
    ghost const ty: InnerType<V>
    ghost const status: Status

    /** The inner value is a value of the inner type: one leaf per field. */
    ghost predicate Valid()
      reads this
    {
      |inner| == WrapperFootprint(status, ty)
    }

    /** `Upgradable::new(inner)`. */
    constructor(ghost ty: InnerType<V>, ghost status: Status, inner: seq<V>)
      requires |inner| == Footprint(ty)
      ensures Valid() && this.ty == ty && this.status == status
      ensures this.inner == inner
    {
      this.ty := ty;
      this.status := status;
      this.inner := inner;
    }

    /** `Default::default()`: `new(T::default())`. */
    static method Default(ty: InnerType<V>, ghost status: Status) returns (u: Upgradable<V>)
      ensures fresh(u) && u.Valid() && u.ty == ty && u.status == status
      ensures u.inner == ty.defaults
    {
      u := new Upgradable(ty, status, ty.defaults);
    }

    /** `deref` and `as_ref`: the inner value itself, a value of the inner
        type. */
    function Deref(): (r: seq<V>)
      requires Valid()
      reads this
      ensures |r| == WrapperFootprint(status, ty)
      ensures r == inner
    {
      inner
    }

    /** `deref_mut` and `as_mut`, followed by an assignment of another value
        of the inner type through the returned reference: the inner value is
        replaced and nothing else. */
    method AssignThroughDerefMut(value: seq<V>)
      requires Valid() && |value| == Footprint(ty)
      modifies this
      ensures Valid() && inner == value
    {
      inner := value;
    }

    // -------------------------------------------------------------------------
    // Spread persistence

    /** `pull_spread` for `Initialized`: `new(T::pull_spread(ptr))`. */
    static method PullSpreadInitialized(ty: InnerType<V>, store: Storage<seq<V>>, ptr: KeyPtr)
      returns (r: Outcome<Upgradable<V>>)
      modifies ptr
      ensures PullFields(store.cells, old(ptr.key), Footprint(ty)).Value? <==> r.Value?
      ensures r.Value? ==> fresh(r.value) && r.value.Valid() && r.value.ty == ty && r.value.status == Initialized
      ensures r.Value? ==> r.value.inner == PullFields(store.cells, old(ptr.key), Footprint(ty)).value
      ensures r.Value? ==> ptr.key == Advance(old(ptr.key), WrapperFootprint(Initialized, ty))
      ensures r.Panic? ==> r.message == PullFields(store.cells, old(ptr.key), Footprint(ty)).message
    {
      var pulled := PullSpreadInner(ty, store, ptr);
      match pulled
      case Panic(m) => r := Panic(m);
      case Value(vs) =>
        var u := new Upgradable(ty, Initialized, vs);
        r := Value(u);
    }

    /** `pull_spread` for `NotInitialized`, with the presence check corrected
        (see `PullNotInitializedChecked`): the first slot under the cursor
        decides, without moving the cursor, between allocating and pulling. */
    static method PullSpreadNotInitialized(ty: InnerType<V>, store: Storage<seq<V>>, ptr: KeyPtr)
      returns (r: Outcome<Upgradable<V>>)
      modifies ptr
      ensures PullNotInitializedChecked(ty, store.cells, old(ptr.key)).Value? <==> r.Value?
      ensures r.Value? ==> fresh(r.value) && r.value.Valid() && r.value.ty == ty && r.value.status == NotInitialized
      ensures r.Value? ==> r.value.inner == PullNotInitializedChecked(ty, store.cells, old(ptr.key)).value
      ensures r.Value? ==> ptr.key == Advance(old(ptr.key), WrapperFootprint(NotInitialized, ty))
      ensures r.Panic? ==> r.message == PullNotInitializedChecked(ty, store.cells, old(ptr.key)).message
    {
      var read := store.Get(ptr.Key());
      if Footprint(ty) == 0 || read.Absent? {
        var u := AllocateSpread(ty, NotInitialized, ptr);
        r := Value(u);
      } else if read.DecodeError? || |read.value| < 1 {
        r := Panic(DecodeFailureMessage);
      } else {
        var pulled := PullSpreadInner(ty, store, ptr);
        match pulled
        case Panic(m) => r := Panic(m);
        case Value(vs) =>
          var u := new Upgradable(ty, NotInitialized, vs);
          r := Value(u);
      }
    }

    /** `push_spread`, under either status: `T::push_spread(&inner, ptr)`; the
        cursor moves by the wrapper's footprint. */
    method PushSpread(store: Storage<seq<V>>, ptr: KeyPtr)
      requires Valid()
      modifies store, ptr
      ensures store.cells == PushFields(old(store.cells), old(ptr.key), inner)
      ensures ptr.key == Advance(old(ptr.key), WrapperFootprint(status, ty))
    {
      PushSpreadInner(inner, store, ptr);
    }

    /** `clear_spread`, under either status: `T::clear_spread(&inner, ptr)`;
        the cursor moves by the wrapper's footprint. */
    method ClearSpread(store: Storage<seq<V>>, ptr: KeyPtr)
      requires Valid()
      modifies store, ptr
      ensures store.cells == ClearFields(old(store.cells), old(ptr.key), WrapperFootprint(status, ty))
      ensures ptr.key == Advance(old(ptr.key), WrapperFootprint(status, ty))
    {
      ClearSpreadInner(inner, store, ptr);
    }

    /** `allocate_spread`, under either status: `new(T::allocate_spread(ptr))`. */
    static method AllocateSpread(ty: InnerType<V>, ghost status: Status, ptr: KeyPtr) returns (u: Upgradable<V>)
      modifies ptr
      ensures fresh(u) && u.Valid() && u.ty == ty && u.status == status
      ensures u.inner == ty.defaults
      ensures ptr.key == Advance(old(ptr.key), WrapperFootprint(status, ty))
    {
      var vs := AllocateSpreadInner(ty, ptr);
      u := new Upgradable(ty, status, vs);
    }

    // -------------------------------------------------------------------------
    // Packed persistence

    /** `pull_packed(at)`, under either status: the inner value is overwritten
        with the one stored at `at`. */
    method PullPacked(store: Storage<seq<V>>, at: StorageKey) returns (r: Outcome<()>)
      requires Valid()
      modifies this
      ensures Valid()
      ensures r.Value? <==> PullPackedRoot(store.cells, at, Footprint(ty)).Value?
      ensures r.Value? ==> inner == PullPackedRoot(store.cells, at, Footprint(ty)).value
      ensures r.Panic? ==> r.message == PullPackedRoot(store.cells, at, Footprint(ty)).message && inner == old(inner)
    {
      var n := |inner|;
      var read := store.Get(at);
      match read
      case Absent => r := Panic(EmptyEntryMessage);
      case DecodeError => r := Panic(DecodeFailureMessage);
      case Found(blob) =>
        if |blob| < n {
          r := Panic(DecodeFailureMessage);
        } else {
          inner := blob[..n];
          r := Value(());
        }
    }

    /** `push_packed(at)`, under either status: the inner value goes to `at`
        and no other key changes. */
    method PushPacked(store: Storage<seq<V>>, at: StorageKey)
      requires Valid()
      modifies store
      ensures store.cells == old(store.cells)[at := Stored(inner)]
    {
      store.Set(at, inner);
    }

    /** `clear_packed(at)`, under either status: `at` is removed and no other
        key changes. */
    method ClearPacked(store: Storage<seq<V>>, at: StorageKey)
      requires Valid()
      modifies store
      ensures store.cells == old(store.cells) - {at}
    {
      store.Clear(at);
    }

    /** `allocate_packed(at)`, under either status: packed leaves have nothing
        to allocate, so the inner value stays as it is. */
    method AllocatePacked(at: StorageKey)
      requires Valid()
      modifies this
      ensures Valid() && inner == old(inner)
    {
    }

    // -------------------------------------------------------------------------
    // Layout

    /** `layout(ptr)`, under either status: the inner type's layout; the
        cursor moves by the wrapper's footprint. */
    static method LayoutOf(ty: InnerType<V>, ghost status: Status, ptr: KeyPtr) returns (l: Layout<string>)
      requires WellFormed(ty)
      modifies ptr
      ensures l == InnerLayout(ty, old(ptr.key))
      ensures ptr.key == Advance(old(ptr.key), WrapperFootprint(status, ty))
    {
      l := LayoutInner(ty, ptr);
    }
  }

  /** The round-trip law for the wrapper: whatever its status, a wrapper pushed
      spread at a key is pulled back from that key as the same inner value, by
      the `Initialized` pull and by the corrected `NotInitialized` pull. */
  lemma WrapperSpreadRoundTrip<V>(u: Upgradable<V>, cells: Cells<V>, root: StorageKey)
    requires u.Valid() && WrapperFootprint(u.status, u.ty) <= KeyModulus
    ensures PullFields(PushFields(cells, root, u.inner), root, WrapperFootprint(u.status, u.ty)) == Value(u.inner)
    ensures PullNotInitializedChecked(u.ty, PushFields(cells, root, u.inner), root) == Value(u.inner)
  {
    PullAfterPush(cells, root, u.inner);
    CheckedPullAfterPush(u.ty, cells, root, u.inner);
  }

  /** The same law run on the objects: push a wrapper through a cursor at
      `root`, then pull a new `Initialized` wrapper through a fresh cursor at
      `root`.  The pull gives back the inner value, and both cursors end at
      the same key, `root` advanced by the footprint. */
  method PushThenPull<V>(u: Upgradable<V>, ty: InnerType<V>, store: Storage<seq<V>>, root: StorageKey)
    returns (r: Outcome<Upgradable<V>>, pushEnd: StorageKey, pullEnd: StorageKey)
    requires u.Valid() && u.ty == ty && Footprint(ty) <= KeyModulus
    modifies store
    ensures r.Value? && r.value.inner == u.inner && r.value.ty == u.ty
    ensures pushEnd == pullEnd == Advance(root, Footprint(ty))
  {
    var pushPtr := new KeyPtr(root);
    u.PushSpread(store, pushPtr);
    var pullPtr := new KeyPtr(root);
    r := Upgradable.PullSpreadInitialized(ty, store, pullPtr);
    WrapperSpreadRoundTrip(u, old(store.cells), root);
    pushEnd, pullEnd := pushPtr.Key(), pullPtr.Key();
  }

  /** Packed persistence round-trips: a value pushed at a key is pulled back
      unchanged from that key. */
  lemma PackedRoundTrip<V>(ty: InnerType<V>, cells: Cells<V>, at: StorageKey, vs: seq<V>)
    requires |vs| == Footprint(ty)
    ensures PullPackedRoot(cells[at := Stored(vs)], at, Footprint(ty)) == Value(vs)
  {
    assert vs[..|vs|] == vs;
  }

  /** A single-field value pushed spread is pulled back unchanged by the
      `NotInitialized` pull as written. */
  lemma SingleFieldRoundTrip<V>(ty: InnerType<V>, cells: Cells<V>, root: StorageKey, v: V)
    requires Footprint(ty) == 1
    ensures PullNotInitialized(ty, PushFields(cells, root, [v]), root) == Value([v])
  {
    CheckedPullAfterPush(ty, cells, root, [v]);
  }
}
