/** The inner value an upgradable wrapper delegates to.

    The wrapper is generic over any type that can be persisted both spread
    and packed.  The model fixes that type's shape to the common case the
    persistence contract describes: a struct whose fields are packed leaves.
    Spread persistence gives each field one slot, at consecutive keys from
    the cursor, in declaration order; packed persistence puts the whole value
    in one slot.  A value is the sequence of its leaves, and so is a slot's
    content: a leaf is stored as a one-element blob, a packed value as the
    blob of all its leaves.  Decoding a value of `n` leaves from a blob reads
    its first `n` leaves and ignores the rest, and fails when the blob is
    shorter. */
module Spread {

  import opened Wrappers
  import opened Render
  import opened Store
  import opened Layout

  /** What the wrapper needs to know about its inner type: each field's name
      and type descriptor, the `Default` value of each field, and whether
      clearing must reach storage the fields own indirectly. */
  datatype InnerType<V> = InnerType(names: seq<Option<string>>, types: seq<string>, defaults: seq<V>, deepCleanUp: bool)

  predicate WellFormed<V>(ty: InnerType<V>) {
    |ty.names| == |ty.types| == |ty.defaults|
  }

  /** `FOOTPRINT`: one slot per field. */
  function Footprint<V>(ty: InnerType<V>): nat {
    |ty.defaults|
  }

  /** `REQUIRES_DEEP_CLEAN_UP`. */
  function RequiresDeepCleanUp<V>(ty: InnerType<V>): bool {
    ty.deepCleanUp
  }

  type Cells<V> = map<StorageKey, Entry<seq<V>>>

  // ---------------------------------------------------------------------------
  // Reading a value of n leaves from one slot

  /** `get_contract_storage::<X>(key)` for a type `X` of `n` leaves. */
  function ReadLeaves<V>(cells: Cells<V>, key: StorageKey, n: nat): (r: Read<seq<V>>)
    ensures r.Absent? <==> key !in cells
    ensures r.Found? <==> key in cells && cells[key].Stored? && |cells[key].value| >= n
    ensures r.Found? ==> r.value == cells[key].value[..n]
  {
    match ReadEntry(cells, key)
    case Absent => Absent
    case DecodeError => DecodeError
    case Found(blob) => if |blob| >= n then Found(blob[..n]) else DecodeError
  }

  /** Loading a packed value of `n` leaves from its slot: an empty or
      undecodable slot is fatal. */
  function PullPackedRoot<V>(cells: Cells<V>, key: StorageKey, n: nat): (r: Outcome<seq<V>>)
    ensures r.Value? <==> ReadLeaves(cells, key, n).Found?
    ensures r.Value? ==> |r.value| == n && r.value == cells[key].value[..n]
    ensures r == Panic(EmptyEntryMessage) <==> key !in cells
    ensures r == Panic(DecodeFailureMessage) <==> ReadLeaves(cells, key, n).DecodeError?
  {
    match ReadLeaves(cells, key, n)
    case Absent => Panic(EmptyEntryMessage)
    case DecodeError => Panic(DecodeFailureMessage)
    case Found(leaves) => Value(leaves)
  }

  // ---------------------------------------------------------------------------
  // Spread persistence, as functions of the store

  /** The slot of field `i` when the value starts at `root`. */
  function Slot(root: StorageKey, i: nat): StorageKey {
    Advance(root, i)
  }

  /** `pull_spread` of the first `n` fields: each from its own slot, in order;
      the first field that cannot be loaded aborts the pull. */
  function PullFields<V>(cells: Cells<V>, root: StorageKey, n: nat): (r: Outcome<seq<V>>)
    ensures r.Value? ==> |r.value| == n
    ensures r.Value? ==> forall i :: 0 <= i < n ==> PullPackedRoot(cells, Slot(root, i), 1) == Value([r.value[i]])
    ensures (forall i :: 0 <= i < n ==> PullPackedRoot(cells, Slot(root, i), 1).Value?) ==> r.Value?
    ensures r.Panic? ==> exists i :: 0 <= i < n && PullPackedRoot(cells, Slot(root, i), 1) == Panic(r.message) &&
                                     forall j :: 0 <= j < i ==> PullPackedRoot(cells, Slot(root, j), 1).Value?
    decreases n
  {
    if n == 0 then Value([])
    else
      match PullFields(cells, root, n - 1)
      case Panic(m) => Panic(m)
      case Value(vs) =>
        match PullPackedRoot(cells, Slot(root, n - 1), 1)
        case Panic(m) =>
          assert forall j :: 0 <= j < n - 1 ==> PullPackedRoot(cells, Slot(root, j), 1).Value?;
          Panic(m)
        case Value(leaf) =>
          var all := vs + leaf;
          assert forall i :: 0 <= i < n - 1 ==> all[i] == vs[i];
          assert leaf == [all[n - 1]];
          Value(all)
  }

  /** `push_spread`: field `i` is written, as a one-leaf blob, to slot `i`. */
  function PushFields<V>(cells: Cells<V>, root: StorageKey, vs: seq<V>): (r: Cells<V>)
    ensures cells.Keys <= r.Keys
    ensures forall i :: 0 <= i < |vs| ==> Slot(root, i) in r
    decreases |vs|
  {
    if vs == [] then cells
    else PushFields(cells, root, vs[..|vs| - 1])[Slot(root, |vs| - 1) := Stored([vs[|vs| - 1]])]
  }

  /** `clear_spread`: the slots of the first `n` fields are removed. */
  function ClearFields<V>(cells: Cells<V>, root: StorageKey, n: nat): (r: Cells<V>)
    ensures r.Keys <= cells.Keys
    ensures forall i :: 0 <= i < n ==> Slot(root, i) !in r
    decreases n
  {
    if n == 0 then cells else ClearFields(cells, root, n - 1) - {Slot(root, n - 1)}
  }

  // ---------------------------------------------------------------------------
  // What push and clear leave in the store

  /** After a push, slot `i` holds field `i` and every other key holds what
      it held before. */
  lemma {:induction false} PushFieldsContents<V>(cells: Cells<V>, root: StorageKey, vs: seq<V>, key: StorageKey)
    requires |vs| <= KeyModulus
    ensures forall i :: 0 <= i < |vs| ==>
              (Slot(root, i) in PushFields(cells, root, vs) && PushFields(cells, root, vs)[Slot(root, i)] == Stored([vs[i]]))
    ensures (forall i :: 0 <= i < |vs| ==> key != Slot(root, i)) ==>
              (key in PushFields(cells, root, vs) <==> key in cells) &&
              (key in cells ==> PushFields(cells, root, vs)[key] == cells[key])
    decreases |vs|
  {
    if vs != [] {
      var n := |vs| - 1;
      var init := vs[..n];
      PushFieldsContents(cells, root, init, key);
      forall i | 0 <= i < n
        ensures Slot(root, i) != Slot(root, n)
      {
        AdvanceDistinct(root, i, n);
      }
    }
  }

  /** After a clear, the cleared slots are empty and every other key holds
      what it held before. */
  lemma {:induction false} ClearFieldsContents<V>(cells: Cells<V>, root: StorageKey, n: nat, key: StorageKey)
    ensures forall i :: 0 <= i < n ==> Slot(root, i) !in ClearFields(cells, root, n)
    ensures (forall i :: 0 <= i < n ==> key != Slot(root, i)) ==>
              (key in ClearFields(cells, root, n) <==> key in cells) &&
              (key in cells ==> ClearFields(cells, root, n)[key] == cells[key])
    decreases n
  {
    if n > 0 {
      ClearFieldsContents(cells, root, n - 1, key);
    }
  }

  /** The round-trip law: pulling what was just pushed from the same key gives
      back the same value (provided the value does not wrap around the whole
      key space onto itself). */
  lemma PullAfterPush<V>(cells: Cells<V>, root: StorageKey, vs: seq<V>)
    requires |vs| <= KeyModulus
    ensures PullFields(PushFields(cells, root, vs), root, |vs|) == Value(vs)
  {
    PushFieldsContents(cells, root, vs, root);
    PullPrefix(PushFields(cells, root, vs), root, vs, |vs|);
    assert vs[..|vs|] == vs;
  }

  lemma {:induction false} PullPrefix<V>(cells: Cells<V>, root: StorageKey, vs: seq<V>, m: nat)
    requires m <= |vs|
    requires forall i :: 0 <= i < |vs| ==> Slot(root, i) in cells && cells[Slot(root, i)] == Stored([vs[i]])
    ensures PullFields(cells, root, m) == Value(vs[..m])
    decreases m
  {
    if m > 0 {
      PullPrefix(cells, root, vs, m - 1);
      var k := Slot(root, m - 1);
      assert cells[k] == Stored([vs[m - 1]]) && [vs[m - 1]][..1] == [vs[m - 1]];
      assert PullPackedRoot(cells, k, 1) == Value([vs[m - 1]]);
      assert vs[..m - 1] + [vs[m - 1]] == vs[..m];
    }
  }

  /** Pulling from cleared slots fails on the first field with "storage entry
      was empty". */
  lemma PullAfterClear<V>(cells: Cells<V>, root: StorageKey, n: nat)
    requires n > 0
    ensures PullFields(ClearFields(cells, root, n), root, n) == Panic(EmptyEntryMessage)
  {
    var c := ClearFields(cells, root, n);
    ClearFieldsContents(cells, root, n, root);
    assert Slot(root, 0) !in c;
    assert PullFields(c, root, 0) == Value([]);
    assert PullFields(c, root, 1) == Panic(EmptyEntryMessage);
    PanicPersists(c, root, 1, n);
  }

  /** Once a field fails to load, the pull of any longer prefix fails with
      the same message. */
  lemma {:induction false} PanicPersists<V>(cells: Cells<V>, root: StorageKey, m: nat, n: nat)
    requires m <= n && PullFields(cells, root, m).Panic?
    ensures PullFields(cells, root, n) == PullFields(cells, root, m)
    decreases n - m
  {
    if m < n {
      PanicPersists(cells, root, m, n - 1);
      PanicStep(cells, root, n);
    }
  }

  /** A failed prefix fails the prefix one field longer with its message. */
  lemma PanicStep<V>(cells: Cells<V>, root: StorageKey, n: nat)
    requires n > 0 && PullFields(cells, root, n - 1).Panic?
    ensures PullFields(cells, root, n) == PullFields(cells, root, n - 1)
  {
  }

  // ---------------------------------------------------------------------------
  // The inner type's spread and packed operations, as the persistence calls
  // run them against the store and the cursor

  /** `T::pull_spread(ptr)`: the fields in order, each from the slot the
      cursor hands out; the cursor ends past the value. */
  method PullSpreadInner<V>(ty: InnerType<V>, store: Storage<seq<V>>, ptr: KeyPtr) returns (r: Outcome<seq<V>>)
    modifies ptr
    ensures r == PullFields(store.cells, old(ptr.key), Footprint(ty))
    ensures r.Value? ==> ptr.key == Advance(old(ptr.key), Footprint(ty))
  {
    var n := Footprint(ty);
    ghost var root := ptr.key;
    AdvanceZero(root);
    var vs: seq<V> := [];
    var i := 0;
    while i < n
      invariant 0 <= i <= n
      invariant ptr.key == Advance(root, i)
      invariant PullFields(store.cells, root, i) == Value(vs)
    {
      var k := ptr.NextFor(1);
      AdvanceAdd(root, i, 1);
      var read := store.Get(k);
      match read
      case Absent =>
        r := Panic(EmptyEntryMessage);
        PanicPersists(store.cells, root, i + 1, n);
        return;
      case DecodeError =>
        r := Panic(DecodeFailureMessage);
        PanicPersists(store.cells, root, i + 1, n);
        return;
      case Found(blob) =>
        if |blob| < 1 {
          r := Panic(DecodeFailureMessage);
          PanicPersists(store.cells, root, i + 1, n);
          return;
        }
        vs := vs + blob[..1];
      i := i + 1;
    }
    r := Value(vs);
  }

  /** `T::push_spread(&value, ptr)`: each field to the slot the cursor hands
      out; the cursor ends past the value. */
  method PushSpreadInner<V>(vs: seq<V>, store: Storage<seq<V>>, ptr: KeyPtr)
    modifies store, ptr
    ensures store.cells == PushFields(old(store.cells), old(ptr.key), vs)
    ensures ptr.key == Advance(old(ptr.key), |vs|)
  {
    ghost var root := ptr.key;
    AdvanceZero(root);
    var i := 0;
    while i < |vs|
      invariant 0 <= i <= |vs|
      invariant ptr.key == Advance(root, i)
      invariant store.cells == PushFields(old(store.cells), root, vs[..i])
    {
      var k := ptr.NextFor(1);
      AdvanceAdd(root, i, 1);
      store.Set(k, [vs[i]]);
      assert vs[..i + 1][..i] == vs[..i];
      i := i + 1;
    }
    assert vs[..i] == vs;
  }

  /** `T::clear_spread(&value, ptr)`: the slot of each field is removed; the
      cursor ends past the value.  Packed leaves own no further storage, so
      a deep clean-up removes the same slots. */
  method ClearSpreadInner<V>(vs: seq<V>, store: Storage<seq<V>>, ptr: KeyPtr)
    modifies store, ptr
    ensures store.cells == ClearFields(old(store.cells), old(ptr.key), |vs|)
    ensures ptr.key == Advance(old(ptr.key), |vs|)
  {
    ghost var root := ptr.key;
    AdvanceZero(root);
    var i := 0;
    while i < |vs|
      invariant 0 <= i <= |vs|
      invariant ptr.key == Advance(root, i)
      invariant store.cells == ClearFields(old(store.cells), root, i)
    {
      var k := ptr.NextFor(1);
      AdvanceAdd(root, i, 1);
      store.Clear(k);
      i := i + 1;
    }
  }

  /** `T::allocate_spread(ptr)`: the default value, without reading the
      store; the cursor moves exactly as a pull would move it. */
  method AllocateSpreadInner<V>(ty: InnerType<V>, ptr: KeyPtr) returns (vs: seq<V>)
    modifies ptr
    ensures vs == ty.defaults
    ensures ptr.key == Advance(old(ptr.key), Footprint(ty))
  {
    ghost var root := ptr.key;
    AdvanceZero(root);
    vs := [];
    var i := 0;
    while i < Footprint(ty)
      invariant 0 <= i <= Footprint(ty)
      invariant ptr.key == Advance(root, i)
      invariant vs == ty.defaults[..i]
    {
      var _ := ptr.NextFor(1);
      AdvanceAdd(root, i, 1);
      vs := vs + [ty.defaults[i]];
      i := i + 1;
    }
  }

  // ---------------------------------------------------------------------------
  // The inner type's layout

  /** The field layouts of the first `n` fields from `root`: field `i` is a
      cell at slot `i` holding the field's type. */
  function FieldLayouts<V>(ty: InnerType<V>, root: StorageKey, n: nat): (r: seq<FieldLayout<string>>)
    requires WellFormed(ty) && n <= Footprint(ty)
    ensures |r| == n
    ensures forall i :: 0 <= i < n ==> r[i] == FieldLayout(ty.names[i], Cell(Slot(root, i), ty.types[i]))
    decreases n
  {
    if n == 0 then []
    else FieldLayouts(ty, root, n - 1) + [FieldLayout(ty.names[n - 1], Cell(Slot(root, n - 1), ty.types[n - 1]))]
  }

  /** `T::layout(ptr)` from the cursor's key. */
  function InnerLayout<V>(ty: InnerType<V>, root: StorageKey): Layout<string>
    requires WellFormed(ty)
  {
    Struct(StructLayout(FieldLayouts(ty, root, Footprint(ty))))
  }

  /** `T::layout(ptr)`: a struct of one cell per field; the cursor moves past
      the value as the spread operations move it. */
  method LayoutInner<V>(ty: InnerType<V>, ptr: KeyPtr) returns (l: Layout<string>)
    requires WellFormed(ty)
    modifies ptr
    ensures l == InnerLayout(ty, old(ptr.key))
    ensures ptr.key == Advance(old(ptr.key), Footprint(ty))
  {
    ghost var root := ptr.key;
    AdvanceZero(root);
    var fields: seq<FieldLayout<string>> := [];
    var i := 0;
    while i < Footprint(ty)
      invariant 0 <= i <= Footprint(ty)
      invariant ptr.key == Advance(root, i)
      invariant fields == FieldLayouts(ty, root, i)
    {
      var k := ptr.NextFor(1);
      AdvanceAdd(root, i, 1);
      fields := fields + [FieldLayout(ty.names[i], Cell(k, ty.types[i]))];
      i := i + 1;
    }
    l := Struct(StructLayout(fields));
  }

  /** The layout describes the store as push leaves it: the cell of field `i`
      is the slot that holds field `i`, and its type is the field's type. */
  lemma LayoutLocatesFields<V>(ty: InnerType<V>, cells: Cells<V>, root: StorageKey, vs: seq<V>, i: nat)
    requires WellFormed(ty) && |vs| == Footprint(ty) <= KeyModulus && i < |vs|
    ensures InnerLayout(ty, root).body.fields[i].layout.Cell?
    ensures InnerLayout(ty, root).body.fields[i].layout.ty == ty.types[i]
    ensures InnerLayout(ty, root).body.fields[i].layout.key in PushFields(cells, root, vs)
    ensures PushFields(cells, root, vs)[InnerLayout(ty, root).body.fields[i].layout.key] == Stored([vs[i]])
  {
    PushFieldsContents(cells, root, vs, root);
  }
}
