/** The type registry and the compaction of a layout into its portable form.

    The registry hands out a small integer handle for each type descriptor:
    the first descriptor it sees gets 0, the next new one 1, and so on; a
    descriptor it already holds resolves to the handle it got the first time.
    Compacting a layout walks the tree left to right (struct fields in
    declaration order, enum variants in ascending discriminant order),
    registers the descriptor of every cell it meets, and replaces that
    descriptor by its handle; keys, names, discriminants and hashing
    strategies are carried over unchanged.  The registry is threaded through
    the walk: every function here returns the compacted part together with the
    registry as it stands afterwards. */
module Portable {

  import opened Layout

  /** The registry: descriptors in registration order; a handle is a position. */
  datatype Registry<Ty> = Registry(types: seq<Ty>)

  /** `Registry::new()`: a registry holding no descriptor, so the first type
      registered gets handle 0. */
  function NewRegistry<Ty>(): (r: Registry<Ty>)
    ensures r.types == []
  {
    Registry([])
  }

  /** No descriptor is registered twice. */
  predicate Distinct<Ty(==)>(s: seq<Ty>) {
    forall i, j :: 0 <= i < j < |s| ==> s[i] != s[j]
  }

  /** The position of the first occurrence of `t`. */
  function IndexOf<Ty(==)>(s: seq<Ty>, t: Ty): (i: nat)
    requires t in s
    ensures i < |s| && s[i] == t && t !in s[..i]
  {
    if s[0] == t then 0
    else
      var i := IndexOf(s[1..], t) + 1;
      assert s[..i] == [s[0]] + s[1..][..i - 1];
      i
  }

  /** `known` followed by the descriptors of `ts` it does not hold yet, each
      once, in the order `ts` first mentions them. */
  function AppendNew<Ty(==)>(known: seq<Ty>, ts: seq<Ty>): (r: seq<Ty>)
    ensures known <= r
    ensures Distinct(known) ==> Distinct(r)
    ensures forall i :: 0 <= i < |ts| ==> ts[i] in r
    ensures forall i :: 0 <= i < |r| ==> r[i] in known || r[i] in ts
    decreases |ts|
  {
    if ts == [] then known
    else
      var known1 := if ts[0] in known then known else known + [ts[0]];
      DistinctAppend(known, ts[0]);
      var r := AppendNew(known1, ts[1..]);
      assert forall i :: 1 <= i < |ts| ==> ts[i] == ts[1..][i - 1];
      assert forall x :: x in known1 ==> x in known || x == ts[0];
      assert ts[0] in r by {
        var j :| 0 <= j < |known1| && known1[j] == ts[0];
        assert r[j] == ts[0];
      }
      r
  }

  lemma DistinctAppend<Ty>(s: seq<Ty>, x: Ty)
    ensures Distinct(s) && x !in s ==> Distinct(s + [x])
  {
  }

  lemma {:induction false} AppendNewConcat<Ty>(known: seq<Ty>, a: seq<Ty>, b: seq<Ty>)
    ensures AppendNew(known, a + b) == AppendNew(AppendNew(known, a), b)
    decreases |a|
  {
    if a == [] {
      assert a + b == b;
    } else {
      assert (a + b)[0] == a[0] && (a + b)[1..] == a[1..] + b;
      AppendNewConcat(if a[0] in known then known else known + [a[0]], a[1..], b);
    }
  }

  /** `Registry::register_type`: the handle of `t`, and the registry after it.
      A descriptor already present keeps its handle and leaves the registry
      as it was; a new one is appended and gets the next handle. */
  function Register<Ty(==)>(reg: Registry<Ty>, t: Ty): (r: (nat, Registry<Ty>))
    ensures r.1.types == AppendNew(reg.types, [t])
    ensures r.0 < |r.1.types| && r.1.types[r.0] == t
    ensures t in reg.types ==> r.1 == reg
    ensures t !in reg.types ==> r.0 == |reg.types|
  {
    if t in reg.types then (IndexOf(reg.types, t), reg) else (|reg.types|, Registry(reg.types + [t]))
  }

  /** Registering the same descriptor again yields the same handle and
      leaves the registry unchanged. */
  lemma RegisterTwice<Ty>(reg: Registry<Ty>, t: Ty)
    ensures Register(Register(reg, t).1, t) == (Register(reg, t).0, Register(reg, t).1)
  {
    var (h, reg1) := Register(reg, t);
    if t !in reg.types {
      var h2 := IndexOf(reg1.types, t);
      assert reg1.types[..|reg.types|] == reg.types;
    }
  }

  /** In a registry without repeats, distinct descriptors have distinct
      handles. */
  lemma DistinctHandles<Ty>(reg: Registry<Ty>, t1: Ty, t2: Ty)
    requires Distinct(reg.types) && t1 != t2
    ensures Register(Register(reg, t1).1, t2).0 != Register(reg, t1).0
  {
  }

  // ---------------------------------------------------------------------------
  // Compaction

  /** Handle `hs[i]` names descriptor `ts[i]` in the registry `types`. */
  predicate Resolves<Ty(==)>(hs: seq<nat>, ts: seq<Ty>, types: seq<Ty>) {
    |hs| == |ts| && forall i :: 0 <= i < |hs| ==> hs[i] < |types| && types[hs[i]] == ts[i]
  }

  lemma ResolvesConcat<Ty>(h1: seq<nat>, t1: seq<Ty>, h2: seq<nat>, t2: seq<Ty>, types: seq<Ty>)
    requires Resolves(h1, t1, types) && Resolves(h2, t2, types)
    ensures Resolves(h1 + h2, t1 + t2, types)
  {
    forall i | 0 <= i < |h1 + h2|
      ensures (h1 + h2)[i] < |types| && types[(h1 + h2)[i]] == (t1 + t2)[i]
    {
      if i >= |h1| {
        assert (h1 + h2)[i] == h2[i - |h1|] && (t1 + t2)[i] == t2[i - |h1|];
      }
    }
  }

  lemma ResolvesGrow<Ty>(hs: seq<nat>, ts: seq<Ty>, types: seq<Ty>, more: seq<Ty>)
    requires Resolves(hs, ts, types) && types <= more
    ensures Resolves(hs, ts, more)
  {
    forall i | 0 <= i < |hs| ensures hs[i] < |more| && more[hs[i]] == ts[i] {
      assert more[hs[i]] == types[hs[i]];
    }
  }

  /** `Layout::into_portable`: the compacted tree and the registry after it.
      The registry gains exactly the tree's new descriptors, in the order
      the walk meets them; the tree keeps its shape (keys, names,
      discriminants, hashing strategies); and each cell's handle names, in
      the final registry, the descriptor the cell had. */
  function IntoPortable<Ty(==)>(l: Layout<Ty>, reg: Registry<Ty>): (r: (Layout<nat>, Registry<Ty>))
    ensures r.1.types == AppendNew(reg.types, CellTypes(l))
    ensures Erase(r.0) == Erase(l)
    ensures Resolves(CellTypes(r.0), CellTypes(l), r.1.types)
    ensures WellFormedLayout(l) ==> WellFormedLayout(r.0)
  {
    match l
    case Cell(key, ty) =>
      var (h, reg1) := Register(reg, ty);
      (Cell(key, h), reg1)
    case Struct(body) =>
      var (fields, reg1) := FieldsIntoPortable(body.fields, reg);
      (Struct(StructLayout(fields)), reg1)
    case Enum(key, variants) =>
      var (variants1, reg1) := VariantsIntoPortable(variants, reg);
      (Enum(key, variants1), reg1)
    case Hash(offset, strategy, element) =>
      var (element1, reg1) := IntoPortable(element, reg);
      (Hash(offset, strategy, element1), reg1)
  }

  function FieldIntoPortable<Ty(==)>(f: FieldLayout<Ty>, reg: Registry<Ty>): (r: (FieldLayout<nat>, Registry<Ty>))
    ensures r.1.types == AppendNew(reg.types, FieldCellTypes(f))
    ensures EraseField(r.0) == EraseField(f)
    ensures Resolves(FieldCellTypes(r.0), FieldCellTypes(f), r.1.types)
  {
    var (layout, reg1) := IntoPortable(f.layout, reg);
    (FieldLayout(f.name, layout), reg1)
  }

  function FieldsIntoPortable<Ty(==)>(fields: seq<FieldLayout<Ty>>, reg: Registry<Ty>)
    : (r: (seq<FieldLayout<nat>>, Registry<Ty>))
    ensures r.1.types == AppendNew(reg.types, FieldsCellTypes(fields))
    ensures EraseFields(r.0) == EraseFields(fields)
    ensures Resolves(FieldsCellTypes(r.0), FieldsCellTypes(fields), r.1.types)
  {
    if fields == [] then ([], reg)
    else
      var (f1, reg1) := FieldIntoPortable(fields[0], reg);
      var (rest, reg2) := FieldsIntoPortable(fields[1..], reg1);
      var out := [f1] + rest;
      assert out[0] == f1 && out[1..] == rest;
      AppendNewConcat(reg.types, FieldCellTypes(fields[0]), FieldsCellTypes(fields[1..]));
      ResolvesGrow(FieldCellTypes(f1), FieldCellTypes(fields[0]), reg1.types, reg2.types);
      ResolvesConcat(FieldCellTypes(f1), FieldCellTypes(fields[0]), FieldsCellTypes(rest), FieldsCellTypes(fields[1..]), reg2.types);
      (out, reg2)
  }

  function VariantIntoPortable<Ty(==)>(v: Variant<Ty>, reg: Registry<Ty>): (r: (Variant<nat>, Registry<Ty>))
    ensures r.1.types == AppendNew(reg.types, VariantCellTypes(v))
    ensures EraseVariant(r.0) == EraseVariant(v)
    ensures Resolves(VariantCellTypes(r.0), VariantCellTypes(v), r.1.types)
  {
    var (fields, reg1) := FieldsIntoPortable(v.body.fields, reg);
    (Variant(v.discriminant, StructLayout(fields)), reg1)
  }

  function VariantsIntoPortable<Ty(==)>(variants: seq<Variant<Ty>>, reg: Registry<Ty>)
    : (r: (seq<Variant<nat>>, Registry<Ty>))
    ensures r.1.types == AppendNew(reg.types, VariantsCellTypes(variants))
    ensures EraseVariants(r.0) == EraseVariants(variants)
    ensures Resolves(VariantsCellTypes(r.0), VariantsCellTypes(variants), r.1.types)
  {
    if variants == [] then ([], reg)
    else
      var (v1, reg1) := VariantIntoPortable(variants[0], reg);
      var (rest, reg2) := VariantsIntoPortable(variants[1..], reg1);
      var out := [v1] + rest;
      assert out[0] == v1 && out[1..] == rest;
      AppendNewConcat(reg.types, VariantCellTypes(variants[0]), VariantsCellTypes(variants[1..]));
      ResolvesGrow(VariantCellTypes(v1), VariantCellTypes(variants[0]), reg1.types, reg2.types);
      ResolvesConcat(VariantCellTypes(v1), VariantCellTypes(variants[0]), VariantsCellTypes(rest), VariantsCellTypes(variants[1..]), reg2.types);
      (out, reg2)
  }

  /** Starting from a registry without repeats, every handle in the
      compacted tree is the first-registration handle of its descriptor:
      equal descriptors share a handle and distinct ones never do. */
  lemma {:induction false} HandlesAreCanonical<Ty>(l: Layout<Ty>, reg: Registry<Ty>, i: nat, j: nat)
    requires Distinct(reg.types)
    requires i < |CellTypes(l)| && j < |CellTypes(l)|
    ensures |CellTypes(IntoPortable(l, reg).0)| == |CellTypes(l)|
    ensures CellTypes(IntoPortable(l, reg).0)[i] == IndexOf(IntoPortable(l, reg).1.types, CellTypes(l)[i])
    ensures CellTypes(IntoPortable(l, reg).0)[i] == CellTypes(IntoPortable(l, reg).0)[j] <==> CellTypes(l)[i] == CellTypes(l)[j]
  {
    var (p, reg1) := IntoPortable(l, reg);
    var hs, ts := CellTypes(p), CellTypes(l);
    assert Distinct(reg1.types);
    var k := IndexOf(reg1.types, ts[i]);
    assert reg1.types[hs[i]] == ts[i];
    assert hs[i] == k;
    assert reg1.types[hs[j]] == ts[j];
  }

  /** Starting from an empty registry, the registry after compaction lists
      the tree's descriptors in first-encounter order, each once, so the
      first descriptor met gets handle 0. */
  lemma {:induction false} FreshRegistryOrder<Ty>(l: Layout<Ty>)
    requires CellTypes(l) != []
    ensures IntoPortable(l, NewRegistry()).1.types == AppendNew([], CellTypes(l))
    ensures Distinct(IntoPortable(l, NewRegistry()).1.types)
    ensures IntoPortable(l, NewRegistry()).1.types[0] == CellTypes(l)[0]
    ensures CellTypes(IntoPortable(l, NewRegistry()).0)[0] == 0
  {
    var ts := CellTypes(l);
    var (p, reg1) := IntoPortable(l, NewRegistry());
    AppendNewConcat([], [ts[0]], ts[1..]);
    assert [ts[0]] + ts[1..] == ts;
    assert AppendNew([], [ts[0]]) == [ts[0]];
    assert reg1.types[0] == ts[0];
    assert Distinct<Ty>([]);
    HandlesAreCanonical(l, NewRegistry(), 0, 0);
  }
}
