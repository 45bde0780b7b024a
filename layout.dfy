/** The storage layout description tree.

    A layout says where, under a root key, the data of a type lives: in one
    cell (`Cell`), field by field (`Struct`), as one of several variants chosen
    by a discriminant (`Enum`), or as an unbounded collection whose element
    keys are derived by hashing (`Hash`).  The tree is generic in the type
    descriptor `Ty` stored in each cell: a freshly built layout carries the
    descriptors themselves, the portable layout carries small integer handles
    into a type registry (see module `Portable`). */
module Layout {

  import opened Wrappers
  import opened Render

  /** A `LayoutKey`: the 32-bit key of one storage cell. */
  type LayoutKey = StorageKey

  /** The hashers a hashing strategy may name. */
  datatype CryptoHasher = Blake2x256 | Sha2x256 | Keccak256

  /** How an unbounded collection derives its element keys: the hasher and
      the bytes placed before and after the key material. */
  datatype HashingStrategy = HashingStrategy(hasher: CryptoHasher, prefix: seq<byte>, postfix: seq<byte>)

  datatype Layout<Ty> =
    | Cell(key: LayoutKey, ty: Ty)
    | Struct(body: StructLayout<Ty>)
    | Enum(dispatchKey: LayoutKey, variants: seq<Variant<Ty>>)
    | Hash(offset: LayoutKey, strategy: HashingStrategy, layout: Layout<Ty>)

  /** The fields of a struct, or of one enum variant, in declaration order. */
  datatype StructLayout<Ty> = StructLayout(fields: seq<FieldLayout<Ty>>)

  /** A field is named, or unnamed when it belongs to a tuple struct. */
  datatype FieldLayout<Ty> = FieldLayout(name: Option<string>, layout: Layout<Ty>)

  /** One entry of an enum's variant table. */
  datatype Variant<Ty> = Variant(discriminant: nat, body: StructLayout<Ty>)

  // ---------------------------------------------------------------------------
  // The type descriptors of a tree, in the order a left-to-right walk meets them

  function CellTypes<Ty>(l: Layout<Ty>): seq<Ty> {
    match l
    case Cell(_, ty) => [ty]
    case Struct(body) => FieldsCellTypes(body.fields)
    case Enum(_, variants) => VariantsCellTypes(variants)
    case Hash(_, _, element) => CellTypes(element)
  }

  function FieldsCellTypes<Ty>(fields: seq<FieldLayout<Ty>>): seq<Ty> {
    if fields == [] then [] else FieldCellTypes(fields[0]) + FieldsCellTypes(fields[1..])
  }

  function FieldCellTypes<Ty>(f: FieldLayout<Ty>): seq<Ty> {
    CellTypes(f.layout)
  }

  function VariantsCellTypes<Ty>(variants: seq<Variant<Ty>>): seq<Ty> {
    if variants == [] then [] else VariantCellTypes(variants[0]) + VariantsCellTypes(variants[1..])
  }

  function VariantCellTypes<Ty>(v: Variant<Ty>): seq<Ty> {
    FieldsCellTypes(v.body.fields)
  }

  // ---------------------------------------------------------------------------
  // The shape of a tree: everything except the cells' type descriptors

  function Erase<Ty>(l: Layout<Ty>): Layout<()> {
    match l
    case Cell(key, _) => Cell(key, ())
    case Struct(body) => Struct(StructLayout(EraseFields(body.fields)))
    case Enum(key, variants) => Enum(key, EraseVariants(variants))
    case Hash(offset, strategy, element) => Hash(offset, strategy, Erase(element))
  }

  function EraseFields<Ty>(fields: seq<FieldLayout<Ty>>): seq<FieldLayout<()>> {
    if fields == [] then []
    else [EraseField(fields[0])] + EraseFields(fields[1..])
  }

  function EraseField<Ty>(f: FieldLayout<Ty>): FieldLayout<()> {
    FieldLayout(f.name, Erase(f.layout))
  }

  function EraseVariants<Ty>(variants: seq<Variant<Ty>>): seq<Variant<()>> {
    if variants == [] then [] else [EraseVariant(variants[0])] + EraseVariants(variants[1..])
  }

  function EraseVariant<Ty>(v: Variant<Ty>): Variant<()> {
    Variant(v.discriminant, StructLayout(EraseFields(v.body.fields)))
  }

  // ---------------------------------------------------------------------------
  // Well-formed trees

  /** Every enum table in a layout shape is ordered by discriminant, each
      discriminant once, as `NewEnum` builds it. */
  predicate SortedTables(l: Layout<()>) {
    match l
    case Cell(_, _) => true
    case Struct(body) => forall i :: 0 <= i < |body.fields| ==> SortedTables(body.fields[i].layout)
    case Enum(_, variants) =>
      SortedVariants(variants) &&
      forall i, j :: 0 <= i < |variants| && 0 <= j < |variants[i].body.fields| ==> SortedTables(variants[i].body.fields[j].layout)
    case Hash(_, _, element) => SortedTables(element)
  }

  /** A layout is well formed when its shape has sorted tables; the cell
      descriptors play no part. */
  predicate WellFormedLayout<Ty>(l: Layout<Ty>) {
    SortedTables(Erase(l))
  }

  // ---------------------------------------------------------------------------
  // The variant table of an enum

  /** The variant table is ordered by discriminant, each discriminant once. */
  predicate SortedVariants<Ty>(variants: seq<Variant<Ty>>) {
    forall i, j :: 0 <= i < j < |variants| ==> variants[i].discriminant < variants[j].discriminant
  }

  /** The body the table gives for discriminant `d`, if any. */
  function LookupVariant<Ty>(variants: seq<Variant<Ty>>, d: nat): Option<StructLayout<Ty>> {
    if variants == [] then None
    else if variants[0].discriminant == d then Some(variants[0].body)
    else LookupVariant(variants[1..], d)
  }

  /** The body of the last pair for discriminant `d` in a list of pairs. */
  function LastFor<Ty>(pairs: seq<Variant<Ty>>, d: nat): Option<StructLayout<Ty>> {
    if pairs == [] then None
    else if pairs[|pairs| - 1].discriminant == d then Some(pairs[|pairs| - 1].body)
    else LastFor(pairs[..|pairs| - 1], d)
  }

  lemma {:induction false} LookupBelowFirst<Ty>(variants: seq<Variant<Ty>>, d: nat)
    requires SortedVariants(variants)
    requires variants != [] ==> d < variants[0].discriminant
    ensures LookupVariant(variants, d) == None
    decreases |variants|
  {
    if variants != [] {
      LookupBelowFirst(variants[1..], d);
    }
  }

  /** Inserting into the table keeps it ordered; the inserted body replaces
      any earlier one for the same discriminant and nothing else changes. */
  function InsertVariant<Ty>(variants: seq<Variant<Ty>>, v: Variant<Ty>): (r: seq<Variant<Ty>>)
    requires SortedVariants(variants)
    ensures SortedVariants(r) && r != []
    ensures r[0].discriminant == v.discriminant || (variants != [] && r[0] == variants[0])
    ensures forall d :: LookupVariant(r, d) == if d == v.discriminant then Some(v.body) else LookupVariant(variants, d)
    decreases |variants|
  {
    if variants == [] then [v]
    else if v.discriminant < variants[0].discriminant then
      LookupBelowFirst(variants, v.discriminant);
      [v] + variants
    else if v.discriminant == variants[0].discriminant then
      var r := [v] + variants[1..];
      assert r[1..] == variants[1..];
      LookupBelowFirst(variants[1..], v.discriminant);
      r
    else
      var tail := InsertVariant(variants[1..], v);
      var r := [variants[0]] + tail;
      assert r[1..] == tail;
      r
  }

  /** The variant table built from a list of (discriminant, body) pairs, as
      collecting them into an ordered map does: later pairs win. */
  function CollectVariants<Ty>(pairs: seq<Variant<Ty>>): (r: seq<Variant<Ty>>)
    ensures SortedVariants(r)
  {
    if pairs == [] then [] else InsertVariant(CollectVariants(pairs[..|pairs| - 1]), pairs[|pairs| - 1])
  }

  /** A discriminant above every entry goes to the end of the table. */
  lemma {:induction false} InsertAbove<Ty>(variants: seq<Variant<Ty>>, v: Variant<Ty>)
    requires SortedVariants(variants)
    requires forall i :: 0 <= i < |variants| ==> variants[i].discriminant < v.discriminant
    ensures InsertVariant(variants, v) == variants + [v]
    decreases |variants|
  {
    if variants != [] {
      InsertAbove(variants[1..], v);
      assert [variants[0]] + (variants[1..] + [v]) == variants + [v];
    }
  }

  /** Pairs already listed in increasing discriminant order are collected
      into exactly that table. */
  lemma {:induction false} CollectSortedPairs<Ty>(pairs: seq<Variant<Ty>>)
    requires SortedVariants(pairs)
    ensures CollectVariants(pairs) == pairs
    decreases |pairs|
  {
    if pairs != [] {
      var init := pairs[..|pairs| - 1];
      assert SortedVariants(init);
      CollectSortedPairs(init);
      InsertAbove(init, pairs[|pairs| - 1]);
      assert init + [pairs[|pairs| - 1]] == pairs;
    }
  }

  /** `EnumLayout::new(key, pairs)`: an enum layout dispatching on `key`
      whose table is ordered by discriminant, each discriminant once (which
      body each discriminant gets is `NewEnumTable`). */
  function NewEnum<Ty>(key: LayoutKey, pairs: seq<Variant<Ty>>): (r: Layout<Ty>)
    ensures r.Enum? && r.dispatchKey == key && SortedVariants(r.variants)
  {
    Enum(key, CollectVariants(pairs))
  }

  /** An enum layout is keyed at the given root, its table is ordered by
      discriminant, and for each discriminant it holds the body of the last
      pair that named it (and nothing for a discriminant no pair named). */
  lemma {:induction false} NewEnumTable<Ty>(key: LayoutKey, pairs: seq<Variant<Ty>>, d: nat)
    ensures NewEnum(key, pairs).dispatchKey == key
    ensures SortedVariants(NewEnum(key, pairs).variants)
    ensures LookupVariant(NewEnum(key, pairs).variants, d) == LastFor(pairs, d)
    decreases |pairs|
  {
    if pairs != [] {
      NewEnumTable(key, pairs[..|pairs| - 1], d);
    }
  }
}
