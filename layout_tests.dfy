/** The layouts of the metadata tests and the documents they must produce.

    Each builder constructs the layout of one test type from a root key; each
    lemma states the exact JSON document the compacted layout serializes to,
    starting from an empty registry. */
module LayoutScenarios {

  import opened Wrappers
  import opened Render
  import opened Layout
  import opened Portable
  import opened LayoutJson

  /** The type descriptors the tests use. */
  datatype TypeInfo = I32 | I64 | Bool | Tuple(elems: seq<TypeInfo>)

  /** A struct with named fields `a: i32` and `b: i64`: its cells hold an
      i32 and then an i64. */
  function NamedFieldsStructLayout(key: StorageKey): (l: Layout<TypeInfo>)
    ensures l.Struct? && CellTypes(l) == [I32, I64]
  {
    TwoCellTypes(key, Some("a"), Some("b"));
    Struct(StructLayout([FieldLayout(Some("a"), Cell(key, I32)), FieldLayout(Some("b"), Cell(key, I64))]))
  }

  /** The tuple struct `(i32, i64)`: the same cells, unnamed. */
  function TupleStructLayout(key: StorageKey): (l: Layout<TypeInfo>)
    ensures l.Struct? && CellTypes(l) == [I32, I64]
  {
    TwoCellTypes(key, None, None);
    Struct(StructLayout([FieldLayout(None, Cell(key, I32)), FieldLayout(None, Cell(key, I64))]))
  }

  /** A C-like enum of three variants: a table of three empty bodies for
      discriminants 0, 1 and 2, and no cell. */
  function ClikeEnumLayout(key: StorageKey): (l: Layout<TypeInfo>)
    ensures l.Enum? && l.dispatchKey == key && |l.variants| == 3
    ensures forall i :: 0 <= i < 3 ==> l.variants[i] == Variant(i, StructLayout([]))
  {
    var pairs := [Variant(0, StructLayout([])), Variant(1, StructLayout([])), Variant(2, StructLayout([]))];
    CollectSortedPairs(pairs);
    NewEnum(key, pairs)
  }

  /** An enum with a unit variant, a tuple variant `(i32, i64)` and a struct
      variant `{ a: i32, b: i64 }`, in discriminant order. */
  function MixedEnumLayout(key: StorageKey): (l: Layout<TypeInfo>)
    ensures l.Enum? && l.dispatchKey == key && |l.variants| == 3
    ensures forall i :: 0 <= i < 3 ==> l.variants[i].discriminant == i
    ensures l.variants[0].body.fields == []
    ensures FieldsCellTypes(l.variants[1].body.fields) == FieldsCellTypes(l.variants[2].body.fields) == [I32, I64]
  {
    var pairs := [
      Variant(0, StructLayout([])),
      Variant(1, StructLayout([FieldLayout(None, Cell(key, I32)), FieldLayout(None, Cell(key, I64))])),
      Variant(2, StructLayout([FieldLayout(Some("a"), Cell(key, I32)), FieldLayout(Some("b"), Cell(key, I64))]))
    ];
    CollectSortedPairs(pairs);
    TwoCellTypes(key, None, None);
    TwoCellTypes(key, Some("a"), Some("b"));
    NewEnum(key, pairs)
  }

  /** Two cells holding an i32 and an i64, whatever the fields are called. */
  lemma TwoCellTypes(key: StorageKey, n0: Option<string>, n1: Option<string>)
    ensures FieldsCellTypes([FieldLayout(n0, Cell(key, I32)), FieldLayout(n1, Cell(key, I64))]) == [I32, I64]
  {
    var fields := [FieldLayout(n0, Cell(key, I32)), FieldLayout(n1, Cell(key, I64))];
    assert fields[1..] == [fields[1]] && fields[1..][1..] == [];
    assert CellTypes(fields[0].layout) == [I32] && CellTypes(fields[1].layout) == [I64];
    assert FieldsCellTypes(fields[1..][1..]) == [];
    assert FieldsCellTypes(fields[1..]) == [I64];
  }

  /** The prefix `b"ink storage hashmap"`. */
  const HashmapPrefix: seq<byte> :=
    [0x69, 0x6e, 0x6b, 0x20, 0x73, 0x74, 0x6f, 0x72, 0x61, 0x67, 0x65, 0x20, 0x68, 0x61, 0x73, 0x68, 0x6d, 0x61, 0x70]

  /** Each byte of the prefix is the ASCII code of the matching character. */
  lemma HashmapPrefixIsAscii(i: nat)
    requires i < |HashmapPrefix|
    ensures |"ink storage hashmap"| == |HashmapPrefix| && HashmapPrefix[i] == "ink storage hashmap"[i] as int
  {
  }

  lemma RenderedHashmapPrefix()
    ensures RenderBytes(HashmapPrefix) == "0x696e6b2073746f7261676520686173686d6170"
  {
    var h := "696e6b20" + "73746f72" + "61676520" + "68617368" + "6d6170";
    RenderedPrefixDigits(HashmapPrefix, h);
    PrefixDigitsJoined(h);
  }

  lemma RenderedPrefixDigits(p: seq<byte>, h: string)
    requires p == HashmapPrefix
    requires h == "696e6b20" + "73746f72" + "61676520" + "68617368" + "6d6170"
    ensures RenderBytes(p) == "0x" + h
  {
    PrefixHex(p);
  }

  lemma PrefixDigitsJoined(h: string)
    requires h == "696e6b20" + "73746f72" + "61676520" + "68617368" + "6d6170"
    ensures "0x" + h == "0x696e6b2073746f7261676520686173686d6170"
  {
  }

  lemma PrefixHex(p: seq<byte>)
    requires p == HashmapPrefix
    ensures BytesHex(p) == "696e6b20" + "73746f72" + "61676520" + "68617368" + "6d6170"
  {
    assert p == [0x69, 0x6e, 0x6b, 0x20] + [0x73, 0x74, 0x6f, 0x72] + [0x61, 0x67, 0x65, 0x20]
              + [0x68, 0x61, 0x73, 0x68] + [0x6d, 0x61, 0x70];
    PrefixChunk0Hex();
    PrefixChunk1Hex();
    PrefixChunk2Hex();
    PrefixChunk3Hex();
    PrefixChunk4Hex();
    ConcatHex([0x69, 0x6e, 0x6b, 0x20], [0x73, 0x74, 0x6f, 0x72], [0x61, 0x67, 0x65, 0x20],
              [0x68, 0x61, 0x73, 0x68], [0x6d, 0x61, 0x70]);
  }

  /** The digits of five chunks, chunk by chunk. */
  lemma ConcatHex(c0: seq<byte>, c1: seq<byte>, c2: seq<byte>, c3: seq<byte>, c4: seq<byte>)
    ensures BytesHex(c0 + c1 + c2 + c3 + c4) == BytesHex(c0) + BytesHex(c1) + BytesHex(c2) + BytesHex(c3) + BytesHex(c4)
  {
    BytesHexAppend(c0 + c1 + c2 + c3, c4);
    BytesHexAppend(c0 + c1 + c2, c3);
    BytesHexAppend(c0 + c1, c2);
    BytesHexAppend(c0, c1);
  }

  lemma PrefixChunk0Hex()
    ensures BytesHex([0x69, 0x6e, 0x6b, 0x20]) == "696e6b20"
  {
    FourBytesHex([0x69, 0x6e, 0x6b, 0x20]);
  }

  lemma PrefixChunk1Hex()
    ensures BytesHex([0x73, 0x74, 0x6f, 0x72]) == "73746f72"
  {
    FourBytesHex([0x73, 0x74, 0x6f, 0x72]);
  }

  lemma PrefixChunk2Hex()
    ensures BytesHex([0x61, 0x67, 0x65, 0x20]) == "61676520"
  {
    FourBytesHex([0x61, 0x67, 0x65, 0x20]);
  }

  lemma PrefixChunk3Hex()
    ensures BytesHex([0x68, 0x61, 0x73, 0x68]) == "68617368"
  {
    FourBytesHex([0x68, 0x61, 0x73, 0x68]);
  }

  lemma PrefixChunk4Hex()
    ensures BytesHex([0x6d, 0x61, 0x70]) == "6d6170"
  {
    var tail: seq<byte> := [0x6d, 0x61, 0x70];
    assert tail[..2][..1] == [0x6d] && tail[..2] == [0x6d, 0x61];
    assert BytesHex([0x6d]) == "6d";
    assert BytesHex([0x6d, 0x61]) == "6d61";
  }

  /** An unbounded collection of `(i32, bool)` elements hashed with
      Blake2x256 under the hashmap prefix. */
  function UnboundedHashingLayout(key: StorageKey): (l: Layout<TypeInfo>)
    ensures l.Hash? && l.offset == key && CellTypes(l) == [Tuple([I32, Bool])]
  {
    Hash(key, HashingStrategy(Blake2x256, HashmapPrefix, []), Cell(key, Tuple([I32, Bool])))
  }

  /** The JSON of a cell with the given key rendering and handle. */
  function CellJson(key: string, ty: nat): Json {
    Object(map["cell" := Object(map["key" := Str(key), "ty" := Number(ty)])])
  }

  function NamedFieldJson(name: Json, layout: Json): Json {
    Object(map["layout" := layout, "name" := name])
  }

  /** Compacting two cells of types i32 then i64 from an empty registry
      gives them handles 0 and 1, whatever their names and keys. */
  lemma TwoFieldsPortable(key: StorageKey, n0: Option<string>, n1: Option<string>)
    ensures FieldsIntoPortable([FieldLayout(n0, Cell(key, I32)), FieldLayout(n1, Cell(key, I64))], NewRegistry())
         == ([FieldLayout(n0, Cell(key, 0)), FieldLayout(n1, Cell(key, 1))], Registry([I32, I64]))
  {
    var f0, f1 := FieldLayout(n0, Cell(key, I32)), FieldLayout(n1, Cell(key, I64));
    var r0, r2 := NewRegistry(), Registry([I32, I64]);
    TwoCellsRegister(key, n0, n1);
    assert [f1][1..] == [];
    assert FieldsIntoPortable([], r2) == ([], r2);
    assert [FieldLayout(n1, Cell(key, 1))] + [] == [FieldLayout(n1, Cell(key, 1))];
    assert FieldsIntoPortable([f1], Registry([I32])) == ([FieldLayout(n1, Cell(key, 1))], r2);
    assert [f0, f1][1..] == [f1];
    assert [FieldLayout(n0, Cell(key, 0))] + [FieldLayout(n1, Cell(key, 1))]
        == [FieldLayout(n0, Cell(key, 0)), FieldLayout(n1, Cell(key, 1))];
    assert FieldsIntoPortable([f0, f1], r0)
        == ([FieldLayout(n0, Cell(key, 0))] + [FieldLayout(n1, Cell(key, 1))], r2);
  }

  /** The i32 cell gets handle 0 in an empty registry, the i64 cell handle 1
      after it. */
  lemma TwoCellsRegister(key: StorageKey, n0: Option<string>, n1: Option<string>)
    ensures FieldIntoPortable(FieldLayout(n0, Cell(key, I32)), NewRegistry()) == (FieldLayout(n0, Cell(key, 0)), Registry([I32]))
    ensures FieldIntoPortable(FieldLayout(n1, Cell(key, I64)), Registry([I32])) == (FieldLayout(n1, Cell(key, 1)), Registry([I32, I64]))
  {
    var r0, r1, r2 := NewRegistry(), Registry([I32]), Registry([I32, I64]);
    assert r0 == Registry([]);
    assert r0.types + [I32] == r1.types;
    assert Register(r0, I32) == (0, r1);
    assert I64 !in r1.types && r1.types + [I64] == r2.types;
    assert Register(r1, I64) == (1, r2);
  }

  /** The JSON items of two compacted cells with handles 0 and 1. */
  lemma TwoFieldsJson(key: StorageKey, n0: Option<string>, n1: Option<string>)
    ensures FieldsJson([FieldLayout(n0, Cell(key, 0)), FieldLayout(n1, Cell(key, 1))])
         == [NamedFieldJson(NameJson(n0), CellJson(RenderKey(key), 0)),
             NamedFieldJson(NameJson(n1), CellJson(RenderKey(key), 1))]
  {
    var p0, p1 := FieldLayout(n0, Cell(key, 0)), FieldLayout(n1, Cell(key, 1));
    assert [p0, p1][1..] == [p1];
    assert [p1][1..] == [];
    assert FieldJson(p0) == NamedFieldJson(NameJson(n0), CellJson(RenderKey(key), 0));
    assert FieldJson(p1) == NamedFieldJson(NameJson(n1), CellJson(RenderKey(key), 1));
    assert FieldsJson([p1]) == [FieldJson(p1)] + FieldsJson([]);
  }

  /** A struct of an i32 cell and an i64 cell under one key, compacted from
      an empty registry: handles 0 and 1, each field under its own name. */
  lemma TwoFieldsStructWork(key: StorageKey, n0: Option<string>, n1: Option<string>)
    ensures IntoPortable(Struct(StructLayout([FieldLayout(n0, Cell(key, I32)), FieldLayout(n1, Cell(key, I64))])), NewRegistry()).1.types
         == [I32, I64]
    ensures LayoutToJson(IntoPortable(Struct(StructLayout([FieldLayout(n0, Cell(key, I32)), FieldLayout(n1, Cell(key, I64))])), NewRegistry()).0)
         == Object(map["struct" := Object(map["fields" := Array([
              NamedFieldJson(NameJson(n0), CellJson(RenderKey(key), 0)),
              NamedFieldJson(NameJson(n1), CellJson(RenderKey(key), 1))])])])
  {
    TwoFieldsPortable(key, n0, n1);
    var fields := [FieldLayout(n0, Cell(key, 0)), FieldLayout(n1, Cell(key, 1))];
    TwoFieldsJson(key, n0, n1);
    assert LayoutToJson(Struct(StructLayout(fields))) == Object(map["struct" := Object(map["fields" := Array(FieldsJson(fields))])]);
  }

  lemma NamedFieldsWork()
    ensures IntoPortable(NamedFieldsStructLayout(345), NewRegistry()).1.types == [I32, I64]
    ensures LayoutToJson(IntoPortable(NamedFieldsStructLayout(345), NewRegistry()).0)
         == Object(map["struct" := Object(map["fields" := Array([
              NamedFieldJson(Str("a"), CellJson("0x00000159", 0)),
              NamedFieldJson(Str("b"), CellJson("0x00000159", 1))])])])
  {
    RenderedKey345();
    TwoFieldsStructWork(345, Some("a"), Some("b"));
  }

  lemma TupleStructWork()
    ensures IntoPortable(TupleStructLayout(234), NewRegistry()).1.types == [I32, I64]
    ensures LayoutToJson(IntoPortable(TupleStructLayout(234), NewRegistry()).0)
         == Object(map["struct" := Object(map["fields" := Array([
              NamedFieldJson(Null, CellJson("0x000000ea", 0)),
              NamedFieldJson(Null, CellJson("0x000000ea", 1))])])])
  {
    RenderedKey234();
    TwoFieldsStructWork(234, None, None);
  }

  lemma UnboundedLayoutWorks()
    ensures IntoPortable(UnboundedHashingLayout(567), NewRegistry()).1.types == [Tuple([I32, Bool])]
    ensures LayoutToJson(IntoPortable(UnboundedHashingLayout(567), NewRegistry()).0)
         == Object(map["hash" := Object(map[
              "layout" := CellJson("0x00000237", 0),
              "offset" := Str("0x00000237"),
              "strategy" := Object(map["hasher" := Str("Blake2x256"),
                                       "prefix" := Str("0x696e6b2073746f7261676520686173686d6170"),
                                       "postfix" := Str("")])])])
  {
    var strategy := HashingStrategy(Blake2x256, HashmapPrefix, []);
    var r0 := NewRegistry();
    assert r0.types == [] && r0.types + [Tuple([I32, Bool])] == [Tuple([I32, Bool])];
    assert IntoPortable(Cell(567, Tuple([I32, Bool])), r0) == (Cell(567, 0), Registry([Tuple([I32, Bool])]));
    assert IntoPortable(UnboundedHashingLayout(567), r0) == (Hash(567, strategy, Cell(567, 0)), Registry([Tuple([I32, Bool])]));
    RenderedKey567();
    RenderedHashmapPrefix();
    assert StrategyJson(strategy) == Object(map["hasher" := Str("Blake2x256"),
                                       "prefix" := Str("0x696e6b2073746f7261676520686173686d6170"),
                                       "postfix" := Str("")]);
  }

  /** Compacting the same two cells against a registry that already holds
      both descriptors reuses handles 0 and 1 and adds nothing. */
  lemma TwoFieldsPortableAgain(key: StorageKey, n0: Option<string>, n1: Option<string>)
    ensures FieldsIntoPortable([FieldLayout(n0, Cell(key, I32)), FieldLayout(n1, Cell(key, I64))], Registry([I32, I64]))
         == ([FieldLayout(n0, Cell(key, 0)), FieldLayout(n1, Cell(key, 1))], Registry([I32, I64]))
  {
    var f0, f1 := FieldLayout(n0, Cell(key, I32)), FieldLayout(n1, Cell(key, I64));
    var r := Registry([I32, I64]);
    assert IndexOf(r.types, I32) == 0;
    assert IndexOf(r.types, I64) == 1;
    assert FieldIntoPortable(f0, r) == (FieldLayout(n0, Cell(key, 0)), r);
    assert FieldIntoPortable(f1, r) == (FieldLayout(n1, Cell(key, 1)), r);
    assert [f1][1..] == [];
    assert FieldsIntoPortable([], r) == ([], r);
    assert [FieldLayout(n1, Cell(key, 1))] + [] == [FieldLayout(n1, Cell(key, 1))];
    assert FieldsIntoPortable([f1], r) == ([FieldLayout(n1, Cell(key, 1))], r);
    assert [f0, f1][1..] == [f1];
    assert [FieldLayout(n0, Cell(key, 0))] + [FieldLayout(n1, Cell(key, 1))]
        == [FieldLayout(n0, Cell(key, 0)), FieldLayout(n1, Cell(key, 1))];
    assert FieldsIntoPortable([f0, f1], r)
        == ([FieldLayout(n0, Cell(key, 0))] + [FieldLayout(n1, Cell(key, 1))], r);
  }

  /** A table with discriminants 0, 1 and 2 serializes to an object with the
      members "0", "1" and "2". */
  lemma ThreeVariantsJson(w0: Variant<nat>, w1: Variant<nat>, w2: Variant<nat>)
    requires w0.discriminant == 0 && w1.discriminant == 1 && w2.discriminant == 2
    ensures VariantsJson([w0, w1, w2]) == map["0" := VariantJson(w0), "1" := VariantJson(w1), "2" := VariantJson(w2)]
  {
    assert Decimal(0) == "0" && Decimal(1) == "1" && Decimal(2) == "2";
    var ws := [w0, w1, w2];
    assert ws[..2] == [w0, w1] && ws[..2][..1] == [w0] && ws[..2][..1][..0] == [];
    assert VariantsJson([w0]) == map["0" := VariantJson(w0)];
    assert VariantsJson([w0, w1]) == map["0" := VariantJson(w0), "1" := VariantJson(w1)];
  }

  /** A variant without fields compacts to itself and leaves the registry as
      it is. */
  lemma EmptyVariantPortable(d: nat, reg: Registry<TypeInfo>)
    ensures VariantIntoPortable(Variant(d, StructLayout([])), reg) == (Variant(d, StructLayout([])), reg)
  {
  }

  lemma ClikeEnumWork()
    ensures IntoPortable(ClikeEnumLayout(123), NewRegistry()).1.types == []
    ensures LayoutToJson(IntoPortable(ClikeEnumLayout(123), NewRegistry()).0)
         == Object(map["enum" := Object(map[
              "dispatchKey" := Str("0x0000007b"),
              "variants" := Object(map["0" := Object(map["fields" := Array([])]),
                                       "1" := Object(map["fields" := Array([])]),
                                       "2" := Object(map["fields" := Array([])])])])])
  {
    var v0, v1, v2 := Variant(0, StructLayout([])), Variant(1, StructLayout([])), Variant(2, StructLayout([]));
    var w0, w1, w2 := Variant(0, StructLayout([])), Variant(1, StructLayout([])), Variant(2, StructLayout([]));
    var pairs: seq<Variant<TypeInfo>> := [v0, v1, v2];
    var r0 := NewRegistry();
    CollectSortedPairs(pairs);
    EmptyVariantPortable(0, r0);
    EmptyVariantPortable(1, r0);
    EmptyVariantPortable(2, r0);
    ThreeVariantsPortable(v0, v1, v2, w0, w1, w2, r0, r0, r0, r0);
    assert IntoPortable(ClikeEnumLayout(123), r0) == (Enum(123, [w0, w1, w2]), r0);
    RenderedKey123();
    ThreeVariantsJson(w0, w1, w2);
  }

  /** The compacted form of the mixed enum: variant 1 registers i32 and i64,
      variant 2 reuses their handles. */
  lemma MixedEnumPortable(k: StorageKey)
    ensures IntoPortable(MixedEnumLayout(k), NewRegistry())
         == (Enum(k, [Variant(0, StructLayout([])),
                      Variant(1, StructLayout([FieldLayout(None, Cell(k, 0)), FieldLayout(None, Cell(k, 1))])),
                      Variant(2, StructLayout([FieldLayout(Some("a"), Cell(k, 0)), FieldLayout(Some("b"), Cell(k, 1))]))]),
             Registry([I32, I64]))
  {
    var pairs: seq<Variant<TypeInfo>> := [Variant(0, StructLayout([])),
      Variant(1, StructLayout([FieldLayout(None, Cell(k, I32)), FieldLayout(None, Cell(k, I64))])),
      Variant(2, StructLayout([FieldLayout(Some("a"), Cell(k, I32)), FieldLayout(Some("b"), Cell(k, I64))]))];
    CollectSortedPairs(pairs);
    assert MixedEnumLayout(k) == Enum(k, pairs);
    MixedVariantsPortable(k, pairs[0], pairs[1], pairs[2]);
  }

  lemma MixedVariantsPortable(k: StorageKey, v0: Variant<TypeInfo>, v1: Variant<TypeInfo>, v2: Variant<TypeInfo>)
    requires v0 == Variant(0, StructLayout([]))
    requires v1 == Variant(1, StructLayout([FieldLayout(None, Cell(k, I32)), FieldLayout(None, Cell(k, I64))]))
    requires v2 == Variant(2, StructLayout([FieldLayout(Some("a"), Cell(k, I32)), FieldLayout(Some("b"), Cell(k, I64))]))
    ensures VariantsIntoPortable([v0, v1, v2], NewRegistry())
         == ([Variant(0, StructLayout([])),
              Variant(1, StructLayout([FieldLayout(None, Cell(k, 0)), FieldLayout(None, Cell(k, 1))])),
              Variant(2, StructLayout([FieldLayout(Some("a"), Cell(k, 0)), FieldLayout(Some("b"), Cell(k, 1))]))],
             Registry([I32, I64]))
  {
    var w0 := Variant(0, StructLayout([]));
    var w1 := Variant(1, StructLayout([FieldLayout(None, Cell(k, 0)), FieldLayout(None, Cell(k, 1))]));
    var w2 := Variant(2, StructLayout([FieldLayout(Some("a"), Cell(k, 0)), FieldLayout(Some("b"), Cell(k, 1))]));
    var r0, r2 := NewRegistry(), Registry([I32, I64]);
    EmptyVariantPortable(0, r0);
    TwoFieldsPortable(k, None, None);
    TwoFieldsPortableAgain(k, Some("a"), Some("b"));
    assert VariantIntoPortable(v1, r0) == (w1, r2);
    assert VariantIntoPortable(v2, r2) == (w2, r2);
    ThreeVariantsPortable(v0, v1, v2, w0, w1, w2, r0, r0, r2, r2);
  }

  /** Compacting three variants, one after the other. */
  lemma ThreeVariantsPortable<Ty>(v0: Variant<Ty>, v1: Variant<Ty>, v2: Variant<Ty>,
                                 w0: Variant<nat>, w1: Variant<nat>, w2: Variant<nat>,
                                 r0: Registry<Ty>, r1: Registry<Ty>, r2: Registry<Ty>, r3: Registry<Ty>)
    requires VariantIntoPortable(v0, r0) == (w0, r1)
    requires VariantIntoPortable(v1, r1) == (w1, r2)
    requires VariantIntoPortable(v2, r2) == (w2, r3)
    ensures VariantsIntoPortable([v0, v1, v2], r0) == ([w0, w1, w2], r3)
  {
    TwoVariantsPortable(v1, v2, w1, w2, r1, r2, r3);
    OneMoreVariantPortable(v0, [v1, v2], w0, [w1, w2], r0, r3);
    assert [v0] + [v1, v2] == [v0, v1, v2] && [w0] + [w1, w2] == [w0, w1, w2];
  }

  lemma TwoVariantsPortable<Ty>(v1: Variant<Ty>, v2: Variant<Ty>, w1: Variant<nat>, w2: Variant<nat>,
                               r1: Registry<Ty>, r2: Registry<Ty>, r3: Registry<Ty>)
    requires VariantIntoPortable(v1, r1) == (w1, r2)
    requires VariantIntoPortable(v2, r2) == (w2, r3)
    ensures VariantsIntoPortable([v1, v2], r1) == ([w1, w2], r3)
  {
    var e: seq<Variant<Ty>>, f: seq<Variant<nat>> := [], [];
    assert VariantsIntoPortable(e, r3) == (f, r3);
    OneMoreVariantPortable(v2, e, w2, f, r2, r3);
    assert [v2] + e == [v2] && [w2] + f == [w2];
    OneMoreVariantPortable(v1, [v2], w1, [w2], r1, r3);
    assert [v1] + [v2] == [v1, v2] && [w1] + [w2] == [w1, w2];
  }

  /** Compacting a table one variant longer: the first variant, then the
      rest from the registry it leaves. */
  lemma OneMoreVariantPortable<Ty>(v: Variant<Ty>, vs: seq<Variant<Ty>>, w: Variant<nat>, ws: seq<Variant<nat>>,
                                  r0: Registry<Ty>, r2: Registry<Ty>)
    requires VariantsIntoPortable(vs, VariantIntoPortable(v, r0).1) == (ws, r2)
    requires VariantIntoPortable(v, r0).0 == w
    ensures VariantsIntoPortable([v] + vs, r0) == ([w] + ws, r2)
  {
    assert ([v] + vs)[0] == v && ([v] + vs)[1..] == vs;
  }


  lemma MixedEnumWork()
    ensures IntoPortable(MixedEnumLayout(456), NewRegistry()).1.types == [I32, I64]
    ensures LayoutToJson(IntoPortable(MixedEnumLayout(456), NewRegistry()).0)
         == Object(map["enum" := Object(map[
              "dispatchKey" := Str("0x000001c8"),
              "variants" := Object(map[
                "0" := Object(map["fields" := Array([])]),
                "1" := Object(map["fields" := Array([
                         NamedFieldJson(Null, CellJson("0x000001c8", 0)),
                         NamedFieldJson(Null, CellJson("0x000001c8", 1))])]),
                "2" := Object(map["fields" := Array([
                         NamedFieldJson(Str("a"), CellJson("0x000001c8", 0)),
                         NamedFieldJson(Str("b"), CellJson("0x000001c8", 1))])])])])])
  {
    var k := 456;
    var w0 := Variant(0, StructLayout([]));
    var w1 := Variant(1, StructLayout([FieldLayout(None, Cell(k, 0)), FieldLayout(None, Cell(k, 1))]));
    var w2 := Variant(2, StructLayout([FieldLayout(Some("a"), Cell(k, 0)), FieldLayout(Some("b"), Cell(k, 1))]));
    MixedEnumPortable(k);
    RenderedKey456();
    TwoFieldsJson(k, None, None);
    TwoFieldsJson(k, Some("a"), Some("b"));
    ThreeVariantsJson(w0, w1, w2);
    assert FieldsJson([]) == [];
  }
}
