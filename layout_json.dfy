/** The JSON document a portable layout serializes to.

    Objects are compared as maps, without regard to member order, as JSON
    values are; variant tables are objects keyed by the decimal digits of the
    discriminant; keys and byte strings use the renderings of module
    `Render`. */
module LayoutJson {

  import opened Wrappers
  import opened Render
  import opened Layout

  datatype Json =
    | Null
    | Number(n: nat)
    | Str(s: string)
    | Array(items: seq<Json>)
    | Object(members: map<string, Json>)

  function HasherName(h: CryptoHasher): string {
    match h
    case Blake2x256 => "Blake2x256"
    case Sha2x256 => "Sha2x256"
    case Keccak256 => "Keccak256"
  }

  function ParseHasher(name: string): Option<CryptoHasher> {
    if name == "Blake2x256" then Some(Blake2x256)
    else if name == "Sha2x256" then Some(Sha2x256)
    else if name == "Keccak256" then Some(Keccak256)
    else None
  }

  /** Hasher, prefix and postfix, under fixed member names; an empty byte
      string (the usual postfix) is written as the empty string. */
  function StrategyJson(s: HashingStrategy): (r: Json)
    ensures r.Object? && r.members.Keys == {"hasher", "prefix", "postfix"}
    ensures r.members["prefix"].Str? && (r.members["prefix"].s == "" <==> s.prefix == [])
    ensures r.members["postfix"].Str? && (r.members["postfix"].s == "" <==> s.postfix == [])
  {
    Object(map["hasher" := Str(HasherName(s.hasher)), "prefix" := Str(RenderBytes(s.prefix)),
               "postfix" := Str(RenderBytes(s.postfix))])
  }

  /** What an offline tool reads back from a strategy object. */
  function ParseStrategy(j: Json): Option<HashingStrategy> {
    if !j.Object? || "hasher" !in j.members || "prefix" !in j.members || "postfix" !in j.members then None
    else
      var h, p, q := j.members["hasher"], j.members["prefix"], j.members["postfix"];
      if !h.Str? || !p.Str? || !q.Str? then None
      else
        match (ParseHasher(h.s), ParseBytes(p.s), ParseBytes(q.s))
        case (Some(hasher), Some(prefix), Some(postfix)) => Some(HashingStrategy(hasher, prefix, postfix))
        case _ => None
  }

  /** The strategy survives serialization: the hasher, the prefix and the
      postfix are recovered exactly, an empty postfix included. */
  lemma StrategyRoundTrip(s: HashingStrategy)
    ensures ParseStrategy(StrategyJson(s)) == Some(s)
  {
    var j := StrategyJson(s);
    assert j.members["hasher"] == Str(HasherName(s.hasher));
    assert j.members["prefix"] == Str(RenderBytes(s.prefix));
    assert j.members["postfix"] == Str(RenderBytes(s.postfix));
    assert ParseHasher(HasherName(s.hasher)) == Some(s.hasher);
    RenderBytesRoundTrip(s.prefix);
    RenderBytesRoundTrip(s.postfix);
  }

  function KeyJson(k: LayoutKey): Json {
    Str(RenderKey(k))
  }

  /** Every layout is an object with exactly one member, whose name tells the
      kind of the layout. */
  function LayoutToJson(l: Layout<nat>): (r: Json)
    ensures r.Object? && |r.members| == 1
    ensures l.Cell? <==> "cell" in r.members
    ensures l.Struct? <==> "struct" in r.members
    ensures l.Enum? <==> "enum" in r.members
    ensures l.Hash? <==> "hash" in r.members
  {
    match l
    case Cell(key, ty) =>
      Object(map["cell" := Object(map["key" := KeyJson(key), "ty" := Number(ty)])])
    case Struct(body) =>
      Object(map["struct" := Object(map["fields" := Array(FieldsJson(body.fields))])])
    case Enum(key, variants) =>
      Object(map["enum" := Object(map["dispatchKey" := KeyJson(key), "variants" := Object(VariantsJson(variants))])])
    case Hash(offset, strategy, element) =>
      Object(map["hash" := Object(map["layout" := LayoutToJson(element), "offset" := KeyJson(offset),
                                      "strategy" := StrategyJson(strategy)])])
  }

  /** A field name, or `null` for a field of a tuple struct. */
  function NameJson(name: Option<string>): Json {
    match name
    case None => Null
    case Some(n) => Str(n)
  }

  function FieldJson(f: FieldLayout<nat>): Json {
    Object(map["layout" := LayoutToJson(f.layout), "name" := NameJson(f.name)])
  }

  function FieldsJson(fields: seq<FieldLayout<nat>>): seq<Json> {
    if fields == [] then [] else [FieldJson(fields[0])] + FieldsJson(fields[1..])
  }

  function VariantJson(v: Variant<nat>): Json {
    Object(map["fields" := Array(FieldsJson(v.body.fields))])
  }

  /** The variant table as an object keyed by decimal discriminants. */
  function VariantsJson(variants: seq<Variant<nat>>): map<string, Json> {
    if variants == [] then map[]
    else VariantsJson(variants[..|variants| - 1])[Decimal(variants[|variants| - 1].discriminant) := VariantJson(variants[|variants| - 1])]
  }

  /** The names of a table's variants: their discriminants in decimal. */
  function VariantNames(variants: seq<Variant<nat>>): seq<string> {
    if variants == [] then [] else VariantNames(variants[..|variants| - 1]) + [Decimal(variants[|variants| - 1].discriminant)]
  }

  /** The table object has a member for each variant name and no other. */
  lemma {:induction false} VariantsJsonKeys(variants: seq<Variant<nat>>)
    ensures forall k :: k in VariantsJson(variants) <==> k in VariantNames(variants)
    decreases |variants|
  {
    if variants != [] {
      VariantsJsonKeys(variants[..|variants| - 1]);
    }
  }

  /** Each variant of an ordered table appears under the decimal digits of its
      discriminant, with its own fields. */
  lemma {:induction false} VariantsJsonMembers(variants: seq<Variant<nat>>)
    requires SortedVariants(variants)
    ensures forall i :: 0 <= i < |variants| ==>
      Decimal(variants[i].discriminant) in VariantsJson(variants) &&
      VariantsJson(variants)[Decimal(variants[i].discriminant)] == VariantJson(variants[i])
    decreases |variants|
  {
    if variants != [] {
      var n := |variants| - 1;
      var init, last := variants[..n], variants[n];
      assert SortedVariants(init);
      VariantsJsonMembers(init);
      var m := VariantsJson(init);
      var lastName := Decimal(last.discriminant);
      assert VariantsJson(variants) == m[lastName := VariantJson(last)];
      forall i | 0 <= i < n
        ensures Decimal(variants[i].discriminant) in m && Decimal(variants[i].discriminant) != lastName
        ensures m[Decimal(variants[i].discriminant)] == VariantJson(variants[i])
      {
        assert variants[i] == init[i];
        DecimalDistinct(variants[i].discriminant, last.discriminant);
      }
    }
  }

  lemma DecimalDistinct(m: nat, n: nat)
    requires m < n
    ensures Decimal(m) != Decimal(n)
  {
    if Decimal(m) == Decimal(n) {
      DecimalInjective(m, n);
    }
  }

  /** An enum's table is keyed by discriminant name; a variant without
      fields serializes to an empty field list. */
  lemma EnumJson(key: LayoutKey, variants: seq<Variant<nat>>, v: Variant<nat>)
    requires SortedVariants(variants) && v in variants
    ensures Decimal(v.discriminant) in LayoutToJson(Enum(key, variants)).members["enum"].members["variants"].members
    ensures LayoutToJson(Enum(key, variants)).members["enum"].members["dispatchKey"] == Str(RenderKey(key))
    ensures LayoutToJson(Enum(key, variants)).members["enum"].members["variants"].members[Decimal(v.discriminant)]
         == Object(map["fields" := Array(FieldsJson(v.body.fields))])
    ensures v.body.fields == [] ==>
      LayoutToJson(Enum(key, variants)).members["enum"].members["variants"].members[Decimal(v.discriminant)]
      == Object(map["fields" := Array([])])
  {
    VariantsJsonMembers(variants);
    var i :| 0 <= i < |variants| && variants[i] == v;
  }
}
