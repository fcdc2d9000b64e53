/**
 The catalogue's value types: the three product categories and the immutable
 (type, variant, price) product record.
 */
module Products {
  import opened Wrappers
  import opened Numerals
  import opened Text

  /** The product categories, in declaration order. */
  datatype ProductType = CubeCake | Tart | Pudding

  /** `ProductType.values()`. */
  const AllTypes: seq<ProductType> := [CubeCake, Tart, Pudding]

  /** The name each category was constructed with. */
  function DisplayName(t: ProductType): string {
    match t
    case CubeCake => "Cube Cake"
    case Tart => "Tart"
    case Pudding => "Pudding"
  }

  /** `values()` lists every category exactly once, in the order CUBE_CAKE,
      TART, PUDDING, and no two categories share a display name. */
  lemma CategoriesAndNames(a: ProductType, b: ProductType)
    ensures a in AllTypes && |AllTypes| == 3
    ensures AllTypes[0] == CubeCake && AllTypes[1] == Tart && AllTypes[2] == Pudding
    ensures DisplayName(a) == DisplayName(b) <==> a == b
    ensures DisplayName(CubeCake) == "Cube Cake" && DisplayName(Tart) == "Tart"
    ensures DisplayName(Pudding) == "Pudding"
  {
  }

  /**
   A product. `ref` stands for the identity of the Java object: `Product`
   overrides neither `equals` nor `hashCode`, so two products built
   separately are different cart keys even when type, variant and price
   agree. Each `ref` is taken to be used by one object only, so equality of
   these values coincides with Java's reference equality. Prices are whole
   rupiah; the source places no sign restriction on them.
   */
  datatype Product = Product(ref: nat, ptype: ProductType, variant: string, price: int)

  /** `Product.toString()`: `"{displayName} - {variant} (Rp {price})"`, the
      price grouped with ',' and without decimals. */
  function ProductString(p: Product): string {
    DisplayName(p.ptype) + " - " + p.variant + " (Rp " + GroupedInt(p.price) + ")"
  }

  /** The text of a product starts with its category and variant, and the
      amount inside "(Rp …)" reads back as its price once the grouping commas
      are removed. */
  lemma ProductStringParts(p: Product)
    ensures var s, g := ProductString(p), GroupedInt(p.price);
      && |s| == |DisplayName(p.ptype)| + 3 + |p.variant| + 5 + |g| + 1
      && s[..|s| - |g| - 6] == DisplayName(p.ptype) + " - " + p.variant
      && s[|s| - |g| - 6..|s| - |g| - 1] == " (Rp "
      && s[|s| - 1] == ')'
      && ParseDecimal(StripCommas(s[|s| - |g| - 1..|s| - 1])) == Some(p.price as real)
  {
    var s, g := ProductString(p), GroupedInt(p.price);
    var head := DisplayName(p.ptype) + " - " + p.variant;
    assert s == head + " (Rp " + g + ")";
    assert s[|s| - |g| - 1..|s| - 1] == g;
    ParseDecimalOfGrouped(p.price);
  }
}
