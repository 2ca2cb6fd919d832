/** `GET /products/mystery-box`: the store's one product, with a built-in fallback. */
module Products {
  import opened Api
  import SettingsTable

  datatype Product = Product(
    id: int,
    name: string,
    description: string,
    price: int,
    imageUrl: string,
    videoUrl: Option<string>,
    active: bool)

  /** One row of the products table: the slug the lookup filters on, and the
      product the endpoint returns. */
  datatype ProductRow = ProductRow(slug: string, product: Product)

  const MysteryBoxSlug: string := "mystery-box"

  /** What the endpoint returns when no active mystery box is stored; it is
      never written to the table. */
  const FallbackProduct: Product := Product(
    1,
    "Mystery Box - Découvrez la surprise !",
    "Une boîte mystère pleine de surprises d'une valeur supérieure au prix d'achat",
    99000,
    "/mystery-box.jpg",
    Some("/mystery-box-video.mp4"),
    true)

  /** The `WHERE slug = 'mystery-box' AND active = true` filter. */
  predicate IsLiveMysteryBox(row: ProductRow) {
    row.slug == MysteryBoxSlug && row.product.active
  }

  /** The position of the first row the filter keeps, if any. */
  function FirstLive(rows: seq<ProductRow>): (r: Option<nat>)
    ensures r.Some? ==> r.value < |rows| && IsLiveMysteryBox(rows[r.value])
    ensures r.Some? ==> forall j :: 0 <= j < r.value ==> !IsLiveMysteryBox(rows[j])
    ensures r.None? ==> forall j :: 0 <= j < |rows| ==> !IsLiveMysteryBox(rows[j])
  {
    if |rows| == 0 then
      None
    else if IsLiveMysteryBox(rows[0]) then
      Some(0)
    else
      match FirstLive(rows[1..])
      case None => None
      case Some(i) => Some(i + 1)
  }

  /** Looks the mystery box up: the first active row with the slug, or the
      fallback when there is none. Either way the product is active. The
      table is only read. */
  function GetMysteryBox(rows: seq<ProductRow>): (p: Product)
    ensures p.active
    ensures (forall j :: 0 <= j < |rows| ==> !IsLiveMysteryBox(rows[j])) ==> p == FallbackProduct
    ensures (exists j :: 0 <= j < |rows| && IsLiveMysteryBox(rows[j])) ==>
              exists j :: 0 <= j < |rows| && IsLiveMysteryBox(rows[j]) && p == rows[j].product
  {
    match FirstLive(rows)
    case None => FallbackProduct
    case Some(i) => rows[i].product
  }

  /** The fallback is product 1 at the default product price of the settings. */
  lemma FallbackMatchesDefaultPrice()
    ensures FallbackProduct.id == 1
    ensures FallbackProduct.price == SettingsTable.DefaultProductPrice
    ensures GetMysteryBox([]).price == SettingsTable.DefaultProductPrice
  {
  }
}
