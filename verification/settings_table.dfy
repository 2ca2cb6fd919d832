/** The settings table and the settings object both settings endpoints return. */
module SettingsTable {
  import opened Api

  /** One row of the settings table; a `None` identifier is SQL NULL. */
  datatype SettingsRow = SettingsRow(
    id: int,
    shippingPrice: int,
    productPrice: int,
    facebookPixelId: Option<string>,
    googleAnalyticsId: Option<string>,
    googleAdsId: Option<string>)

  /** The rows in storage order and the next value of the serial id column. */
  datatype SettingsStore = SettingsStore(rows: seq<SettingsRow>, nextId: int)

  /** The settings as the API returns them; a `None` identifier is left out. */
  datatype Settings = Settings(
    shippingPrice: int,
    productPrice: int,
    facebookPixelId: Option<string>,
    googleAnalyticsId: Option<string>,
    googleAdsId: Option<string>)

  /** 8 TND, in millimes. */
  const DefaultShippingPrice: int := 8000
  /** 99 TND, in millimes. */
  const DefaultProductPrice: int := 99000

  /** The serial id column hands out each id once, and only below `nextId`. */
  predicate SettingsWellFormed(st: SettingsStore) {
    DistinctIds(st.rows) && forall i :: 0 <= i < |st.rows| ==> st.rows[i].id < st.nextId
  }

  /** No two rows share an id. */
  predicate DistinctIds(rows: seq<SettingsRow>) {
    forall j, k :: 0 <= j < k < |rows| ==> rows[j].id != rows[k].id
  }

  /** What the API reports while no settings row exists. */
  const DefaultSettings: Settings :=
    Settings(DefaultShippingPrice, DefaultProductPrice, None, None, None)

  /** An identifier the response shows: neither left out nor empty. */
  predicate Shown(id: Option<string>) {
    id.None? || id.value != ""
  }

  /** The response for a stored row: prices as stored, NULL or empty
      identifiers left out. */
  function Present(row: SettingsRow): (r: Settings)
    ensures r.shippingPrice == row.shippingPrice && r.productPrice == row.productPrice
    ensures Shown(r.facebookPixelId) && Shown(r.googleAnalyticsId) && Shown(r.googleAdsId)
    ensures r.facebookPixelId.Some? <==> Truthy(row.facebookPixelId)
    ensures r.googleAnalyticsId.Some? <==> Truthy(row.googleAnalyticsId)
    ensures r.googleAdsId.Some? <==> Truthy(row.googleAdsId)
    ensures Truthy(row.facebookPixelId) ==> r.facebookPixelId == row.facebookPixelId
    ensures Truthy(row.googleAnalyticsId) ==> r.googleAnalyticsId == row.googleAnalyticsId
    ensures Truthy(row.googleAdsId) ==> r.googleAdsId == row.googleAdsId
  {
    Settings(row.shippingPrice, row.productPrice,
             Absent(row.facebookPixelId), Absent(row.googleAnalyticsId), Absent(row.googleAdsId))
  }
}
