/** `PUT /settings`: a partial update of the first settings row, or the
    insertion of a first row with defaults when the table is empty. */
module SettingsUpdate {
  import opened Api
  import opened SettingsTable
  import SettingsGet

  datatype UpdateSettingsRequest = UpdateSettingsRequest(
    shippingPrice: Option<int>,
    productPrice: Option<int>,
    facebookPixelId: Option<string>,
    googleAnalyticsId: Option<string>,
    googleAdsId: Option<string>)

  /** The request supplies at least one field (`!== undefined`). */
  predicate Supplies(req: UpdateSettingsRequest) {
    req.shippingPrice.Some? || req.productPrice.Some? || req.facebookPixelId.Some?
      || req.googleAnalyticsId.Some? || req.googleAdsId.Some?
  }

  /** A supplied price, even 0, replaces the stored one. */
  function SuppliedPrice(v: Option<int>, current: int): int {
    if v.Some? then v.value else current
  }

  /** A supplied identifier, even "", replaces the stored one. */
  function SuppliedId(v: Option<string>, current: Option<string>): Option<string> {
    if v.Some? then v else current
  }

  /** `after` is `before` with the request's `SET` list applied: each supplied
      field, even 0 or "", replaces the stored value, and every other column
      keeps its value. */
  predicate Applied(before: SettingsRow, after: SettingsRow, req: UpdateSettingsRequest) {
    && after.id == before.id
    && (req.shippingPrice.Some? ==> after.shippingPrice == req.shippingPrice.value)
    && (req.shippingPrice.None? ==> after.shippingPrice == before.shippingPrice)
    && (req.productPrice.Some? ==> after.productPrice == req.productPrice.value)
    && (req.productPrice.None? ==> after.productPrice == before.productPrice)
    && (req.facebookPixelId.Some? ==> after.facebookPixelId == req.facebookPixelId)
    && (req.facebookPixelId.None? ==> after.facebookPixelId == before.facebookPixelId)
    && (req.googleAnalyticsId.Some? ==> after.googleAnalyticsId == req.googleAnalyticsId)
    && (req.googleAnalyticsId.None? ==> after.googleAnalyticsId == before.googleAnalyticsId)
    && (req.googleAdsId.Some? ==> after.googleAdsId == req.googleAdsId)
    && (req.googleAdsId.None? ==> after.googleAdsId == before.googleAdsId)
  }

  /** One row after the request's `SET` list has been applied. */
  function Overwritten(row: SettingsRow, req: UpdateSettingsRequest): (r: SettingsRow)
    ensures Applied(row, r, req)
  {
    row.(shippingPrice := SuppliedPrice(req.shippingPrice, row.shippingPrice),
         productPrice := SuppliedPrice(req.productPrice, row.productPrice),
         facebookPixelId := SuppliedId(req.facebookPixelId, row.facebookPixelId),
         googleAnalyticsId := SuppliedId(req.googleAnalyticsId, row.googleAnalyticsId),
         googleAdsId := SuppliedId(req.googleAdsId, row.googleAdsId))
  }

  /** `UPDATE settings SET ... WHERE id = id`: every row carrying the id is
      overwritten, every other row is kept. */
  function Rewritten(rows: seq<SettingsRow>, id: int, req: UpdateSettingsRequest): (r: seq<SettingsRow>)
    ensures |r| == |rows|
    ensures forall i :: 0 <= i < |rows| && rows[i].id == id ==> Applied(rows[i], r[i], req)
    ensures forall i :: 0 <= i < |rows| && rows[i].id != id ==> r[i] == rows[i]
  {
    seq(|rows|, i requires 0 <= i < |rows| => if rows[i].id == id then Overwritten(rows[i], req) else rows[i])
  }

  /** The first row, built with `||`: absent or 0 prices take the defaults,
      absent or empty identifiers are stored as NULL. */
  function Inserted(id: int, req: UpdateSettingsRequest): SettingsRow {
    SettingsRow(id,
                NumberOr(req.shippingPrice, DefaultShippingPrice),
                NumberOr(req.productPrice, DefaultProductPrice),
                Absent(req.facebookPixelId), Absent(req.googleAnalyticsId), Absent(req.googleAdsId))
  }

  /** Writes the settings and returns them. With a row present, the id of the
      first row (`SELECT id ... LIMIT 1`) selects the rows that get exactly the
      supplied fields, and the first of them is returned; if no field is
      supplied the `SET` list is empty and the statement fails. With no row,
      exactly one row is inserted. */
  function UpdateSettings(st: SettingsStore, req: UpdateSettingsRequest): (r: Result<(SettingsStore, Settings)>)
    ensures |st.rows| > 0 && !Supplies(req) ==> r == Err(Internal)
    ensures r.Ok? <==> |st.rows| == 0 || Supplies(req)
    ensures r.Ok? ==> var (st', resp) := r.value;
              && |st'.rows| == (if |st.rows| == 0 then 1 else |st.rows|)
              && resp == Present(st'.rows[0])
    ensures r.Ok? && |st.rows| > 0 ==> var (id, st') := (st.rows[0].id, r.value.0);
              && st'.nextId == st.nextId
              && Applied(st.rows[0], st'.rows[0], req)
              && (forall i :: 0 <= i < |st.rows| && st.rows[i].id == id ==> Applied(st.rows[i], st'.rows[i], req))
              && (forall i :: 0 <= i < |st.rows| && st.rows[i].id != id ==> st'.rows[i] == st.rows[i])
    ensures r.Ok? && |st.rows| == 0 ==> var row := r.value.0.rows[0];
              && r.value.0.nextId == st.nextId + 1 && row.id == st.nextId
              && (req.shippingPrice.None? || req.shippingPrice == Some(0) ==> row.shippingPrice == DefaultShippingPrice)
              && (req.productPrice.None? || req.productPrice == Some(0) ==> row.productPrice == DefaultProductPrice)
              && (req.shippingPrice.Some? && req.shippingPrice.value != 0 ==> row.shippingPrice == req.shippingPrice.value)
              && (req.productPrice.Some? && req.productPrice.value != 0 ==> row.productPrice == req.productPrice.value)
              && (!Truthy(req.facebookPixelId) ==> row.facebookPixelId.None?)
              && (!Truthy(req.googleAnalyticsId) ==> row.googleAnalyticsId.None?)
              && (!Truthy(req.googleAdsId) ==> row.googleAdsId.None?)
              && (Truthy(req.facebookPixelId) ==> row.facebookPixelId == req.facebookPixelId)
              && (Truthy(req.googleAnalyticsId) ==> row.googleAnalyticsId == req.googleAnalyticsId)
              && (Truthy(req.googleAdsId) ==> row.googleAdsId == req.googleAdsId)
  {
    if |st.rows| > 0 then
      if !Supplies(req) then
        Err(Internal)
      else
        var rows := Rewritten(st.rows, st.rows[0].id, req);
        Ok((st.(rows := rows), Present(rows[0])))
    else
      var row := Inserted(st.nextId, req);
      Ok((SettingsStore([row], st.nextId + 1), Present(row)))
  }

  /** In a table whose ids are distinct, as the serial column makes them, the
      update changes only the first row. */
  lemma OnlyFirstRowChanges(st: SettingsStore, req: UpdateSettingsRequest)
    requires DistinctIds(st.rows)
    requires |st.rows| > 0 && Supplies(req)
    ensures var st' := UpdateSettings(st, req).value.0;
            forall i :: 1 <= i < |st.rows| ==> st'.rows[i] == st.rows[i]
  {
    var st' := UpdateSettings(st, req).value.0;
    forall i | 1 <= i < |st.rows| ensures st'.rows[i] == st.rows[i] {
      assert st.rows[i].id != st.rows[0].id;
    }
  }

  /** An update keeps the ids distinct and below the serial column's next value. */
  lemma UpdateSettingsPreservesIds(st: SettingsStore, req: UpdateSettingsRequest)
    requires SettingsWellFormed(st)
    requires UpdateSettings(st, req).Ok?
    ensures SettingsWellFormed(UpdateSettings(st, req).value.0)
  {
    var st' := UpdateSettings(st, req).value.0;
    assert forall i :: 0 <= i < |st.rows| ==> st'.rows[i].id == st.rows[i].id;
  }

  /** A table that holds at most one row keeps holding at most one. */
  lemma StaysSingleton(st: SettingsStore, req: UpdateSettingsRequest)
    requires |st.rows| <= 1
    requires UpdateSettings(st, req).Ok?
    ensures |UpdateSettings(st, req).value.0.rows| == 1
  {
  }

  /** On a table of at most one row, reading the settings back returns what
      the update responded. */
  lemma UpdateThenGet(st: SettingsStore, req: UpdateSettingsRequest)
    requires |st.rows| <= 1
    requires UpdateSettings(st, req).Ok?
    ensures SettingsGet.GetSettings(UpdateSettings(st, req).value.0) == UpdateSettings(st, req).value.1
  {
    var st' := UpdateSettings(st, req).value.0;
    assert SettingsGet.NewestIndex(st'.rows) == 0;
  }

  /** With two rows the update writes the first row while a read returns the
      one with the greater id, so the written price is not read back. */
  lemma UpdateAndGetDivergeOnTwoRows()
    ensures var st := SettingsStore([SettingsRow(1, 8000, 99000, None, None, None),
                                     SettingsRow(2, 7000, 99000, None, None, None)], 3);
            var r := UpdateSettings(st, UpdateSettingsRequest(Some(9000), None, None, None, None));
            r.Ok? && r.value.1.shippingPrice == 9000
            && SettingsGet.GetSettings(r.value.0).shippingPrice == 7000
  {
    var st := SettingsStore([SettingsRow(1, 8000, 99000, None, None, None),
                             SettingsRow(2, 7000, 99000, None, None, None)], 3);
    var st' := UpdateSettings(st, UpdateSettingsRequest(Some(9000), None, None, None, None)).value.0;
    assert SettingsGet.NewestIndex(st'.rows[1..]) == 0;
    assert SettingsGet.NewestIndex(st'.rows) == 1;
  }

  /** A price of 0 is written into an existing row but replaced by the
      default when it creates the first row. */
  lemma ZeroPriceUpdateVersusInsert(row: SettingsRow, nextId: int)
    ensures var r := UpdateSettings(SettingsStore([row], nextId),
                                    UpdateSettingsRequest(Some(0), None, None, None, None));
            r.Ok? && r.value.1.shippingPrice == 0
    ensures var r := UpdateSettings(SettingsStore([], nextId),
                                    UpdateSettingsRequest(Some(0), None, None, None, None));
            r.Ok? && r.value.1.shippingPrice == DefaultShippingPrice
  {
  }

  /** A fresh deployment reads the defaults without storing them; the first
      update of the shipping price stores one row whose product price is
      the default. */
  lemma FirstSettingsWrite(nextId: int)
    ensures SettingsGet.GetSettings(SettingsStore([], nextId)) == DefaultSettings
    ensures var r := UpdateSettings(SettingsStore([], nextId),
                                    UpdateSettingsRequest(Some(9000), None, None, None, None));
            r.Ok? && |r.value.0.rows| == 1
            && r.value.0.rows[0].shippingPrice == 9000 && r.value.0.rows[0].productPrice == 99000
  {
  }
}
