/** `GET /settings`: the newest settings row, or built-in defaults. */
module SettingsGet {
  import opened Api
  import opened SettingsTable

  /** The position of a row with the greatest id (`ORDER BY id DESC LIMIT 1`). */
  function NewestIndex(rows: seq<SettingsRow>): (i: nat)
    requires |rows| > 0
    ensures i < |rows|
    ensures forall j :: 0 <= j < |rows| ==> rows[j].id <= rows[i].id
  {
    if |rows| == 1 then
      0
    else
      var i := NewestIndex(rows[1..]);
      if rows[0].id >= rows[i + 1].id then 0 else i + 1
  }

  /** Reads the settings. An empty table yields the defaults, which are not
      stored; otherwise the row with the greatest id is returned with its
      prices as stored and its empty identifiers left out. The table is only read. */
  function GetSettings(st: SettingsStore): (r: Settings)
    ensures |st.rows| == 0 ==> r == DefaultSettings
    ensures |st.rows| > 0 ==> exists i :: 0 <= i < |st.rows| && IsNewest(st.rows, i) && r == Present(st.rows[i])
    ensures Shown(r.facebookPixelId) && Shown(r.googleAnalyticsId) && Shown(r.googleAdsId)
  {
    if |st.rows| == 0 then DefaultSettings else Present(st.rows[NewestIndex(st.rows)])
  }

  /** Row `i` has the greatest id of the table. */
  predicate IsNewest(rows: seq<SettingsRow>, i: int)
    requires 0 <= i < |rows|
  {
    forall j :: 0 <= j < |rows| ==> rows[j].id <= rows[i].id
  }

  /** In a table with distinct ids, the settings read are exactly those of the
      row with the greatest id. */
  lemma GetReadsGreatestId(st: SettingsStore, i: int)
    requires 0 <= i < |st.rows|
    requires DistinctIds(st.rows)
    requires IsNewest(st.rows, i)
    ensures GetSettings(st) == Present(st.rows[i])
  {
    // Both rows carry the greatest id, and ids are distinct, so they are one row.
    var n := NewestIndex(st.rows);
    assert st.rows[n].id == st.rows[i].id;
  }
}
