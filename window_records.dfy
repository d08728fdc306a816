/**
 * The records the window registry shares between browser windows:
 * a window's screen rectangle and its `{id, shape, metaData}` record.
 */
module WindowRecords {

  /** A window's screen rectangle: its origin on the screen and its viewport size, in pixels. */
  datatype Rect = Rect(x: int, y: int, w: int, h: int)

  /** The caller's custom data stored with each window; opaque to the registry. */
  type MetaData = string

  /** One entry of the shared window list. */
  datatype WindowRecord = WindowRecord(id: int, shape: Rect, metaData: MetaData)

  /** The ids of a window list, position by position. */
  function Ids(ws: seq<WindowRecord>): (ids: seq<int>)
  {
    seq(|ws|, i requires 0 <= i < |ws| => ws[i].id)
  }

  /** No two records of the list carry the same id. */
  predicate UniqueIds(ws: seq<WindowRecord>)
  {
    forall i, j :: 0 <= i < j < |ws| ==> ws[i].id != ws[j].id
  }

  /** Every id of the list is at most `bound`. */
  predicate IdsAtMost(ws: seq<WindowRecord>, bound: int)
  {
    forall i :: 0 <= i < |ws| ==> ws[i].id <= bound
  }

  /** The field-by-field test that `update` uses: some of x, y, w, h differs. */
  predicate Moved(last: Rect, current: Rect): (r: bool)
    ensures r <==> last != current
  {
    current.x != last.x || current.y != last.y || current.w != last.w || current.h != last.h
  }

}
