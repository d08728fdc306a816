/**
 * Specification functions over the window list: the id lookup, the
 * "window set changed" test, the in-place edits the registry makes
 * (`splice` and the shape assignment), and what those edits preserve.
 */
module WindowList {
  import opened WindowRecords

  /**
   * The index that `getWindowIndexFromId` returns: the LAST position
   * holding `id` (the scan has no `break`), or -1 when no record has it.
   */
  function LastIndexOf(ws: seq<WindowRecord>, id: int): (r: int)
    ensures -1 <= r < |ws|
    ensures r == -1 <==> forall i :: 0 <= i < |ws| ==> ws[i].id != id
    ensures r >= 0 ==> ws[r].id == id
    ensures forall j :: r < j < |ws| ==> ws[j].id != id
  {
    if ws == [] then -1
    else if ws[|ws| - 1].id == id then |ws| - 1
    else LastIndexOf(ws[..|ws| - 1], id)
  }

  /**
   * The change test of the storage handler: the lengths differ, or some
   * position holds a different id. Shapes and metadata are not compared,
   * and the comparison is positional.
   */
  predicate WindowsChanged(pWins: seq<WindowRecord>, nWins: seq<WindowRecord>): (r: bool)
    ensures r ==> pWins != nWins
  {
    |pWins| != |nWins| || exists i :: 0 <= i < |pWins| && pWins[i].id != nWins[i].id
  }

  /** The change test holds exactly when the two id sequences differ. */
  lemma {:induction false} WindowsChangedIffIdsDiffer(pWins: seq<WindowRecord>, nWins: seq<WindowRecord>)
    ensures WindowsChanged(pWins, nWins) <==> Ids(pWins) != Ids(nWins)
  {
    if WindowsChanged(pWins, nWins) {
      if |pWins| == |nWins| {
        var i :| 0 <= i < |pWins| && pWins[i].id != nWins[i].id;
        assert Ids(pWins)[i] != Ids(nWins)[i];
      } else {
        assert |Ids(pWins)| != |Ids(nWins)|;
      }
    } else {
      assert forall i :: 0 <= i < |pWins| ==> Ids(pWins)[i] == Ids(nWins)[i];
    }
  }

  /** The test is about order: the same two windows listed the other way round count as a change. */
  lemma ReorderingIsAChange(a: WindowRecord, b: WindowRecord)
    requires a.id != b.id
    ensures WindowsChanged([a, b], [b, a])
  {
    assert [a, b][0].id != [b, a][0].id;
  }

  /**
   * The edit `update` makes to the list: the record at `k` gets `shape`.
   * Its id, its metadata, every other record and the order are kept.
   */
  function SetShape(ws: seq<WindowRecord>, k: int, shape: Rect): (r: seq<WindowRecord>)
    requires 0 <= k < |ws|
    ensures |r| == |ws| && Ids(r) == Ids(ws)
    ensures r[k].shape == shape && r[k].id == ws[k].id && r[k].metaData == ws[k].metaData
    ensures forall j :: 0 <= j < |ws| && j != k ==> r[j] == ws[j]
  {
    ws[k := ws[k].(shape := shape)]
  }

  /** Another window that receives the list after a shape edit sees no change in the window set. */
  lemma {:induction false} ShapeEditIsNotAWindowChange(ws: seq<WindowRecord>, k: int, shape: Rect)
    requires 0 <= k < |ws|
    ensures !WindowsChanged(ws, SetShape(ws, k, shape))
  {
    WindowsChangedIffIdsDiffer(ws, SetShape(ws, k, shape));
  }

  /**
   * JavaScript's `ws.splice(start, 1)`: a negative start counts from the
   * end (and is clamped at 0), a start past the end is clamped to the
   * length, and one record is removed when the start is inside the list.
   */
  function SpliceOne(ws: seq<WindowRecord>, start: int): (r: seq<WindowRecord>)
    ensures var k := if start < 0 then (if |ws| + start < 0 then 0 else |ws| + start) else start;
            if k < |ws| then
              |r| == |ws| - 1 &&
              (forall i :: 0 <= i < k ==> r[i] == ws[i]) &&
              (forall i :: k <= i < |r| ==> r[i] == ws[i + 1])
            else r == ws
  {
    var from := if start < 0 then (if |ws| + start < 0 then 0 else |ws| + start)
                else if start > |ws| then |ws| else start;
    if from < |ws| then ws[..from] + ws[from + 1..] else ws
  }

  /** The list without the records that carry `id`, others in their original order. */
  function WithoutId(ws: seq<WindowRecord>, id: int): (r: seq<WindowRecord>)
    ensures |r| <= |ws|
    ensures forall i :: 0 <= i < |r| ==> r[i].id != id
  {
    if ws == [] then []
    else WithoutId(ws[..|ws| - 1], id) + (if ws[|ws| - 1].id == id then [] else [ws[|ws| - 1]])
  }

  /** Every record that does not carry the id survives the removal. */
  lemma {:induction false} WithoutIdKeepsOthers(ws: seq<WindowRecord>, id: int)
    ensures forall x :: x in ws && x.id != id ==> x in WithoutId(ws, id)
  {
    if ws != [] {
      var init := ws[..|ws| - 1];
      WithoutIdKeepsOthers(init, id);
      assert ws == init + [ws[|ws| - 1]];
    }
  }

  /** Splicing one record out keeps the ids unique and keeps any bound on them. */
  lemma SpliceKeepsIdsUnique(ws: seq<WindowRecord>, start: int, bound: int)
    requires UniqueIds(ws)
    ensures UniqueIds(SpliceOne(ws, start))
    ensures IdsAtMost(ws, bound) ==> IdsAtMost(SpliceOne(ws, start), bound)
  {
    var r := SpliceOne(ws, start);
    var k := if start < 0 then (if |ws| + start < 0 then 0 else |ws| + start) else start;
    if k < |ws| {
      forall a, b | 0 <= a < b < |r| ensures r[a].id != r[b].id {
        var a', b' := if a < k then a else a + 1, if b < k then b else b + 1;
        assert r[a] == ws[a'] && r[b] == ws[b'] && a' < b';
      }
    }
  }

  /** Removing an id that no record carries changes nothing. */
  lemma {:induction false} WithoutAbsentId(ws: seq<WindowRecord>, id: int)
    requires forall i :: 0 <= i < |ws| ==> ws[i].id != id
    ensures WithoutId(ws, id) == ws
  {
    if ws != [] {
      WithoutAbsentId(ws[..|ws| - 1], id);
      assert ws[..|ws| - 1] + [ws[|ws| - 1]] == ws;
    }
  }

  /** Splicing inside the list commutes with appending a record after it. */
  lemma SpliceBeforeLast(init: seq<WindowRecord>, last: WindowRecord, k: int)
    requires 0 <= k < |init|
    ensures SpliceOne(init + [last], k) == SpliceOne(init, k) + [last]
  {
    var ws := init + [last];
    assert ws[..k] == init[..k];
    assert ws[k + 1..] == init[k + 1..] + [last];
  }

  /** A prefix of a list with unique ids has unique ids. */
  lemma UniqueIdsPrefix(ws: seq<WindowRecord>, n: nat)
    requires UniqueIds(ws) && n <= |ws|
    ensures UniqueIds(ws[..n])
  {
    forall a, b | 0 <= a < b < n ensures ws[..n][a].id != ws[..n][b].id {
      assert ws[..n][a] == ws[a] && ws[..n][b] == ws[b];
    }
  }

  /**
   * What the close handler does to a list with unique ids that holds the
   * window's own id: exactly that record goes, the others keep their order.
   */
  lemma {:induction false} CloseRemovesOwnRecord(ws: seq<WindowRecord>, id: int)
    requires UniqueIds(ws)
    requires exists i :: 0 <= i < |ws| && ws[i].id == id
    ensures SpliceOne(ws, LastIndexOf(ws, id)) == WithoutId(ws, id)
    ensures |SpliceOne(ws, LastIndexOf(ws, id))| == |ws| - 1
  {
    var n := |ws|;
    var init := ws[..n - 1];
    assert ws == init + [ws[n - 1]];
    var k := LastIndexOf(ws, id);
    if ws[n - 1].id == id {
      forall i | 0 <= i < |init| ensures init[i].id != id {
        assert ws[i].id != ws[n - 1].id;
      }
      WithoutAbsentId(init, id);
    } else {
      var i :| 0 <= i < |ws| && ws[i].id == id;
      assert init[i].id == id;
      UniqueIdsPrefix(ws, n - 1);
      CloseRemovesOwnRecord(init, id);
      SpliceBeforeLast(init, ws[n - 1], k);
    }
  }

  /** When the window's own id is missing, the close handler's `splice(-1, 1)` drops the last record. */
  lemma CloseWithoutOwnRecordDropsLast(ws: seq<WindowRecord>, id: int)
    requires forall i :: 0 <= i < |ws| ==> ws[i].id != id
    ensures |ws| > 0 ==> SpliceOne(ws, LastIndexOf(ws, id)) == ws[..|ws| - 1]
    ensures ws == [] ==> SpliceOne(ws, LastIndexOf(ws, id)) == []
  {
  }
}
