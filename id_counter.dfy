/**
 * The monotonic window counter stored under the key "count": how `init`
 * turns the stored value into this window's id, and why ids handed out
 * from one store never repeat.
 */
module IdCounter {
  import opened Optional
  import opened WindowRecords

  /** The stored counter as `init` reads it: an absent value reads as 0. */
  function StoredCount(stored: Option<nat>): (n: nat)
    ensures stored == Some(n) || (stored == None && n == 0)
  {
    match stored
    case None => 0
    case Some(n) => n
  }

  /**
   * The id `init` takes: the counter as read, incremented. The first
   * window of a store gets 1, and every id exceeds the stored counter.
   */
  function NextId(stored: Option<nat>): (id: nat)
    ensures id >= 1 && id > StoredCount(stored)
    ensures stored == None ==> id == 1
  {
    StoredCount(stored) + 1
  }

  /**
   * The ids that `k` successive `init` calls on one store hand out, each
   * call reading the counter the previous one wrote back.
   */
  function IdsAssigned(stored: Option<nat>, k: nat): (ids: seq<nat>)
    decreases k
  {
    if k == 0 then [] else [NextId(stored)] + IdsAssigned(Some(NextId(stored)), k - 1)
  }

  /** Successive registrations get strictly increasing ids, all above the counter they started from. */
  lemma {:induction false} IdsAssignedIncrease(stored: Option<nat>, k: nat)
    decreases k
    ensures |IdsAssigned(stored, k)| == k
    ensures forall i :: 0 <= i < k ==> IdsAssigned(stored, k)[i] > StoredCount(stored)
    ensures forall i, j :: 0 <= i < j < k ==> IdsAssigned(stored, k)[i] < IdsAssigned(stored, k)[j]
  {
    if k > 0 {
      var next := NextId(stored);
      var rest := IdsAssigned(Some(next), k - 1);
      IdsAssignedIncrease(Some(next), k - 1);
      assert IdsAssigned(stored, k) == [next] + rest;
      forall i, j | 0 <= i < j < k
        ensures IdsAssigned(stored, k)[i] < IdsAssigned(stored, k)[j]
      {
        if i > 0 {
          assert IdsAssigned(stored, k)[i] == rest[i - 1];
        }
        assert IdsAssigned(stored, k)[j] == rest[j - 1];
      }
    }
  }

  /**
   * The record `init` appends keeps the store's ids unique: when every
   * stored id is at most the stored counter, the new id is above all of
   * them and becomes the new bound.
   */
  lemma AppendNextIdKeepsIdsUnique(ws: seq<WindowRecord>, stored: Option<nat>, shape: Rect, metaData: MetaData)
    requires UniqueIds(ws) && IdsAtMost(ws, StoredCount(stored))
    ensures var r := ws + [WindowRecord(NextId(stored), shape, metaData)];
            UniqueIds(r) && IdsAtMost(r, NextId(stored))
  {
  }
}
