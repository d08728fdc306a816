/**
 * The window registry of one browser window, and the key-value store that
 * all windows of the origin share.
 *
 * One class stands for both copies of the registry (src/ and tmws/): they
 * hold the same fields and run the same operations. The one difference in
 * behaviour, the tmws close handler, is `OnBeforeUnloadTmws`.
 */
module WindowManagement {
  import opened Optional
  import opened WindowRecords
  import opened WindowList
  import opened IdCounter

  /** How a handler or operation ended: normally, or by throwing. */
  datatype ErrorKind = TypeError | SyntaxError
  datatype Completion = Normal | Thrown(error: ErrorKind)

  /** What one registry does that the rest of the page or the store can observe, in order. */
  datatype Effect =
    | WroteCount(count: nat)                        // setItem('count', …)
    | WroteWindows(windows: seq<WindowRecord>)      // setItem('windows', …)
    | ShapeCallbackFired                            // the shape-change callback ran
    | WindowsCallbackFired                          // the window-set-change callback ran

  /** The list as `init` reads it: an absent key reads as the empty list. */
  function StoredList(stored: Option<seq<WindowRecord>>): (ws: seq<WindowRecord>)
    ensures stored == Some(ws) || (stored == None && ws == [])
  {
    match stored
    case None => []
    case Some(ws) => ws
  }

  /** The origin's shared store, holding the keys "windows" and "count". */
  class Store {
    var windows: Option<seq<WindowRecord>>
    var count: Option<nat>

    /** A store that holds neither key. */
    constructor ()
      ensures windows == None && count == None
    {
      windows := None;
      count := None;
    }
  }

  class WindowManager {
    /** The store this window shares with the others. */
    const store: Store
    /** `init` has run, so the fields below hold values (before it, the source's fields are undefined). */
    var registered: bool
    /** This window's local copy of the shared list. */
    var windows: seq<WindowRecord>
    var count: nat
    var id: int
    /** This window's own record. */
    var winData: WindowRecord
    /** Whether a shape-change / window-set-change callback is set. */
    var hasShapeCallback: bool
    var hasWindowsCallback: bool
    /** Everything this registry has written or fired, oldest first. */
    var effects: seq<Effect>

    ghost predicate Valid()
      reads this
    {
      registered ==> 1 <= id && count == id && winData.id == id
    }

    /** A registry not yet registered, with no callbacks and nothing written. */
    constructor (store: Store)
      ensures this.store == store && Valid()
      ensures !registered && !hasShapeCallback && !hasWindowsCallback && effects == []
    {
      this.store := store;
      registered := false;
      windows := [];
      count := 0;
      id := 0;
      winData := WindowRecord(0, Rect(0, 0, 0, 0), "");
      hasShapeCallback := false;
      hasWindowsCallback := false;
      effects := [];
    }

    /**
     * The positional change test of the storage handler: a loop over the
     * old list that sets the flag on every differing id, without a break.
     */
    method DidWindowsChange(pWins: seq<WindowRecord>, nWins: seq<WindowRecord>) returns (changed: bool)
      ensures changed == WindowsChanged(pWins, nWins)
      ensures !changed <==> Ids(pWins) == Ids(nWins)
    {
      WindowsChangedIffIdsDiffer(pWins, nWins);
      if |pWins| != |nWins| {
        return true;
      }
      changed := false;
      var i := 0;
      while i < |pWins|
        invariant 0 <= i <= |pWins|
        invariant changed <==> exists j :: 0 <= j < i && pWins[j].id != nWins[j].id
      {
        if pWins[i].id != nWins[i].id {
          changed := true;
        }
        i := i + 1;
      }
    }

    /**
     * The index of the record carrying `id` in the local list, by a scan
     * that keeps the last match; -1 when there is none.
     */
    method GetWindowIndexFromId(id: int) returns (index: int)
      requires registered
      ensures index == LastIndexOf(windows, id)
      ensures index == -1 <==> forall i :: 0 <= i < |windows| ==> windows[i].id != id
      ensures index >= 0 ==> windows[index].id == id
      ensures forall j :: index < j < |windows| ==> windows[j].id != id
    {
      index := -1;
      var i := 0;
      while i < |windows|
        invariant 0 <= i <= |windows|
        invariant index == LastIndexOf(windows[..i], id)
      {
        assert windows[..i + 1][..i] == windows[..i];
        if windows[i].id == id {
          index := i;
        }
        i := i + 1;
      }
      assert windows[..i] == windows;
    }

    /** Writes the local list under "windows": afterwards the store holds exactly that list. */
    method UpdateWindowsLocalStorage()
      requires registered
      modifies store`windows, this`effects
      ensures store.windows == Some(windows)
      ensures effects == old(effects) + [WroteWindows(windows)]
    {
      store.windows := Some(windows);
      effects := effects + [WroteWindows(windows)];
    }

    /**
     * Registers this window: reads the list (absent: empty) and the counter
     * (absent: 0), takes the incremented counter as id, appends the record
     * `{id, shape, metaData}` and writes back "count", then "windows".
     * The shape is the window's current geometry, read from the host.
     */
    method Init(metaData: MetaData, shape: Rect)
      modifies this, store
      ensures Valid() && registered
      ensures id == NextId(old(store.count)) && count == id
      ensures winData == WindowRecord(id, shape, metaData)
      ensures windows == StoredList(old(store.windows)) + [winData]
      ensures |windows| == |StoredList(old(store.windows))| + 1
      ensures store.count == Some(id) && store.windows == Some(windows)
      ensures effects == old(effects) + [WroteCount(id), WroteWindows(windows)]
      ensures hasShapeCallback == old(hasShapeCallback) && hasWindowsCallback == old(hasWindowsCallback)
      ensures UniqueIds(StoredList(old(store.windows))) &&
              IdsAtMost(StoredList(old(store.windows)), StoredCount(old(store.count))) ==>
                UniqueIds(windows) && IdsAtMost(windows, id)
    {
      if UniqueIds(StoredList(store.windows)) && IdsAtMost(StoredList(store.windows), StoredCount(store.count)) {
        AppendNextIdKeepsIdsUnique(StoredList(store.windows), store.count, shape, metaData);
      }
      windows := StoredList(store.windows);
      count := StoredCount(store.count);
      count := count + 1;
      id := count;
      winData := WindowRecord(id, shape, metaData);
      windows := windows + [winData];
      registered := true;
      store.count := Some(count);
      effects := effects + [WroteCount(count)];
      UpdateWindowsLocalStorage();
    }

    /**
     * The per-frame poll: compares the current geometry with the last known
     * one field by field. Unchanged: nothing happens. Changed: the shape is
     * set in this window's record and in the list entry for its id, the
     * shape callback fires, then the list is written. When the list holds no
     * entry for this id the source indexes `windows[-1]` and throws after
     * updating its own record; before `init` it throws at once.
     */
    method Update(current: Rect) returns (completion: Completion)
      requires Valid()
      modifies this`winData, this`windows, this`effects, store`windows
      ensures Valid()
      ensures !old(registered) ==> completion == Thrown(TypeError)
      ensures !old(registered) || !Moved(old(winData.shape), current) ==>
                winData == old(winData) && windows == old(windows) &&
                effects == old(effects) && store.windows == old(store.windows)
      ensures old(registered) && !Moved(old(winData.shape), current) ==> completion == Normal
      ensures old(registered) && Moved(old(winData.shape), current) ==>
                winData == old(winData).(shape := current)
      ensures old(registered) && Moved(old(winData.shape), current) && LastIndexOf(old(windows), id) == -1 ==>
                completion == Thrown(TypeError) && windows == old(windows) &&
                effects == old(effects) && store.windows == old(store.windows)
      ensures old(registered) && Moved(old(winData.shape), current) && LastIndexOf(old(windows), id) >= 0 ==>
                completion == Normal &&
                windows == SetShape(old(windows), LastIndexOf(old(windows), id), current) &&
                store.windows == Some(windows) &&
                effects == old(effects) + (if hasShapeCallback then [ShapeCallbackFired] else []) + [WroteWindows(windows)]
    {
      if !registered {
        return Thrown(TypeError);
      }
      if Moved(winData.shape, current) {
        winData := winData.(shape := current);
        var index := GetWindowIndexFromId(id);
        if index < 0 {
          return Thrown(TypeError);
        }
        windows := SetShape(windows, index, current);
        if hasShapeCallback {
          effects := effects + [ShapeCallbackFired];
        }
        UpdateWindowsLocalStorage();
      }
      completion := Normal;
    }

    /**
     * The handler for another window's write to the store. Only the key
     * "windows" matters: the new value is parsed (a missing value fails to
     * parse), the change test runs against the old local list, the local
     * list is replaced unconditionally, and the window-set callback fires
     * exactly when the test said the set changed.
     */
    method OnStorage(key: string, newValue: Option<seq<WindowRecord>>) returns (completion: Completion)
      requires Valid()
      modifies this`windows, this`effects
      ensures Valid()
      ensures key != "windows" ==> completion == Normal
      ensures key == "windows" && newValue == None ==> completion == Thrown(SyntaxError)
      ensures key == "windows" && newValue != None && !registered ==> completion == Thrown(TypeError)
      ensures completion != Normal || key != "windows" ==> windows == old(windows) && effects == old(effects)
      ensures key == "windows" && newValue != None && registered ==>
                completion == Normal && windows == newValue.value &&
                effects == old(effects) +
                  (if WindowsChanged(old(windows), newValue.value) && hasWindowsCallback
                   then [WindowsCallbackFired] else [])
    {
      if key == "windows" {
        if newValue == None {
          return Thrown(SyntaxError);
        }
        if !registered {
          return Thrown(TypeError);
        }
        var winChange := DidWindowsChange(windows, newValue.value);
        windows := newValue.value;
        if winChange && hasWindowsCallback {
          effects := effects + [WindowsCallbackFired];
        }
      }
      completion := Normal;
    }

    /**
     * The close handler of src/: removes the entry at this window's index
     * with `splice(index, 1)` and writes the list. When the id is missing
     * the index is -1 and the splice removes the last entry.
     */
    method OnBeforeUnload() returns (completion: Completion)
      requires Valid()
      modifies this`windows, this`effects, store`windows
      ensures Valid()
      ensures !old(registered) ==>
                completion == Thrown(TypeError) &&
                windows == old(windows) && effects == old(effects) && store.windows == old(store.windows)
      ensures old(registered) ==>
                completion == Normal &&
                windows == SpliceOne(old(windows), LastIndexOf(old(windows), id)) &&
                store.windows == Some(windows) &&
                effects == old(effects) + [WroteWindows(windows)]
      ensures old(registered) && UniqueIds(old(windows)) &&
              (exists i :: 0 <= i < |old(windows)| && old(windows)[i].id == id) ==>
                windows == WithoutId(old(windows), id) && |windows| == |old(windows)| - 1
      ensures old(registered) && UniqueIds(old(windows)) ==> UniqueIds(windows)
    {
      if !registered {
        return Thrown(TypeError);
      }
      if UniqueIds(windows) && exists i :: 0 <= i < |windows| && windows[i].id == id {
        CloseRemovesOwnRecord(windows, id);
      }
      var index := GetWindowIndexFromId(id);
      if UniqueIds(windows) {
        SpliceKeepsIdsUnique(windows, index, id);
      }
      windows := SpliceOne(windows, index);
      UpdateWindowsLocalStorage();
      completion := Normal;
    }

    /**
     * The close handler of tmws/: a plain `function` listener, so `this` is
     * the browser window, which has no `getWindowIndexFromId`. The call
     * throws and nothing is removed or written.
     */
    method OnBeforeUnloadTmws() returns (completion: Completion)
      ensures completion == Thrown(TypeError)
    {
      completion := Thrown(TypeError);
    }

    /** Sets or clears the shape-change callback (`present` is the callback's truthiness). */
    method SetWinShapeChangeCallback(present: bool)
      modifies this`hasShapeCallback
      ensures hasShapeCallback == present
    {
      hasShapeCallback := present;
    }

    /** Sets or clears the window-set-change callback. */
    method SetWinChangeCallback(present: bool)
      modifies this`hasWindowsCallback
      ensures hasWindowsCallback == present
    {
      hasWindowsCallback := present;
    }

    /** The local list, as the driver reads it to lay out its cubes; `None` (undefined) before `init`. */
    method GetWindows() returns (ws: Option<seq<WindowRecord>>)
      ensures registered ==> ws == Some(windows)
      ensures !registered ==> ws == None
    {
      ws := if registered then Some(windows) else None;
    }

    /** This window's own record; `None` (undefined) before `init`. */
    method GetThisWindowData() returns (data: Option<WindowRecord>)
      requires Valid()
      ensures registered ==> data == Some(winData) && data.value.id == id
      ensures !registered ==> data == None
    {
      data := if registered then Some(winData) else None;
    }

    /** This window's id, at least 1 once registered; `None` (undefined) before `init`. */
    method GetThisWindowID() returns (thisId: Option<int>)
      requires Valid()
      ensures registered ==> thisId == Some(id) && id >= 1
      ensures !registered ==> thisId == None
    {
      thisId := if registered then Some(id) else None;
    }
  }
}
