/**
 * Two windows of one origin sharing a fresh store, driven the way the
 * browser drives them: each write to "windows" is delivered to the other
 * window's storage handler.
 */
module Scenarios {
  import opened Optional
  import opened WindowRecords
  import opened WindowManagement

  /**
   * Window A opens, then window B; A hears B's write, then B closes with
   * the src/ close handler and A hears that write. The ids are 1 and 2, A's
   * list follows the store, and A's window-set callback fires twice.
   */
  method TwoWindowsOpenAndOneCloses(shapeA: Rect, shapeB: Rect, metaA: MetaData, metaB: MetaData)
    returns (idA: int, idB: int, seenByA: seq<WindowRecord>, afterClose: seq<WindowRecord>, effectsOfA: seq<Effect>)
    ensures idA == 1 && idB == 2
    ensures seenByA == [WindowRecord(1, shapeA, metaA), WindowRecord(2, shapeB, metaB)]
    ensures afterClose == [WindowRecord(1, shapeA, metaA)]
    ensures effectsOfA == [WroteCount(1), WroteWindows([WindowRecord(1, shapeA, metaA)]),
                           WindowsCallbackFired, WindowsCallbackFired]
  {
    var store := new Store();
    var a := new WindowManager(store);
    a.SetWinChangeCallback(true);
    a.Init(metaA, shapeA);
    var b := new WindowManager(store);
    b.Init(metaB, shapeB);
    idA, idB := a.id, b.id;

    var heard := a.OnStorage("windows", store.windows);
    seenByA := a.windows;

    var closed := b.OnBeforeUnload();
    heard := a.OnStorage("windows", store.windows);
    afterClose := a.windows;
    effectsOfA := a.effects;
  }

  /**
   * The same two windows under the tmws/ close handler: B's close throws
   * before touching the list, so B's record stays in the store.
   */
  method TmwsCloseLeavesRecord(shapeA: Rect, shapeB: Rect, metaA: MetaData, metaB: MetaData)
    returns (storedAfterClose: seq<WindowRecord>)
    ensures storedAfterClose == [WindowRecord(1, shapeA, metaA), WindowRecord(2, shapeB, metaB)]
  {
    var store := new Store();
    var a := new WindowManager(store);
    a.Init(metaA, shapeA);
    var b := new WindowManager(store);
    b.Init(metaB, shapeB);
    var closed := b.OnBeforeUnloadTmws();
    storedAfterClose := StoredList(store.windows);
  }
}
