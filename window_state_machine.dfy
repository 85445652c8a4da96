/**
 * The X11 toolkit's table of windows that wait for a MapNotify event
 * (sun.awt.X11.WindowStateMachine). A window is entered when it has been
 * raised or mapped and is removed when the notification arrives; the toolkit
 * asks whether any window is still waiting to be shown.
 */
module WindowStates {

  /** The two waiting states of a window. */
  datatype State =
    | RaisedAndWaitingForMapNotify
    | MappedAndWaitingForMapNotify

  class WindowStateMachine {
    /** Window id to its waiting state (the source's LinkedHashMap). */
    var waitingWindows: map<int, State>

    constructor ()
      ensures waitingWindows == map[]
    {
      waitingWindows := map[];
    }

    /** Records that `windowId` was raised and now waits for its MapNotify. */
    method WaitForNotifyAfterRaise(windowId: int)
      modifies this
      ensures windowId in waitingWindows
      ensures waitingWindows[windowId] == RaisedAndWaitingForMapNotify
      ensures forall id :: id != windowId ==> SameEntry(old(waitingWindows), waitingWindows, id)
      ensures waitingWindows.Keys == old(waitingWindows).Keys + {windowId}
    {
      waitingWindows := waitingWindows[windowId := RaisedAndWaitingForMapNotify];
    }

    /** Records that `windowId` was mapped and now waits for its MapNotify. */
    method WaitForNotifyAfterMap(windowId: int)
      modifies this
      ensures windowId in waitingWindows
      ensures waitingWindows[windowId] == MappedAndWaitingForMapNotify
      ensures forall id :: id != windowId ==> SameEntry(old(waitingWindows), waitingWindows, id)
      ensures waitingWindows.Keys == old(waitingWindows).Keys + {windowId}
    {
      waitingWindows := waitingWindows[windowId := MappedAndWaitingForMapNotify];
    }

    /** The MapNotify for `windowId` arrived: it no longer waits. Absent ids are ignored. */
    method Notify(windowId: int)
      modifies this
      ensures windowId !in waitingWindows
      ensures forall id :: id != windowId ==> SameEntry(old(waitingWindows), waitingWindows, id)
      ensures waitingWindows.Keys == old(waitingWindows).Keys - {windowId}
      ensures windowId !in old(waitingWindows) ==> waitingWindows == old(waitingWindows)
    {
      waitingWindows := waitingWindows - {windowId};
    }

    /** Whether at least one window is still waiting to be shown. */
    function IsWaitingForWindowShow(): (r: bool)
      reads this
      ensures r <==> exists id :: id in waitingWindows
    {
      NonEmptyHasKey(waitingWindows);
      waitingWindows != map[]
    }
  }

  lemma NonEmptyHasKey(m: map<int, State>)
    ensures m != map[] <==> exists id :: id in m
  {
    if forall id :: id !in m {
      assert m == map[];
    }
  }

  /** `id` has the same entry (or the same absence) in both tables. */
  predicate SameEntry(before: map<int, State>, after: map<int, State>, id: int)
  {
    (id in before <==> id in after) && (id in before ==> before[id] == after[id])
  }

  /**
   * Starting from an empty table, a raise (or a map) of one window followed
   * by the notification for that same window leaves no window waiting.
   */
  method RaiseOrMapThenNotify(windowId: int, raised: bool) returns (waiting: bool)
    ensures !waiting
  {
    var machine := new WindowStateMachine();
    if raised {
      machine.WaitForNotifyAfterRaise(windowId);
    } else {
      machine.WaitForNotifyAfterMap(windowId);
    }
    assert machine.IsWaitingForWindowShow();
    machine.Notify(windowId);
    waiting := machine.IsWaitingForWindowShow();
  }

  /** While a second window still waits, notifying the first keeps the toolkit waiting. */
  method NotifyOneOfTwo(first: int, second: int) returns (waiting: bool)
    requires first != second
    ensures waiting
  {
    var machine := new WindowStateMachine();
    machine.WaitForNotifyAfterRaise(first);
    machine.WaitForNotifyAfterMap(second);
    machine.Notify(first);
    waiting := machine.IsWaitingForWindowShow();
  }
}
