/**
 opers/aggregate.go: windows of an aggregation over one partition. Rows are put in every window that
 contains their event time; a barrier with a watermark closes windows that can get no more rows.
 */
module Windows {

  /** [ws, we): the end is a multiple of the hop. */
  datatype Window = Window(ws: int, we: int)

  ghost predicate Aligned(w: Window, size: int, hop: int)
    requires hop > 0
  {
    w.ws == w.we - size && w.we % hop == 0
  }

  ghost predicate Contains(w: Window, eventTime: int) { w.ws <= eventTime < w.we }

  ghost predicate Sorted(ws: seq<Window>) { forall i, j | 0 <= i < j < |ws| :: ws[i].ws < ws[j].ws }

  lemma {:induction false} AlignedNext(a: int, b: int, hop: int)
    requires hop > 0 && a % hop == 0 && b % hop == 0 && a <= b < a + hop
    ensures a == b
  {
    var d := b - a;
    var q := b / hop - a / hop;
    assert b == hop * (b / hop) && a == hop * (a / hop);
    assert d == hop * q by { assert hop * (b / hop) - hop * (a / hop) == hop * q; }
    assert q >= 1 ==> hop * q >= hop;
    assert q <= -1 ==> hop * q <= -hop;
  }

  /** Division in the source rounds towards zero. */
  function TruncDiv(a: int, b: int): int
    requires b > 0
  {
    if a >= 0 then a / b else -((-a) / b)
  }

  /** The first window end the code tries: hop * (1 + time / hop). */
  function StartEnd(eventTime: int, hop: int): int
    requires hop > 0
  {
    hop * (1 + TruncDiv(eventTime, hop))
  }

  /**
   It is the first multiple of the hop after the time, except before time 0 and off the grid, where
   it is the second.
   */
  lemma {:induction false} StartEndIs(eventTime: int, hop: int)
    requires hop > 0
    ensures var we := StartEnd(eventTime, hop);
            && we % hop == 0 && eventTime < we
            && (eventTime >= 0 ==> we <= eventTime + hop)
            && (eventTime < 0 ==> we == eventTime + hop + (-eventTime) % hop)
  {
    DivUnique(StartEnd(eventTime, hop), hop, 1 + TruncDiv(eventTime, hop));
    if eventTime >= 0 {
      var q := eventTime / hop;
      assert eventTime == hop * q + eventTime % hop;
      assert hop * (1 + q) == hop + hop * q;
    } else {
      var n := -eventTime;
      var q := n / hop;
      assert n == hop * q + n % hop;
      assert hop * (1 - q) == hop - hop * q;
    }
  }

  /** A window that contains the time ends before the first one the code tries. */
  ghost predicate Misses(eventTime: int, size: int, hop: int)
    requires hop > 0
  {
    eventTime < 0 && 0 < (-eventTime) % hop <= size
  }

  /** The code tries all windows of a time if and only if the time is not one of those. */
  lemma {:induction false} NoneMissed(eventTime: int, size: int, hop: int)
    requires hop > 0
    ensures (forall w | Aligned(w, size, hop) && Contains(w, eventTime) :: w.we >= StartEnd(eventTime, hop))
            <==> !Misses(eventTime, size, hop)
  {
    var first, r := StartEnd(eventTime, hop), (-eventTime) % hop;
    StartEndIs(eventTime, hop);
    BackHop(first, hop);
    if Misses(eventTime, size, hop) {
      var w := Window(first - hop - size, first - hop);
      assert Aligned(w, size, hop) && Contains(w, eventTime);
    } else {
      forall w | Aligned(w, size, hop) && Contains(w, eventTime) ensures w.we >= first {
        NotMissed(eventTime, size, hop, w);
      }
    }
  }

  lemma {:induction false} NotMissed(eventTime: int, size: int, hop: int, w: Window)
    requires hop > 0 && Aligned(w, size, hop) && Contains(w, eventTime) && !Misses(eventTime, size, hop)
    ensures w.we >= StartEnd(eventTime, hop)
  {
    var first, r := StartEnd(eventTime, hop), (-eventTime) % hop;
    StartEndIs(eventTime, hop);
    BackHop(first, hop);
    BackHop(first - hop, hop);
    if first - hop <= w.we < first { AlignedNext(first - hop, w.we, hop); }
    if first - 2 * hop <= w.we < first - hop { AlignedNext(first - hop - hop, w.we, hop); }
  }

  lemma {:induction false} AddHop(a: int, hop: int)
    requires hop > 0 && a % hop == 0
    ensures (a + hop) % hop == 0
  {
    var q := a / hop;
    assert a == hop * q;
    assert a + hop == hop * (q + 1);
    DivUnique(a + hop, hop, q + 1);
  }

  lemma {:induction false} DivUnique(x: int, d: int, q: int)
    requires d > 0 && x == d * q
    ensures x % d == 0
  {
    var r := x % d;
    var p := x / d;
    assert x == d * p + r;
    assert r == d * (q - p);
    assert q - p >= 1 ==> d * (q - p) >= d;
    assert q - p <= -1 ==> d * (q - p) <= -d;
  }

  /** findWindow */
  method FindWindow(ws: int, windows: seq<Window>) returns (found: bool)
    ensures found <==> exists w | w in windows :: w.ws == ws
  {
    for i := 0 to |windows|
      invariant forall k | 0 <= k < i :: windows[k].ws != ws
    {
      if windows[i].ws == ws { return true; }
    }
    return false;
  }

  /** addWindow: the window goes to its place; the duplicate panic is not reached. */
  method AddWindow(toAdd: Window, windows: seq<Window>) returns (r: seq<Window>)
    requires Sorted(windows) && forall w | w in windows :: w.ws != toAdd.ws
    ensures Sorted(r) && |r| == |windows| + 1 && forall w :: w in r <==> w in windows || w == toAdd
  {
    var insertPos := 0;
    while insertPos < |windows|
      invariant 0 <= insertPos <= |windows| && forall k | 0 <= k < insertPos :: windows[k].ws < toAdd.ws
    {
      assert windows[insertPos] in windows;
      if windows[insertPos].ws > toAdd.ws { break; }
      insertPos := insertPos + 1;
    }
    r := windows[..insertPos] + [toAdd] + windows[insertPos..];
    assert windows == windows[..insertPos] + windows[insertPos..];
  }

  /** A window that contains the time and is tried. */
  ghost predicate Tried(w: Window, eventTime: int, size: int, hop: int)
    requires hop > 0
  {
    Aligned(w, size, hop) && Contains(w, eventTime) && StartEnd(eventTime, hop) <= w.we
  }

  /** Exactly the windows that contain the time. */
  ghost predicate AllOf(windows: seq<Window>, eventTime: int, size: int, hop: int)
    requires hop > 0
  {
    forall w :: w in windows <==> Aligned(w, size, hop) && Contains(w, eventTime)
  }

  /** Exactly the windows of a time that are tried and end before we, in order. */
  ghost predicate EndingBefore(windows: seq<Window>, eventTime: int, we: int, size: int, hop: int)
    requires hop > 0
  {
    && Sorted(windows)
    && forall w :: w in windows <==> Tried(w, eventTime, size, hop) && w.we < we
  }

  lemma {:induction false} OneMoreWindow(windows: seq<Window>, eventTime: int, we: int, size: int, hop: int)
    requires hop > 0 && we % hop == 0 && we - size <= eventTime < we && EndingBefore(windows, eventTime, we, size, hop)
    requires StartEnd(eventTime, hop) <= we
    ensures EndingBefore(windows + [Window(we - size, we)], eventTime, we + hop, size, hop)
  {
    var entry := Window(we - size, we);
    forall w | Tried(w, eventTime, size, hop) && we <= w.we < we + hop ensures w == entry {
      AlignedNext(we, w.we, hop);
    }
    forall i | 0 <= i < |windows| ensures windows[i].ws < entry.ws { assert windows[i] in windows; }
  }

  lemma {:induction false} NoneBefore(eventTime: int, size: int, hop: int)
    requires hop > 0
    ensures EndingBefore([], eventTime, StartEnd(eventTime, hop), size, hop)
  {
  }

  lemma {:induction false} BackHop(a: int, hop: int)
    requires hop > 0 && a % hop == 0
    ensures (a - hop) % hop == 0
  {
    var q := a / hop;
    assert a == hop * q;
    assert a - hop == hop * (q - 1);
    DivUnique(a - hop, hop, q - 1);
  }

  /** Row `index` of a batch, with the window it was put in. */
  datatype WindowedRow = WindowedRow(index: nat, eventTime: int, window: Window)

  predicate RowBefore(a: WindowedRow, b: WindowedRow) {
    a.index < b.index || (a.index == b.index && a.window.ws < b.window.ws)
  }

  /** In batch order, and the windows of a row in ascending order; so no row comes twice with a window. */
  ghost predicate InBatchOrder(rows: seq<WindowedRow>) {
    forall i, j | 0 <= i < j < |rows| :: RowBefore(rows[i], rows[j])
  }

  /** Rows in batch order are determined by which they are. */
  lemma {:induction false} RowsDetermined(a: seq<WindowedRow>, b: seq<WindowedRow>)
    requires InBatchOrder(a) && InBatchOrder(b) && forall r :: r in a <==> r in b
    ensures a == b
  {
    assert b != [] ==> b[0] in b;
    if a != [] {
      assert a[0] in a && a[0] in b && b[0] in b && b[0] in a;
      assert a == [a[0]] + a[1..] && b == [b[0]] + b[1..];
      assert forall r | r in a[1..] :: RowBefore(a[0], r);
      assert forall r | r in b[1..] :: RowBefore(b[0], r);
      assert a[0] == b[0];
      forall r ensures r in a[1..] <==> r in b[1..] {
        assert r in a <==> r == a[0] || r in a[1..];
        assert r in b <==> r == b[0] || r in b[1..];
        assert !RowBefore(a[0], a[0]);
      }
      RowsDetermined(a[1..], b[1..]);
    }
  }

  class WindowedAggregate {
    const size: int
    const hop: int
    const lateness: int
    var openWindows: seq<Window>
    var watermark: int
    ghost var closed: set<Window>

    /** No row at or before this time is taken any more, and a window that ends here can be closed. */
    ghost predicate TooLate(time: int)
      reads this
    {
      time + lateness <= watermark
    }

    /** Open windows are in order and on the grid. */
    ghost predicate WellFormed()
      reads this
    {
      hop > 0 && size > 0 && Sorted(openWindows) && forall w | w in openWindows :: Aligned(w, size, hop)
    }

    /** Closed windows can get no more rows. */
    ghost predicate Valid()
      reads this
    {
      WellFormed() && forall w | w in closed :: TooLate(w.we - 1) && w !in openWindows
    }

    constructor (size: int, hop: int, lateness: int)
      requires size > 0 && hop > 0
      ensures Valid() && openWindows == [] && closed == {} && watermark == 0
      ensures this.size == size && this.hop == hop && this.lateness == lateness
    {
      this.size, this.hop, this.lateness := size, hop, lateness;
      openWindows, watermark, closed := [], 0, {};
    }

    /** Windows that can be closed come before those that cannot. */
    lemma {:induction false} ClosablePrefix(i: nat, j: nat)
      requires WellFormed() && i < j < |openWindows| && TooLate(openWindows[j].we - 1)
      ensures TooLate(openWindows[i].we - 1)
    {
      assert Aligned(openWindows[i], size, hop) && Aligned(openWindows[j], size, hop);
    }

    /**
     The body of augmentWithWindows for one row: an accepted row goes to exactly the hop-aligned windows
     that contain it, in order, unless its time is one for which the code misses a window. None of them
     was closed before.
     */
    method AugmentRow(eventTime: int) returns (windows: seq<Window>)
      requires WellFormed()
      modifies this`openWindows
      ensures WellFormed() && (old(Valid()) ==> Valid()) && (forall w | w in old(openWindows) :: w in openWindows)
      ensures TooLate(eventTime) ==> windows == [] && openWindows == old(openWindows)
      ensures !TooLate(eventTime) ==> forall w :: w in windows <==> Tried(w, eventTime, size, hop)
      ensures !TooLate(eventTime) ==>
                (AllOf(windows, eventTime, size, hop) <==> !Misses(eventTime, size, hop))
      ensures Sorted(windows) && forall w | w in windows :: w in openWindows && (old(Valid()) ==> w !in closed)
      ensures forall w | w in openWindows :: w in old(openWindows) || w in windows
    {
      hide Aligned, Contains, EndingBefore, Sorted, Tried, StartEnd;
      windows := [];
      NoneSorted();
      if eventTime + lateness <= watermark { return; }
      StartEndIs(eventTime, hop);
      NoneBefore(eventTime, size, hop);
      var we := StartEnd(eventTime, hop);
      var ws := we - size;
      while ws <= eventTime
        invariant ws == we - size && we % hop == 0 && we > eventTime && EndingBefore(windows, eventTime, we, size, hop)
        invariant StartEnd(eventTime, hop) <= we
        invariant WellFormed() && (old(Valid()) ==> Valid()) && (forall w | w in old(openWindows) :: w in openWindows)
        invariant forall w | w in windows :: w in openWindows && (old(Valid()) ==> w !in closed)
        invariant forall w | w in openWindows :: w in old(openWindows) || w in windows
        decreases eventTime - ws
      {
        var entry := Window(ws, we);
        EntryOk(entry, eventTime, size, hop);
        OpenWindow(entry, eventTime);
        OneMoreWindow(windows, eventTime, we, size, hop);
        windows := windows + [entry];
        AddHop(we, hop);
        ws := ws + hop;
        we := we + hop;
      }
      AllWindows(windows, eventTime, we, size, hop);
      WholeIff(windows, eventTime, size, hop);
    }

    /** Finds the window or creates it. */
    method OpenWindow(entry: Window, ghost eventTime: int)
      requires WellFormed() && Aligned(entry, size, hop) && Contains(entry, eventTime) && !TooLate(eventTime)
      modifies this`openWindows
      ensures WellFormed() && (old(Valid()) ==> Valid() && entry !in closed) && entry in openWindows
      ensures forall w :: w in openWindows <==> w in old(openWindows) || w == entry
    {
      var found := FindWindow(entry.ws, openWindows);
      if found {
        var w :| w in openWindows && w.ws == entry.ws;
        assert Aligned(w, size, hop) && w == entry;
      } else {
        openWindows := AddWindow(entry, openWindows);
      }
    }

    /** One of the rows that the first n of the batch give: a row that is not late, in a window that is tried for it. */
    ghost predicate IsRowOf(r: WindowedRow, eventTimes: seq<int>, n: nat)
      requires hop > 0
      reads this
    {
      && r.index < n && r.index < |eventTimes| && r.eventTime == eventTimes[r.index] && !TooLate(r.eventTime)
      && Tried(r.window, r.eventTime, size, hop)
    }

    /**
     augmentWithWindows: in batch order, for each row that is not late, one row for each window that is tried,
     in ascending order. Windows are opened for these rows and no others.
     */
    method AugmentWithWindows(eventTimes: seq<int>) returns (rows: seq<WindowedRow>)
      requires WellFormed()
      modifies this`openWindows
      ensures WellFormed() && (old(Valid()) ==> Valid()) && (forall w | w in old(openWindows) :: w in openWindows)
      ensures InBatchOrder(rows) && forall r :: r in rows <==> IsRowOf(r, eventTimes, |eventTimes|)
      ensures forall r | r in rows :: r.window in openWindows && (old(Valid()) ==> r.window !in closed)
      ensures forall w | w in openWindows :: w in old(openWindows) || exists r :: r in rows && r.window == w
    {
      hide Tried, Aligned, InBatchOrder, Sorted;
      rows := [];
      assert InBatchOrder(rows) by { NoRows(); }
      for i := 0 to |eventTimes|
        invariant WellFormed() && (old(Valid()) ==> Valid()) && (forall w | w in old(openWindows) :: w in openWindows)
        invariant InBatchOrder(rows) && forall r :: r in rows <==> IsRowOf(r, eventTimes, i)
        invariant forall r | r in rows :: r.window in openWindows && (old(Valid()) ==> r.window !in closed)
        invariant forall w | w in openWindows :: w in old(openWindows) || exists r :: r in rows && r.window == w
      {
        var e := eventTimes[i];
        var windows := AugmentRow(e);
        var more := seq(|windows|, k requires 0 <= k < |windows| => WindowedRow(i, e, windows[k]));
        RowsOf(i, e, windows, more);
        OrderKept(rows, more, i);
        forall w | w in windows ensures exists r :: r in rows + more && r.window == w {
          assert WindowedRow(i, e, w) in rows + more;
        }
        rows := rows + more;
      }
    }

    /**
     HandleBarrier: the longest run of windows, from the oldest, that the watermark has passed and
     whose data could be read. Closed windows stay closed exactly as long as the watermark does not go
     back behind one of them.
     */
    method HandleBarrier(wm: int, readable: Window -> bool)
      requires WellFormed()
      modifies this
      ensures WellFormed() && watermark == if wm > 0 then wm else old(watermark)
      ensures old(Valid()) ==> (Valid() <==> wm <= 0 || forall w | w in old(closed) :: w.we - 1 + lateness <= wm)
      ensures wm <= 0 ==> openWindows == old(openWindows) && closed == old(closed)
      ensures wm > 0 ==> exists n | 0 <= n <= |old(openWindows)| ::
                && openWindows == old(openWindows)[n..] && closed == old(closed) + (set w | w in old(openWindows)[..n])
                && (forall k | 0 <= k < n :: TooLate(old(openWindows)[k].we - 1) && readable(old(openWindows)[k]))
                && (n < |old(openWindows)| ==> !TooLate(old(openWindows)[n].we - 1) || !readable(old(openWindows)[n]))
    {
      hide Aligned, Sorted;
      if wm <= 0 { return; }
      watermark := wm;
      var closedPos := 0;
      while closedPos < |openWindows| && openWindows[closedPos].we - 1 + lateness <= wm
        && readable(openWindows[closedPos])
        invariant 0 <= closedPos <= |openWindows|
        invariant forall k | 0 <= k < closedPos :: TooLate(openWindows[k].we - 1) && readable(openWindows[k])
      {
        closedPos := closedPos + 1;
      }
      ghost var was := openWindows;
      closed := closed + set w | w in openWindows[..closedPos];
      openWindows := openWindows[closedPos..];
      DroppedAreGone(was, closedPos);
      forall w | w in was[..closedPos] ensures TooLate(w.we - 1) && w !in openWindows {
        var k :| 0 <= k < closedPos && was[k] == w;
      }
    }
  }

  /** With lateness a row from before time 0 is not late. It is in the window [-10, 0), and is put in none. */
  method RowBeforeZeroIsLost() returns (windows: seq<Window>)
    ensures windows == [] && Aligned(Window(-10, 0), 10, 10) && Contains(Window(-10, 0), -3)
  {
    var a := new WindowedAggregate(10, 10, 100);
    windows := a.AugmentRow(-3);
    StartEndIs(-3, 10);
    NoneIn(windows, -3, 10, 10);
  }

  lemma {:induction false} NoneIn(windows: seq<Window>, eventTime: int, size: int, hop: int)
    requires hop > 0 && StartEnd(eventTime, hop) - size > eventTime
    requires forall w | w in windows :: Tried(w, eventTime, size, hop)
    ensures windows == []
  {
    assert |windows| > 0 ==> windows[0] in windows;
    forall w ensures !Tried(w, eventTime, size, hop) {}
  }

  lemma {:induction false} OnlyWindow(w: Window)
    ensures Tried(w, 5, 10, 10) <==> w == Window(0, 10)
  {
    StartEndIs(5, 10);
    if Tried(w, 5, 10, 10) { AlignedNext(10, w.we, 10); }
  }

  /** A watermark that goes back: a window that was closed is open again. */
  method ClosedWindowReopens() returns (a: WindowedAggregate)
    ensures fresh(a) && Window(0, 10) in a.closed && Window(0, 10) in a.openWindows
  {
    a := new WindowedAggregate(10, 10, 0);
    var _ := a.AugmentRow(5);
    forall w ensures Tried(w, 5, 10, 10) <==> w == Window(0, 10) { OnlyWindow(w); }
    ghost var open := a.openWindows;
    assert Window(0, 10) in open && forall k | 0 <= k < |open| :: open[k] in open && open[k] == Window(0, 10);
    a.HandleBarrier(20, w => true);
    assert open[..|open|] == open;
    assert Window(0, 10) in a.closed;
    a.HandleBarrier(3, w => true);
    var _ := a.AugmentRow(5);
  }

  lemma {:induction false} NoneSorted()
    ensures Sorted([])
  {
  }

  lemma {:induction false} EntryOk(w: Window, eventTime: int, size: int, hop: int)
    requires hop > 0 && w.ws == w.we - size && w.we % hop == 0 && w.ws <= eventTime < w.we
    ensures Aligned(w, size, hop) && Contains(w, eventTime)
  {
  }

  lemma {:induction false} AllWindows(windows: seq<Window>, eventTime: int, we: int, size: int, hop: int)
    requires hop > 0 && EndingBefore(windows, eventTime, we, size, hop) && we - size > eventTime
    ensures Sorted(windows) && forall w :: w in windows <==> Tried(w, eventTime, size, hop)
  {
  }

  lemma {:induction false} WholeIff(windows: seq<Window>, eventTime: int, size: int, hop: int)
    requires hop > 0 && forall w :: w in windows <==> Tried(w, eventTime, size, hop)
    ensures AllOf(windows, eventTime, size, hop) <==> !Misses(eventTime, size, hop)
  {
    hide Aligned, Contains, StartEnd, Misses;
    NoneMissed(eventTime, size, hop);
  }

  lemma {:induction false} NoRows()
    ensures InBatchOrder([])
  {
  }

  lemma {:induction false} RowsOf(i: nat, e: int, windows: seq<Window>, rows: seq<WindowedRow>)
    requires |rows| == |windows| && (forall k | 0 <= k < |rows| :: rows[k] == WindowedRow(i, e, windows[k]))
    requires Sorted(windows)
    ensures forall r :: r in rows <==> r.index == i && r.eventTime == e && r.window in windows
    ensures InBatchOrder(rows)
  {
    forall r ensures r in rows <==> r.index == i && r.eventTime == e && r.window in windows {
      if r.index == i && r.eventTime == e && r.window in windows {
        var k :| 0 <= k < |windows| && windows[k] == r.window;
        assert rows[k] == r;
      }
    }
  }

  lemma {:induction false} OrderKept(rows: seq<WindowedRow>, more: seq<WindowedRow>, i: nat)
    requires InBatchOrder(rows) && InBatchOrder(more)
    requires (forall r | r in rows :: r.index < i) && forall r | r in more :: r.index == i
    ensures InBatchOrder(rows + more)
  {
    var all := rows + more;
    forall a, b | 0 <= a < b < |all| ensures RowBefore(all[a], all[b]) {
      if a < |rows| <= b { assert rows[a] in rows && more[b - |rows|] in more; }
    }
  }

  lemma {:induction false} DroppedAreGone(ws: seq<Window>, n: nat)
    requires Sorted(ws) && n <= |ws|
    ensures Sorted(ws[n..]) && (forall w | w in ws[..n] :: w !in ws[n..]) && forall w | w in ws[n..] :: w in ws
  {
    forall w | w in ws[..n] ensures w !in ws[n..] {
      var i :| 0 <= i < n && ws[i] == w;
      forall k | 0 <= k < |ws[n..]| ensures ws[n..][k] != w { assert ws[n..][k] == ws[n + k]; }
    }
  }
}
