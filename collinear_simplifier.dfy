/**
 * Marlin's collinear path simplifier (sun.java2d.marlin.DCollinearSimplifier):
 * a filter between a path producer and a path consumer (the delegate) that
 * holds back at most one lineTo and merges consecutive collinear line
 * segments into one before forwarding them.
 *
 * Coordinates are integers, so the merge test is exact; the source computes
 * it on doubles.
 */
module CollinearSimplifier {

  /** The three states of the filter; the source encodes them as 0, 1 and 2. */
  datatype State =
    | PrevLine   // STATE_PREV_LINE = 0: a lineTo to (px2, py2) is held back
    | PrevPoint  // STATE_PREV_POINT = 1: the current point is (px1, py1), nothing held back
    | Empty      // STATE_EMPTY = 2: no current point

  /** The path commands a DPathConsumer2D accepts. */
  datatype Cmd =
    | MoveTo(x: int, y: int)
    | LineTo(x: int, y: int)
    | QuadTo(x1: int, y1: int, x: int, y: int)
    | CurveTo(x1: int, y1: int, x2: int, y2: int, x: int, y: int)
    | ClosePath
    | PathDone

  /**
   * The merge test: the held-back segment has direction (pdx, pdy) and the
   * new segment (dx, dy). Two horizontal segments merge when they point the
   * same way; other segments merge when neither is horizontal and their
   * cross product is zero.
   */
  predicate Mergeable(pdx: int, pdy: int, dx: int, dy: int)
  {
    (dy == 0 && pdy == 0 && pdx * dx >= 0)
    || (pdy * dy != 0 && pdx * dy - pdy * dx == 0)
  }

  /**
   * Only parallel directions merge, and a horizontal segment merges only
   * with a horizontal one.
   */
  lemma MergeableParallel(pdx: int, pdy: int, dx: int, dy: int)
    requires Mergeable(pdx, pdy, dx, dy)
    ensures pdx * dy == pdy * dx
    ensures dy == 0 <==> pdy == 0
  {
    if !(dy == 0 && pdy == 0) {
      assert pdy * dy != 0;
      assert pdy != 0 && dy != 0;
    }
  }

  /** Point (x, y) lies on the line through (x0, y0) with direction (dx, dy). */
  predicate OnLine(x0: int, y0: int, dx: int, dy: int, x: int, y: int)
  {
    dx * (y - y0) - dy * (x - x0) == 0
  }

  /** Horizontal segments merge exactly when they do not point in opposite directions. */
  lemma HorizontalMerge(pdx: int, dx: int)
    ensures Mergeable(pdx, 0, dx, 0) <==> (pdx >= 0 && dx >= 0) || (pdx <= 0 && dx <= 0)
  {
    if pdx > 0 && dx < 0 {
      assert pdx * dx < 0;
    } else if pdx < 0 && dx > 0 {
      assert pdx * dx < 0;
    } else if pdx >= 0 && dx >= 0 {
      assert pdx * dx >= 0;
    } else {
      assert pdx * dx >= 0;
    }
  }

  /**
   * A horizontal segment never merges with a non-horizontal one, and a
   * non-horizontal pair merges exactly when the two directions are parallel.
   */
  lemma SlopedMerge(pdx: int, pdy: int, dx: int, dy: int)
    requires pdy != 0 || dy != 0
    ensures Mergeable(pdx, pdy, dx, dy) <==> pdy != 0 && dy != 0 && pdx * dy == pdy * dx
  {
    if pdy != 0 && dy != 0 {
      assert pdy * dy != 0 by { NonZeroProduct(pdy, dy); }
    } else {
      assert pdy * dy == 0;
    }
  }

  lemma NonZeroProduct(a: int, b: int)
    requires a != 0 && b != 0
    ensures a * b != 0
  {
    if a > 0 && b > 0 { assert a * b >= b; }
    else if a > 0 && b < 0 { assert a * b <= b; }
    else if a < 0 && b > 0 { assert a * b <= -b; }
    else { assert a * b >= -b; }
  }

  /**
   * Going straight back along the held-back segment: the test merges the
   * reversal when the segment is not horizontal, and refuses it when it is
   * horizontal (unless the segment has length zero).
   */
  lemma ReversalMerge(a: int, b: int)
    ensures Mergeable(a, b, -a, -b) <==> b != 0 || a == 0
  {
    if b != 0 {
      NonZeroProduct(b, -b);
      assert a * -b - b * -a == 0;
    } else {
      assert a * -a == -(a * a);
      if a != 0 { NonZeroProduct(a, a); assert a * a > 0 by { ProductPositive(a); } }
    }
  }

  lemma ProductPositive(a: int)
    requires a != 0
    ensures a * a > 0
  {
    if a > 0 { assert a * a >= a; } else { assert a * a >= -a; }
  }

  /** Merging keeps the end point on the held-back segment's line. */
  lemma MergeStaysOnLine(x1: int, y1: int, pdx: int, pdy: int, x2: int, y2: int, xe: int, ye: int)
    requires OnLine(x1, y1, pdx, pdy, x2, y2)
    requires Mergeable(pdx, pdy, xe - x2, ye - y2)
    ensures OnLine(x1, y1, pdx, pdy, xe, ye)
  {
    var dx, dy := xe - x2, ye - y2;
    assert pdx * dy - pdy * dx == 0 by {
      if dy == 0 && pdy == 0 { assert pdx * dy == 0 && pdy * dx == 0; }
    }
    calc {
      pdx * (ye - y1) - pdy * (xe - x1);
      { assert ye - y1 == dy + (y2 - y1); assert xe - x1 == dx + (x2 - x1); }
      pdx * (dy + (y2 - y1)) - pdy * (dx + (x2 - x1));
      (pdx * dy - pdy * dx) + (pdx * (y2 - y1) - pdy * (x2 - x1));
      0;
    }
  }

  /**
   * A held-back segment from (x1, y1) with direction (dx, dy), now ending at
   * (x2, y2) after the points `merged` were merged into it: the end and all
   * merged points lie on its line. A segment of length zero has no
   * direction, so only horizontal moves merge into it and they keep its y.
   */
  predicate HeldSegment(x1: int, y1: int, dx: int, dy: int, x2: int, y2: int, merged: seq<(int, int)>)
  {
    && OnLine(x1, y1, dx, dy, x2, y2)
    && (forall i :: 0 <= i < |merged| ==> OnLine(x1, y1, dx, dy, merged[i].0, merged[i].1))
    && (dx == 0 && dy == 0 ==> y2 == y1 && forall i :: 0 <= i < |merged| ==> merged[i].1 == y1)
  }

  /** A segment just held back, with nothing merged into it yet. */
  lemma NewHeldSegment(x1: int, y1: int, x2: int, y2: int)
    ensures HeldSegment(x1, y1, x2 - x1, y2 - y1, x2, y2, [])
  {
    assert (x2 - x1) * (y2 - y1) == (y2 - y1) * (x2 - x1);
  }

  /** Merging a mergeable lineTo into a held-back segment keeps it one segment. */
  lemma MergeKeepsHeldSegment(x1: int, y1: int, dx: int, dy: int, x2: int, y2: int,
                              merged: seq<(int, int)>, xe: int, ye: int)
    requires HeldSegment(x1, y1, dx, dy, x2, y2, merged)
    requires Mergeable(dx, dy, xe - x2, ye - y2)
    ensures HeldSegment(x1, y1, dx, dy, xe, ye, merged + [(x2, y2)])
  {
    MergeStaysOnLine(x1, y1, dx, dy, x2, y2, xe, ye);
    var m := merged + [(x2, y2)];
    assert forall i :: 0 <= i < |m| ==> m[i] == (if i < |merged| then merged[i] else (x2, y2));
  }

  /**
   * `out` is `inp` with some lineTo commands left out: every other command
   * is kept, and nothing is reordered or invented.
   */
  ghost predicate Thinned(out: seq<Cmd>, inp: seq<Cmd>)
    decreases |inp|
  {
    if inp == [] then out == []
    else
      var last := inp[|inp| - 1];
      (last.LineTo? && Thinned(out, inp[..|inp| - 1]))
      || (out != [] && out[|out| - 1] == last && Thinned(out[..|out| - 1], inp[..|inp| - 1]))
  }

  /** The commands of `cs` other than lineTo, in order. */
  function NonLines(cs: seq<Cmd>): (r: seq<Cmd>)
    ensures |r| <= |cs|
    ensures forall i :: 0 <= i < |r| ==> !r[i].LineTo?
    decreases |cs|
  {
    if cs == [] then []
    else if cs[|cs| - 1].LineTo? then NonLines(cs[..|cs| - 1])
    else NonLines(cs[..|cs| - 1]) + [cs[|cs| - 1]]
  }

  /** Thinning forwards every command other than lineTo, in its input order. */
  lemma {:induction false} ThinnedKeepsNonLines(out: seq<Cmd>, inp: seq<Cmd>)
    requires Thinned(out, inp)
    ensures NonLines(out) == NonLines(inp)
    ensures |out| <= |inp|
    decreases |inp|
  {
    if inp != [] {
      var front := inp[..|inp| - 1];
      if inp[|inp| - 1].LineTo? && Thinned(out, front) {
        ThinnedKeepsNonLines(out, front);
      } else {
        ThinnedKeepsNonLines(out[..|out| - 1], front);
      }
    }
  }

  /** Every lineTo that is forwarded is an input lineTo, in input order. */
  lemma {:induction false} ThinnedLinesFromInput(out: seq<Cmd>, inp: seq<Cmd>, i: int)
    requires Thinned(out, inp)
    requires 0 <= i < |out|
    ensures exists j :: 0 <= j < |inp| && inp[j] == out[i]
    decreases |inp|
  {
    var front := inp[..|inp| - 1];
    if inp[|inp| - 1].LineTo? && Thinned(out, front) {
      ThinnedLinesFromInput(out, front, i);
      var j :| 0 <= j < |front| && front[j] == out[i];
      assert inp[j] == out[i];
    } else if i == |out| - 1 {
      assert inp[|inp| - 1] == out[i];
    } else {
      ThinnedLinesFromInput(out[..|out| - 1], front, i);
      var j :| 0 <= j < |front| && front[j] == out[..|out| - 1][i];
      assert inp[j] == out[i];
    }
  }

  lemma ThinnedAppend(out: seq<Cmd>, inp: seq<Cmd>, c: Cmd)
    requires Thinned(out, inp)
    ensures Thinned(out + [c], inp + [c])
  {
    assert (out + [c])[..|out + [c]| - 1] == out;
    assert (inp + [c])[..|inp + [c]| - 1] == inp;
  }

  class DCollinearSimplifier {
    var state: State
    var px1: int
    var py1: int
    var pdx: int
    var pdy: int
    var px2: int
    var py2: int
    /** The commands forwarded to the delegate since init. */
    var delegate: seq<Cmd>
    /** The commands received since init. */
    ghost var input: seq<Cmd>
    /** End points of the lineTos merged into the held-back segment so far. */
    ghost var merged: seq<(int, int)>

    /** The lineTo held back, if any. */
    function Pending(): (p: seq<Cmd>)
      reads this
      ensures |p| <= 1
      ensures p != [] <==> state == PrevLine
    {
      if state == PrevLine then [Cmd.LineTo(px2, py2)] else []
    }

    /**
     * What has been forwarded plus what is held back is the input with some
     * lineTos left out; the held-back lineTo is the last input command; the
     * points merged into it lie on the line through (px1, py1) with the stored
     * direction. A held-back segment of length zero has no direction, so only
     * horizontal moves merge into it: its end and merged points keep its y.
     */
    ghost predicate Valid()
      reads this
    {
      && Thinned(delegate + Pending(), input)
      && (state == PrevLine ==>
            && input != [] && input[|input| - 1] == Cmd.LineTo(px2, py2)
            && HeldSegment(px1, py1, pdx, pdy, px2, py2, merged))
      && (state != PrevLine ==> merged == [])
    }

    /** Before init every field has Java's default value: state 0 is STATE_PREV_LINE. */
    constructor ()
      ensures state == PrevLine
      ensures px1 == 0 && py1 == 0 && pdx == 0 && pdy == 0 && px2 == 0 && py2 == 0
      ensures delegate == [] && input == [] && merged == []
    {
      state := PrevLine;
      px1, py1, pdx, pdy, px2, py2 := 0, 0, 0, 0, 0, 0;
      delegate, input, merged := [], [], [];
    }

    /** Attaches a fresh delegate and empties the filter; nothing is forwarded. */
    method Init()
      modifies this
      ensures Valid()
      ensures state == Empty && delegate == [] && input == []
      ensures px1 == old(px1) && py1 == old(py1) && pdx == old(pdx) && pdy == old(pdy)
      ensures px2 == old(px2) && py2 == old(py2)
    {
      state := Empty;
      delegate, input, merged := [], [], [];
    }

    /** Forwards the held-back lineTo, if there is one; the state is left alone. */
    method EmitStashedLine()
      modifies this
      ensures delegate == old(delegate) + old(Pending())
      ensures state == old(state) && input == old(input) && merged == old(merged)
      ensures px1 == old(px1) && py1 == old(py1) && pdx == old(pdx) && pdy == old(pdy)
      ensures px2 == old(px2) && py2 == old(py2)
    {
      if state == PrevLine {
        delegate := delegate + [Cmd.LineTo(px2, py2)];
      }
    }

    /** Ends the path: flushes the held-back line, forwards pathDone, empties the filter. */
    method PathDone()
      requires Valid()
      modifies this
      ensures Valid()
      ensures delegate == old(delegate) + old(Pending()) + [Cmd.PathDone]
      ensures input == old(input) + [Cmd.PathDone]
      ensures state == Empty && Thinned(delegate, input)
      ensures px1 == old(px1) && py1 == old(py1) && pdx == old(pdx) && pdy == old(pdy)
      ensures px2 == old(px2) && py2 == old(py2)
    {
      EmitStashedLine();
      ThinnedAppend(delegate, input, Cmd.PathDone);
      delegate := delegate + [Cmd.PathDone];
      input := input + [Cmd.PathDone];
      state := Empty;
      merged := [];
      assert delegate + Pending() == delegate;
    }

    /** Closes the subpath: flushes the held-back line, forwards closePath, empties the filter. */
    method ClosePath()
      requires Valid()
      modifies this
      ensures Valid()
      ensures delegate == old(delegate) + old(Pending()) + [Cmd.ClosePath]
      ensures input == old(input) + [Cmd.ClosePath]
      ensures state == Empty && Thinned(delegate, input)
      ensures px1 == old(px1) && py1 == old(py1) && pdx == old(pdx) && pdy == old(pdy)
      ensures px2 == old(px2) && py2 == old(py2)
    {
      EmitStashedLine();
      ThinnedAppend(delegate, input, Cmd.ClosePath);
      delegate := delegate + [Cmd.ClosePath];
      input := input + [Cmd.ClosePath];
      state := Empty;
      merged := [];
      assert delegate + Pending() == delegate;
    }

    /** The common tail of moveTo, quadTo and curveTo, once the command is forwarded. */
    method ForwardCurrentPoint(c: Cmd, xe: int, ye: int)
      requires Thinned(delegate, input)
      modifies this
      ensures Valid()
      ensures delegate == old(delegate) + [c] && input == old(input) + [c]
      ensures state == PrevPoint && px1 == xe && py1 == ye
      ensures pdx == old(pdx) && pdy == old(pdy) && px2 == old(px2) && py2 == old(py2)
    {
      ThinnedAppend(delegate, input, c);
      delegate := delegate + [c];
      input := input + [c];
      state := PrevPoint;
      px1, py1 := xe, ye;
      merged := [];
      assert delegate + Pending() == delegate;
    }

    /** Quadratic curve: flushes the held-back line, forwards the curve unchanged. */
    method QuadTo(x1: int, y1: int, xe: int, ye: int)
      requires Valid()
      modifies this
      ensures Valid()
      ensures delegate == old(delegate) + old(Pending()) + [Cmd.QuadTo(x1, y1, xe, ye)]
      ensures input == old(input) + [Cmd.QuadTo(x1, y1, xe, ye)]
      ensures state == PrevPoint && px1 == xe && py1 == ye
      ensures pdx == old(pdx) && pdy == old(pdy) && px2 == old(px2) && py2 == old(py2)
    {
      EmitStashedLine();
      ForwardCurrentPoint(Cmd.QuadTo(x1, y1, xe, ye), xe, ye);
    }

    /** Cubic curve: flushes the held-back line, forwards the curve unchanged. */
    method CurveTo(x1: int, y1: int, x2: int, y2: int, xe: int, ye: int)
      requires Valid()
      modifies this
      ensures Valid()
      ensures delegate == old(delegate) + old(Pending()) + [Cmd.CurveTo(x1, y1, x2, y2, xe, ye)]
      ensures input == old(input) + [Cmd.CurveTo(x1, y1, x2, y2, xe, ye)]
      ensures state == PrevPoint && px1 == xe && py1 == ye
      ensures pdx == old(pdx) && pdy == old(pdy) && px2 == old(px2) && py2 == old(py2)
    {
      EmitStashedLine();
      ForwardCurrentPoint(Cmd.CurveTo(x1, y1, x2, y2, xe, ye), xe, ye);
    }

    /** Starts a subpath: flushes the held-back line, forwards the moveTo unchanged. */
    method MoveTo(xe: int, ye: int)
      requires Valid()
      modifies this
      ensures Valid()
      ensures delegate == old(delegate) + old(Pending()) + [Cmd.MoveTo(xe, ye)]
      ensures input == old(input) + [Cmd.MoveTo(xe, ye)]
      ensures state == PrevPoint && px1 == xe && py1 == ye
      ensures pdx == old(pdx) && pdy == old(pdy) && px2 == old(px2) && py2 == old(py2)
    {
      EmitStashedLine();
      ForwardCurrentPoint(Cmd.MoveTo(xe, ye), xe, ye);
    }

    /**
     * A line segment to (xe, ye): forwarded at once when there is no current
     * point, held back when there is one, and merged into the held-back
     * segment, or flushing it, when one is held back.
     */
    method LineTo(xe: int, ye: int)
      requires Valid()
      modifies this
      ensures Valid()
      ensures input == old(input) + [Cmd.LineTo(xe, ye)]
      ensures old(state) == Empty ==>
        && delegate == old(delegate) + [Cmd.LineTo(xe, ye)]
        && state == PrevPoint && px1 == xe && py1 == ye
        && pdx == old(pdx) && pdy == old(pdy) && px2 == old(px2) && py2 == old(py2)
      ensures old(state) == PrevPoint ==>
        && delegate == old(delegate)
        && state == PrevLine && px1 == old(px1) && py1 == old(py1)
        && pdx == xe - old(px1) && pdy == ye - old(py1) && px2 == xe && py2 == ye
      ensures old(state) == PrevLine && Mergeable(old(pdx), old(pdy), xe - old(px2), ye - old(py2)) ==>
        && delegate == old(delegate)
        && state == PrevLine && px1 == old(px1) && py1 == old(py1)
        && pdx == old(pdx) && pdy == old(pdy) && px2 == xe && py2 == ye
      ensures old(state) == PrevLine && !Mergeable(old(pdx), old(pdy), xe - old(px2), ye - old(py2)) ==>
        && delegate == old(delegate) + [Cmd.LineTo(old(px2), old(py2))]
        && state == PrevLine && px1 == old(px2) && py1 == old(py2)
        && pdx == xe - old(px2) && pdy == ye - old(py2) && px2 == xe && py2 == ye
    {
      if state == PrevLine {
        if Mergeable(pdx, pdy, xe - px2, ye - py2) {
          MergeLine(xe, ye);
        } else {
          FlushLine(xe, ye);
        }
      } else if state == PrevPoint {
        HoldLine(xe, ye);
      } else {
        ForwardLine(xe, ye);
      }
    }

    /** lineTo in STATE_PREV_LINE, collinear case: only the held-back end point moves. */
    method MergeLine(xe: int, ye: int)
      requires Valid() && state == PrevLine && Mergeable(pdx, pdy, xe - px2, ye - py2)
      modifies this
      ensures Valid()
      ensures input == old(input) + [Cmd.LineTo(xe, ye)] && delegate == old(delegate)
      ensures state == PrevLine && px1 == old(px1) && py1 == old(py1)
      ensures pdx == old(pdx) && pdy == old(pdy) && px2 == xe && py2 == ye
    {
      ThinnedReplaceLast(delegate, input, px2, py2, xe, ye);
      MergeKeepsHeldSegment(px1, py1, pdx, pdy, px2, py2, merged, xe, ye);
      merged := merged + [(px2, py2)];
      px2 := xe;
      py2 := ye;
      input := input + [Cmd.LineTo(xe, ye)];
    }

    /** lineTo in STATE_PREV_LINE, other case: the held-back line goes out, the new one is held. */
    method FlushLine(xe: int, ye: int)
      requires Valid() && state == PrevLine
      modifies this
      ensures Valid()
      ensures input == old(input) + [Cmd.LineTo(xe, ye)]
      ensures delegate == old(delegate) + [Cmd.LineTo(old(px2), old(py2))]
      ensures state == PrevLine && px1 == old(px2) && py1 == old(py2)
      ensures pdx == xe - old(px2) && pdy == ye - old(py2) && px2 == xe && py2 == ye
    {
      var dx := xe - px2;
      var dy := ye - py2;
      ThinnedAppend(delegate + [Cmd.LineTo(px2, py2)], input, Cmd.LineTo(xe, ye));
      NewHeldSegment(px2, py2, xe, ye);
      delegate := delegate + [Cmd.LineTo(px2, py2)];
      px1 := px2;
      py1 := py2;
      pdx := dx;
      pdy := dy;
      px2 := xe;
      py2 := ye;
      merged := [];
      input := input + [Cmd.LineTo(xe, ye)];
    }

    /** lineTo in STATE_PREV_POINT: nothing goes out, the segment is held back. */
    method HoldLine(xe: int, ye: int)
      requires Valid() && state == PrevPoint
      modifies this
      ensures Valid()
      ensures input == old(input) + [Cmd.LineTo(xe, ye)] && delegate == old(delegate)
      ensures state == PrevLine && px1 == old(px1) && py1 == old(py1)
      ensures pdx == xe - old(px1) && pdy == ye - old(py1) && px2 == xe && py2 == ye
    {
      assert delegate + Pending() == delegate;
      ThinnedAppend(delegate, input, Cmd.LineTo(xe, ye));
      NewHeldSegment(px1, py1, xe, ye);
      state := PrevLine;
      pdx := xe - px1;
      pdy := ye - py1;
      px2 := xe;
      py2 := ye;
      merged := [];
      input := input + [Cmd.LineTo(xe, ye)];
      assert Pending() == [Cmd.LineTo(xe, ye)];
      assert HeldSegment(px1, py1, pdx, pdy, px2, py2, merged);
    }

    /** lineTo in STATE_EMPTY: forwarded at once; its end point becomes the current point. */
    method ForwardLine(xe: int, ye: int)
      requires Valid() && state == Empty
      modifies this
      ensures Valid()
      ensures input == old(input) + [Cmd.LineTo(xe, ye)]
      ensures delegate == old(delegate) + [Cmd.LineTo(xe, ye)]
      ensures state == PrevPoint && px1 == xe && py1 == ye
      ensures pdx == old(pdx) && pdy == old(pdy) && px2 == old(px2) && py2 == old(py2)
    {
      assert delegate + Pending() == delegate;
      ThinnedAppend(delegate, input, Cmd.LineTo(xe, ye));
      delegate := delegate + [Cmd.LineTo(xe, ye)];
      state := PrevPoint;
      px1 := xe;
      py1 := ye;
      input := input + [Cmd.LineTo(xe, ye)];
      assert Pending() == [] && merged == [];
      assert delegate + Pending() == delegate;
    }
  }

  /**
   * Replacing the held-back lineTo by a later one: if `out` plus the old
   * lineTo was thinned from `inp`, then `out` plus the new lineTo is thinned
   * from `inp` plus the new one (the old lineTo is now left out).
   */
  lemma ThinnedReplaceLast(out: seq<Cmd>, inp: seq<Cmd>, x2: int, y2: int, xe: int, ye: int)
    requires Thinned(out + [LineTo(x2, y2)], inp)
    ensures Thinned(out + [LineTo(xe, ye)], inp + [LineTo(xe, ye)])
  {
    ThinnedUnmatchLine(out, inp, x2, y2);
    ThinnedAppend(out, inp, LineTo(xe, ye));
  }

  /** Leaving out one more lineTo, the last one forwarded, keeps a thinning a thinning. */
  lemma {:induction false} ThinnedUnmatchLine(out: seq<Cmd>, inp: seq<Cmd>, x: int, y: int)
    requires Thinned(out + [LineTo(x, y)], inp)
    ensures Thinned(out, inp)
    decreases |inp|
  {
    var front := inp[..|inp| - 1];
    assert (out + [LineTo(x, y)])[..|out|] == out;
    if inp[|inp| - 1].LineTo? && Thinned(out + [LineTo(x, y)], front) {
      ThinnedUnmatchLine(out, front, x, y);
    }
  }

  /**
   * Sequence-display facts for the scenarios below, proved apart from them:
   * inside a scenario, with the simplifier's state in scope, the same
   * equalities cost the solver far more.
   */
  lemma Concat3(a: Cmd, b: Cmd, c: Cmd)
    ensures [a] + [b] + [c] == [a, b, c]
  {
  }

  lemma Concat5(a: Cmd, b: Cmd, c: Cmd, d: Cmd, e: Cmd)
    ensures [a, b] + [c] + [d] + [e] == [a, b, c, d, e]
  {
  }

  /** A straight run of line segments from (x, y) reaches the delegate as one segment. */
  method StraightRunScenario(x: int, y: int) returns (out: seq<Cmd>)
    ensures out == [MoveTo(x, y), LineTo(x + 3, y + 3), PathDone]
  {
    var s := new DCollinearSimplifier();
    s.Init();
    s.MoveTo(x, y);
    assert s.state == PrevPoint && s.px1 == x && s.py1 == y;
    s.LineTo(x + 1, y + 1);
    assert s.state == PrevLine && s.pdx == 1 && s.pdy == 1 && s.px2 == x + 1 && s.py2 == y + 1;
    assert Mergeable(1, 1, 1, 1);
    s.LineTo(x + 2, y + 2);
    assert s.state == PrevLine && s.pdx == 1 && s.pdy == 1 && s.px2 == x + 2 && s.py2 == y + 2;
    s.LineTo(x + 3, y + 3);
    assert s.delegate == [MoveTo(x, y)] && s.Pending() == [LineTo(x + 3, y + 3)];
    s.PathDone();
    out := s.delegate;
    assert out == [MoveTo(x, y)] + [LineTo(x + 3, y + 3)] + [PathDone];
    Concat3(MoveTo(x, y), LineTo(x + 3, y + 3), PathDone);
  }

  /** A run that doubles back along a sloped line is merged into one segment. */
  method SlopedReversalScenario(x: int, y: int) returns (back: seq<Cmd>)
    ensures back == [MoveTo(x, y), LineTo(x + 1, y + 1), ClosePath]
  {
    var s := new DCollinearSimplifier();
    s.Init();
    s.MoveTo(x, y);
    assert s.state == PrevPoint && s.px1 == x && s.py1 == y;
    s.LineTo(x + 2, y + 2);
    assert s.state == PrevLine && s.pdx == 2 && s.pdy == 2 && s.px2 == x + 2 && s.py2 == y + 2;
    assert Mergeable(2, 2, -1, -1);
    s.LineTo(x + 1, y + 1);
    assert s.delegate == [MoveTo(x, y)] && s.Pending() == [LineTo(x + 1, y + 1)];
    s.ClosePath();
    back := s.delegate;
    assert back == [MoveTo(x, y)] + [LineTo(x + 1, y + 1)] + [ClosePath];
    Concat3(MoveTo(x, y), LineTo(x + 1, y + 1), ClosePath);
  }

  /** A horizontal run that doubles back is not merged: both segments go out. */
  method HorizontalReversalScenario(x: int, y: int) returns (out: seq<Cmd>)
    ensures out == [MoveTo(x, y), LineTo(x + 4, y), LineTo(x + 1, y), LineTo(x + 1, y + 5), PathDone]
  {
    var s := new DCollinearSimplifier();
    s.Init();
    s.MoveTo(x, y);
    assert s.state == PrevPoint && s.px1 == x && s.py1 == y;
    s.LineTo(x + 4, y);
    assert s.state == PrevLine && s.pdx == 4 && s.pdy == 0 && s.px2 == x + 4 && s.py2 == y;
    assert !Mergeable(4, 0, -3, 0);
    s.LineTo(x + 1, y);
    assert s.state == PrevLine && s.pdx == -3 && s.pdy == 0 && s.px2 == x + 1 && s.py2 == y;
    ghost var sent := s.delegate;
    assert sent == [MoveTo(x, y), LineTo(x + 4, y)];
    assert !Mergeable(s.pdx, s.pdy, (x + 1) - s.px2, (y + 5) - s.py2);
    s.LineTo(x + 1, y + 5);
    assert s.delegate == sent + [LineTo(x + 1, y)];
    assert s.Pending() == [LineTo(x + 1, y + 5)];
    s.PathDone();
    out := s.delegate;
    assert out == [MoveTo(x, y), LineTo(x + 4, y)] + [LineTo(x + 1, y)] + [LineTo(x + 1, y + 5)] + [PathDone];
    Concat5(MoveTo(x, y), LineTo(x + 4, y), LineTo(x + 1, y), LineTo(x + 1, y + 5), PathDone);
  }
}
