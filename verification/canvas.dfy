/**
 * The part of a 2D canvas context that the thumbnail code touches: the current
 * filter, the save/restore stack, and the `drawImage` calls. Pixels are not
 * modelled; a draw is recorded as its destination rectangle together with the
 * filter in effect when it was issued.
 */
module Canvas {
  import opened Geometry

  /** The context's `filter` property. */
  datatype Filter = NoFilter | Blur(radiusPx: nat)

  /** One call on the 2D context. */
  datatype CanvasOp =
    | Save
    | Restore
    | SetFilter(filter: Filter)
    | DrawImage(dest: Rect)

  /** The drawing state: the current filter and the saved states, innermost last. */
  datatype DrawingState = DrawingState(filter: Filter, saved: seq<Filter>)

  /** The state of a freshly obtained context: no filter, nothing saved. */
  const Fresh: DrawingState := DrawingState(NoFilter, [])

  /** A draw as it lands on the canvas: where, and under which filter. */
  datatype Stroke = Stroke(dest: Rect, filter: Filter)

  /** `restore()` with nothing saved leaves the state alone. */
  function Step(s: DrawingState, op: CanvasOp): DrawingState {
    match op
    case Save => DrawingState(s.filter, s.saved + [s.filter])
    case Restore =>
      if |s.saved| == 0 then s
      else DrawingState(s.saved[|s.saved| - 1], s.saved[..|s.saved| - 1])
    case SetFilter(f) => s.(filter := f)
    case DrawImage(_) => s
  }

  /** The state after issuing `ops` in order. */
  function Run(s: DrawingState, ops: seq<CanvasOp>): DrawingState
    decreases |ops|
  {
    if |ops| == 0 then s else Run(Step(s, ops[0]), ops[1..])
  }

  /** The draws among `ops`, in issue order, each with the filter in effect at that moment. */
  function Strokes(s: DrawingState, ops: seq<CanvasOp>): seq<Stroke>
    decreases |ops|
  {
    if |ops| == 0 then []
    else
      (if ops[0].DrawImage? then [Stroke(ops[0].dest, s.filter)] else [])
      + Strokes(Step(s, ops[0]), ops[1..])
  }

  /** Neither saves nor restores: the stack is left as it is. */
  predicate Unscoped(ops: seq<CanvasOp>) {
    forall i | 0 <= i < |ops| :: !ops[i].Save? && !ops[i].Restore?
  }

  /** Issuing `a` then `b` is issuing `a + b`. */
  lemma {:induction false} RunAppend(s: DrawingState, a: seq<CanvasOp>, b: seq<CanvasOp>)
    ensures Run(s, a + b) == Run(Run(s, a), b)
    decreases |a|
  {
    if |a| == 0 {
      assert a + b == b;
    } else {
      assert (a + b)[1..] == a[1..] + b;
      RunAppend(Step(s, a[0]), a[1..], b);
    }
  }

  /** The draws of `a + b` are those of `a` followed by those of `b` in the state `a` leaves. */
  lemma {:induction false} StrokesAppend(s: DrawingState, a: seq<CanvasOp>, b: seq<CanvasOp>)
    ensures Strokes(s, a + b) == Strokes(s, a) + Strokes(Run(s, a), b)
    decreases |a|
  {
    if |a| == 0 {
      assert a + b == b;
    } else {
      assert (a + b)[1..] == a[1..] + b;
      StrokesAppend(Step(s, a[0]), a[1..], b);
    }
  }

  /** Calls that neither save nor restore leave the saved stack untouched. */
  lemma {:induction false} UnscopedKeepsStack(s: DrawingState, ops: seq<CanvasOp>)
    requires Unscoped(ops)
    ensures Run(s, ops).saved == s.saved
    decreases |ops|
  {
    if |ops| > 0 {
      assert !ops[0].Save? && !ops[0].Restore?;
      UnscopedKeepsStack(Step(s, ops[0]), ops[1..]);
    }
  }

  /**
   * Whatever is set between a `save()` and its `restore()` does not outlive the
   * pair: the state afterwards is the state before.
   */
  lemma ScopedRestores(s: DrawingState, inner: seq<CanvasOp>)
    requires Unscoped(inner)
    ensures Run(s, [Save] + inner + [Restore]) == s
  {
    var entered := Step(s, Save);
    RunAppend(s, [Save], inner);
    RunAppend(s, [Save] + inner, [Restore]);
    UnscopedKeepsStack(entered, inner);
    assert Run(s, [Save]) == entered;
    var inside := Run(entered, inner);
    assert inside.saved == s.saved + [s.filter];
    assert Run(inside, [Restore]) == Step(inside, Restore);
    assert (s.saved + [s.filter])[..|s.saved|] == s.saved;
  }
}
