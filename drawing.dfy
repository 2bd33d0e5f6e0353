// The drawing API a Renderable carries: a list of commands for the render
// engine, and the path builder that turns move/line/curve/close calls into a
// list of polylines.

module Drawing {
  import opened Vectors

  /** A rectangle given by its corner and size. */
  datatype Rect = Rect(x: real, y: real, width: real, height: real)

  /** A polyline: the points joined by straight segments. */
  type Line = seq<Vector>

  /** An action for the render engine (Graphics.Command); a path is carried as its lines. */
  datatype Command = AddPath(lines: seq<Line>) | AddFilledRectangles(rects: seq<Rect>)

  class Graphics {
    var commands: seq<Command>

    constructor ()
      ensures commands == []
    {
      commands := [];
    }

    /** Appends one command after all earlier ones. */
    method Add(command: Command)
      modifies this
      ensures commands == old(commands) + [command]
    {
      commands := commands + [command];
    }

    /** Appends the given commands, in order, after all earlier ones. */
    method AddCommands(newCommands: seq<Command>)
      modifies this
      ensures commands == old(commands) + newCommands
    {
      commands := commands + newCommands;
    }

    /** Empties the command list; keeping the storage is not observable in the list. */
    method Clear(keepingCapacity: bool)
      modifies this
      ensures commands == []
    {
      commands := [];
    }
  }

  function LastLine(lines: seq<Line>): Line
    requires |lines| > 0
  {
    lines[|lines| - 1]
  }

  predicate IsPrefix(a: Line, b: Line) {
    |a| <= |b| && b[..|a|] == a
  }

  /** No line of the path is empty. */
  predicate NoEmptyLine(lines: seq<Line>) {
    forall i :: 0 <= i < |lines| ==> |lines[i]| > 0
  }

  /** The two `assert`s of `addLine` once its empty-path case has run: a last line exists and has a point. */
  predicate AddLineAssertionsHold(lines: seq<Line>) {
    var base := if |lines| == 0 then [[Zero]] else lines;
    |base| > 0 && |LastLine(base)| > 0
  }

  /** The paths on which `addCurve` does not trap: after a trailing empty line is dropped,
      some line is left and it has a last point to start the curve from. */
  predicate CurveDefined(lines: seq<Line>) {
    |lines| == 0 || |LastLine(lines)| > 0 || (|lines| >= 2 && |lines[|lines| - 2]| > 0)
  }

  /** The path after `move(to: p)`: a last line of at most one point becomes `[p]`;
      otherwise `[p]` starts a new line. */
  function MovedTo(lines: seq<Line>, p: Vector): (r: seq<Line>)
    ensures |r| > 0 && LastLine(r) == [p]
    ensures |r| == |lines| + 1 <==> |lines| == 0 || |LastLine(lines)| > 1
    ensures |r| == |lines| || |r| == |lines| + 1
    ensures forall i :: 0 <= i < |lines| - 1 ==> r[i] == lines[i]
    ensures |r| == |lines| + 1 ==> r[..|lines|] == lines
    ensures NoEmptyLine(lines) ==> NoEmptyLine(r)
  {
    if |lines| > 0 && |LastLine(lines)| <= 1 then lines[..|lines| - 1] + [[p]] else lines + [[p]]
  }

  /** The path after `addLine(to: p)`: `p` ends the last line, which is `[Zero]` when the path had none. */
  function LineAdded(lines: seq<Line>, p: Vector): (r: seq<Line>)
    ensures |r| == if |lines| == 0 then 1 else |lines|
    ensures LastLine(r) == (if |lines| == 0 then [Zero] else LastLine(lines)) + [p]
    ensures forall i :: 0 <= i < |lines| - 1 ==> r[i] == lines[i]
    ensures NoEmptyLine(r) <== NoEmptyLine(lines)
  {
    var base := if |lines| == 0 then [[Zero]] else lines;
    base[..|base| - 1] + [LastLine(base) + [p]]
  }

  /** The path after `close()`: a last line of two or more points gets its first point again at its
      end, so that it ends where it starts; any other path is left alone. */
  function Closed(lines: seq<Line>): (r: seq<Line>)
    ensures |r| == |lines|
    ensures forall i :: 0 <= i < |lines| - 1 ==> r[i] == lines[i]
    ensures |lines| > 0 && |LastLine(lines)| >= 2 ==>
              LastLine(r) == LastLine(lines) + [LastLine(lines)[0]] &&
              LastLine(r)[|LastLine(r)| - 1] == LastLine(r)[0]
    ensures !(|lines| > 0 && |LastLine(lines)| >= 2) ==> r == lines
    ensures NoEmptyLine(lines) ==> NoEmptyLine(r)
  {
    if |lines| > 0 && |LastLine(lines)| >= 2 then LineAdded(lines, LastLine(lines)[0]) else lines
  }

  /** The points a cubic Bézier segment is drawn with, given its start, two control points and its end. */
  type Tessellation = (Vector, Vector, Vector, Vector) -> seq<Vector>

  /** The path after `addCurve`: a trailing empty line is dropped (an empty path gets `[Zero]`),
      and the tessellated curve, started from the last point, extends the last line. */
  function CurveAdded(lines: seq<Line>, anchor: Vector, control1: Vector, control2: Vector, tessellate: Tessellation): (r: seq<Line>)
    requires CurveDefined(lines)
    ensures |lines| == 0 ==> |r| == 1 && |LastLine(r)| > 0 && LastLine(r)[0] == Zero
    ensures |lines| > 0 && LastLine(lines) == [] ==>
              |r| == |lines| - 1 && |r| > 0 && IsPrefix(lines[|lines| - 2], LastLine(r))
    ensures |lines| > 0 && LastLine(lines) != [] ==> |r| == |lines| && IsPrefix(LastLine(lines), LastLine(r))
    ensures forall i :: 0 <= i < |r| - 1 ==> r[i] == lines[i]
    ensures NoEmptyLine(lines) ==> NoEmptyLine(r)
  {
    var base := if |lines| == 0 then [[Zero]] else if |LastLine(lines)| == 0 then lines[..|lines| - 1] else lines;
    var last := LastLine(base);
    base[..|base| - 1] + [last + tessellate(last[|last| - 1], control1, control2, anchor)]
  }

  /** A Path (Graphics.Path) edited in place by its mutating methods. */
  class Path {
    var lines: seq<Line>

    constructor ()
      ensures lines == []
    {
      lines := [];
    }

    /** The array-literal initialiser: the given lines, empty ones included. */
    constructor FromLines(elements: seq<Line>)
      ensures lines == elements
    {
      lines := elements;
    }

    method Move(p: Vector)
      modifies this
      ensures lines == MovedTo(old(lines), p)
    {
      var n := |lines|;
      if n == 0 || |lines[n - 1]| > 1 {
        lines := lines + [[p]];
      } else if |lines[n - 1]| == 0 {
        assert lines[n - 1] + [p] == [p];
        lines := lines[n - 1 := lines[n - 1] + [p]];
        assert lines == old(lines)[..n - 1] + [[p]];
      } else if |lines[n - 1]| == 1 {
        assert lines[n - 1][0 := p] == [p];
        lines := lines[n - 1 := lines[n - 1][0 := p]];
        assert lines == old(lines)[..n - 1] + [[p]];
      } else {
        // the `fatalError("unhandled case")` branch: the three guards above cover every count
        assert false;
      }
    }

    /** Extends the last line by `p`, as a release build does. The source's two `assert`s are
        checked in debug builds only, where an empty last line traps; on built paths they hold
        (see Build). */
    method AddLine(p: Vector)
      modifies this
      ensures lines == LineAdded(old(lines), p)
    {
      if |lines| == 0 {
        lines := lines + [[Zero]];
      }
      lines := lines[|lines| - 1 := lines[|lines| - 1] + [p]];
    }

    /** Extends the last line by the tessellated curve. Where `CurveDefined` fails the source
        traps, reading a point of an empty line; built paths always satisfy it (see Build). */
    method AddCurve(anchor: Vector, controlPoint1: Vector, controlPoint2: Vector, tessellate: Tessellation)
      requires CurveDefined(lines)
      modifies this
      ensures lines == CurveAdded(old(lines), anchor, controlPoint1, controlPoint2, tessellate)
    {
      if |lines| == 0 {
        lines := lines + [[Zero]];
      } else if |lines[|lines| - 1]| == 0 {
        lines := lines[..|lines| - 1];
      }
      var lastLine := lines[|lines| - 1];
      lines := lines[|lines| - 1 := lastLine + tessellate(lastLine[|lastLine| - 1], controlPoint1, controlPoint2, anchor)];
    }

    method Close()
      modifies this
      ensures lines == Closed(old(lines))
    {
      if |lines| == 0 {
        return;
      }
      var lastLine := lines[|lines| - 1];
      if |lastLine| == 0 {
        return;
      }
      if |lastLine| < 2 {
        return;
      }
      AddLine(lastLine[0]);
    }
  }

  /** One call of the path-building API. */
  datatype PathOp =
    | MoveTo(p: Vector)
    | LineTo(p: Vector)
    | CurveTo(anchor: Vector, control1: Vector, control2: Vector)
    | ClosePath

  function Apply(lines: seq<Line>, op: PathOp, tessellate: Tessellation): (r: seq<Line>)
    requires NoEmptyLine(lines)
    ensures NoEmptyLine(r)
  {
    match op
    case MoveTo(p) => MovedTo(lines, p)
    case LineTo(p) => LineAdded(lines, p)
    case CurveTo(a, c1, c2) => CurveAdded(lines, a, c1, c2, tessellate)
    case ClosePath => Closed(lines)
  }

  /** The path a new Path holds after the given calls. It never has an empty line, so the
      `assert`s of addLine hold and addCurve never traps: empty lines come only from the
      array-literal initialiser. */
  function Build(ops: seq<PathOp>, tessellate: Tessellation): (r: seq<Line>)
    ensures NoEmptyLine(r)
    ensures AddLineAssertionsHold(r) && CurveDefined(r)
  {
    if ops == [] then []
    else Apply(Build(ops[..|ops| - 1], tessellate), ops[|ops| - 1], tessellate)
  }
}
