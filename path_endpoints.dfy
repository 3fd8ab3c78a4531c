/**
  Endpoint extraction from SVG path data (the command loop of
  `extract_stroke_paths_from_svg`). The path data arrives already split into
  command groups, each a letter and its numeric parameters. A cursor starts at
  the origin; the first moveto fixes the start point and the final cursor is
  the end point. Only the endpoint of each command matters: control points are
  skipped, and H, V, A and Z are not interpreted, so they leave the cursor where
  it was.
 */
module PathEndpoints {
  import opened Wrappers
  import opened Geometry

  /** One command group: the command letter and the parameters that follow it. */
  datatype Command = Command(letter: char, params: seq<real>)

  /** Where the first moveto put the cursor, and where the cursor finished. */
  datatype Endpoints = Endpoints(start: Point, end: Point)

  const Origin := Point(0.0, 0.0)

  /** A moveto that the parser honours: `M` or `m` with at least one coordinate pair. */
  predicate IsMoveTo(c: Command) {
    c.letter in "Mm" && |c.params| >= 2
  }

  /** How many parameters a command needs before it moves the cursor; 0 for letters that never do. */
  function Needed(letter: char): nat {
    if letter in "MmLlTt" then 2
    else if letter in "Cc" then 6
    else if letter in "SsQq" then 4
    else 0
  }

  predicate IsAbsolute(letter: char) {
    letter in "MLCSQT"
  }

  /** The cursor moved to, or by, the pair at `p[i]`, `p[i + 1]`. */
  function Target(cur: Point, absolute: bool, p: seq<real>, i: nat): Point
    requires i + 1 < |p|
  {
    if absolute then Point(p[i], p[i + 1]) else Point(cur.x + p[i], cur.y + p[i + 1])
  }

  /** The cursor after one command, following the letter-by-letter branches of the source. */
  function Advance(cur: Point, c: Command): (r: Point)
    // a command moves the cursor only with enough parameters for its letter
    ensures Needed(c.letter) == 0 || |c.params| < Needed(c.letter) ==> r == cur
    // a moveto uses its first pair, every other command its last pair
    ensures Needed(c.letter) > 0 && |c.params| >= Needed(c.letter) ==>
              var i := if c.letter in "Mm" then 0 else |c.params| - 2;
              r == Target(cur, IsAbsolute(c.letter), c.params, i)
  {
    var p := c.params;
    if |p| == 0 then cur
    else if c.letter in "Mm" then
      if |p| >= 2 then Target(cur, c.letter == 'M', p, 0) else cur
    else if c.letter in "Ll" then
      if |p| >= 2 then Target(cur, c.letter == 'L', p, |p| - 2) else cur
    else if c.letter in "Cc" then
      if |p| >= 6 then Target(cur, c.letter == 'C', p, |p| - 2) else cur
    else if c.letter in "Ss" then
      if |p| >= 4 then Target(cur, c.letter == 'S', p, |p| - 2) else cur
    else if c.letter in "Qq" then
      if |p| >= 4 then Target(cur, c.letter == 'Q', p, |p| - 2) else cur
    else if c.letter in "Tt" then
      if |p| >= 2 then Target(cur, c.letter == 'T', p, |p| - 2) else cur
    else cur
  }

  /** The cursor after running `cmds` from the origin. */
  function CursorAfter(cmds: seq<Command>): Point
    decreases |cmds|
  {
    if |cmds| == 0 then Origin
    else Advance(CursorAfter(cmds[..|cmds| - 1]), cmds[|cmds| - 1])
  }

  /** The start point: the cursor right after the first honoured moveto, if there is one. */
  function StartOf(cmds: seq<Command>): Option<Point>
    decreases |cmds|
  {
    if |cmds| == 0 then None
    else
      var s := StartOf(cmds[..|cmds| - 1]);
      if s.Some? then s
      else if IsMoveTo(cmds[|cmds| - 1]) then Some(CursorAfter(cmds))
      else None
  }

  /** The `(start, end)` pair the parser records, or None (all four coordinates None) without a moveto. */
  function EndpointsOf(cmds: seq<Command>): Option<Endpoints> {
    match StartOf(cmds)
    case None => None
    case Some(s) => Some(Endpoints(s, CursorAfter(cmds)))
  }

  /** The parser's loop over the command groups of one path. */
  method ExtractEndpoints(cmds: seq<Command>) returns (r: Option<Endpoints>)
    ensures r == EndpointsOf(cmds)
  {
    var start: Option<Point> := None;
    var curX, curY := 0.0, 0.0;
    var i := 0;
    while i < |cmds|
      invariant 0 <= i <= |cmds|
      invariant Point(curX, curY) == CursorAfter(cmds[..i])
      invariant start == StartOf(cmds[..i])
    {
      var letter, p := cmds[i].letter, cmds[i].params;
      assert cmds[..i + 1][..i] == cmds[..i];
      assert CursorAfter(cmds[..i + 1]) == Advance(CursorAfter(cmds[..i]), cmds[i]);
      if |p| == 0 {
      } else if letter in "Mm" {
        if |p| >= 2 {
          if letter == 'M' {
            curX, curY := p[0], p[1];
          } else {
            curX, curY := curX + p[0], curY + p[1];
          }
          if start.None? {
            start := Some(Point(curX, curY));
          }
        }
      } else if letter in "Ll" {
        if |p| >= 2 {
          if letter == 'L' {
            curX, curY := p[|p| - 2], p[|p| - 1];
          } else {
            curX, curY := curX + p[|p| - 2], curY + p[|p| - 1];
          }
        }
      } else if letter in "Cc" {
        if |p| >= 6 {
          if letter == 'C' {
            curX, curY := p[|p| - 2], p[|p| - 1];
          } else {
            curX, curY := curX + p[|p| - 2], curY + p[|p| - 1];
          }
        }
      } else if letter in "Ss" {
        if |p| >= 4 {
          if letter == 'S' {
            curX, curY := p[|p| - 2], p[|p| - 1];
          } else {
            curX, curY := curX + p[|p| - 2], curY + p[|p| - 1];
          }
        }
      } else if letter in "Qq" {
        if |p| >= 4 {
          if letter == 'Q' {
            curX, curY := p[|p| - 2], p[|p| - 1];
          } else {
            curX, curY := curX + p[|p| - 2], curY + p[|p| - 1];
          }
        }
      } else if letter in "Tt" {
        if |p| >= 2 {
          if letter == 'T' {
            curX, curY := p[|p| - 2], p[|p| - 1];
          } else {
            curX, curY := curX + p[|p| - 2], curY + p[|p| - 1];
          }
        }
      }
      i := i + 1;
    }
    assert cmds[..|cmds|] == cmds;
    if start.Some? {
      r := Some(Endpoints(start.value, Point(curX, curY)));
    } else {
      r := None;
    }
  }

  /** The start is unset exactly when no command is an honoured moveto. */
  lemma {:induction false} NoMoveToNoStart(cmds: seq<Command>)
    ensures StartOf(cmds).None? <==> forall j :: 0 <= j < |cmds| ==> !IsMoveTo(cmds[j])
    decreases |cmds|
  {
    if |cmds| > 0 {
      var front := cmds[..|cmds| - 1];
      NoMoveToNoStart(front);
      assert forall j :: 0 <= j < |front| ==> front[j] == cmds[j];
    }
  }

  /** The start is the cursor right after the first honoured moveto. */
  lemma {:induction false} StartIsFirstMoveTo(cmds: seq<Command>, k: nat)
    requires k < |cmds| && IsMoveTo(cmds[k])
    requires forall j :: 0 <= j < k ==> !IsMoveTo(cmds[j])
    ensures StartOf(cmds) == Some(CursorAfter(cmds[..k + 1]))
    decreases |cmds|
  {
    var front := cmds[..|cmds| - 1];
    if k == |cmds| - 1 {
      NoMoveToNoStart(front);
      assert cmds[..k + 1] == cmds;
    } else {
      assert front[k] == cmds[k];
      assert front[..k + 1] == cmds[..k + 1];
      StartIsFirstMoveTo(front, k);
    }
  }

  /** Commands after the start is fixed, later movetos included, never change it. */
  lemma {:induction false} LaterCommandsKeepStart(cmds: seq<Command>, more: seq<Command>)
    requires StartOf(cmds).Some?
    ensures StartOf(cmds + more) == StartOf(cmds)
    decreases |more|
  {
    if |more| > 0 {
      var front := more[..|more| - 1];
      LaterCommandsKeepStart(cmds, front);
      assert (cmds + more)[..|cmds + more| - 1] == cmds + front;
    } else {
      assert cmds + more == cmds;
    }
  }

  /** A command that does not move the cursor (H, V, A, Z, or too few parameters) leaves the end point alone. */
  lemma InertCommandKeepsCursor(cmds: seq<Command>, c: Command)
    requires Needed(c.letter) == 0 || |c.params| < Needed(c.letter)
    ensures CursorAfter(cmds + [c]) == CursorAfter(cmds)
  {
    assert (cmds + [c])[..|cmds|] == cmds;
  }

  /** After an absolute command that moves the cursor, the cursor no longer depends on what came before. */
  lemma AbsoluteCommandForgetsHistory(a: seq<Command>, b: seq<Command>, c: Command)
    requires IsAbsolute(c.letter) && |c.params| >= Needed(c.letter)
    ensures CursorAfter(a + [c]) == CursorAfter(b + [c])
  {
    assert (a + [c])[..|a|] == a;
    assert (b + [c])[..|b|] == b;
  }

  /** A relative command shifts the end point by its last (for `m`, its first) pair. */
  lemma RelativeCommandAddsPair(cmds: seq<Command>, c: Command)
    requires !IsAbsolute(c.letter) && Needed(c.letter) > 0 && |c.params| >= Needed(c.letter)
    ensures var i := if c.letter == 'm' then 0 else |c.params| - 2;
            CursorAfter(cmds + [c]) == Point(CursorAfter(cmds).x + c.params[i], CursorAfter(cmds).y + c.params[i + 1])
  {
    assert (cmds + [c])[..|cmds|] == cmds;
    assert CursorAfter(cmds + [c]) == Advance(CursorAfter(cmds), c);
  }
}
