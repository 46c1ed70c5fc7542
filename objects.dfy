/**
 * objects.py: the snake with its queue of pending turns, the apple, and the
 * scrolling menu background. The grid is `w` by `h` cells, the display size
 * divided by the block size.
 */
module Objects {
  import opened Wrappers
  import opened Consts
  import Settings

  /** The `maxsize` of the queue of pending turns. */
  const QueueCapacity: nat := 3

  /** The cell lies on the `w` by `h` grid. */
  predicate InGrid(c: Cell, w: int, h: int)
  {
    0 <= c.x < w && 0 <= c.y < h
  }

  /** The cell next to `c` in direction `d`, as move inserts it (y grows downwards). */
  function Step(c: Cell, d: Direction): Cell
  {
    match d
    case Up => Cell(c.x, c.y - 1)
    case Down => Cell(c.x, c.y + 1)
    case Left => Cell(c.x - 1, c.y)
    case Right => Cell(c.x + 1, c.y)
  }

  /** The edge check of move: the first coordinate found off the grid re-enters at the opposite edge. */
  function Wrap(c: Cell, w: int, h: int): Cell
  {
    if c.x >= w then Cell(0, c.y)
    else if c.x < 0 then Cell(w - 1, c.y)
    else if c.y >= h then Cell(c.x, 0)
    else if c.y < 0 then Cell(c.x, h - 1)
    else c
  }

  /** Horizontal and vertical unit offsets of a direction. */
  function Dx(d: Direction): int { if d == Left then -1 else if d == Right then 1 else 0 }
  function Dy(d: Direction): int { if d == Up then -1 else if d == Down then 1 else 0 }

  /**
   * The wrapped step from a cell on the grid is the step taken modulo the
   * grid size: the play field is a torus.
   */
  lemma WrapIsToroidal(c: Cell, d: Direction, w: int, h: int)
    requires InGrid(c, w, h)
    ensures Wrap(Step(c, d), w, h) == Cell((c.x + Dx(d)) % w, (c.y + Dy(d)) % h)
    ensures InGrid(Wrap(Step(c, d), w, h), w, h)
  {
    WrapCoordinate(c.x + Dx(d), w);
    WrapCoordinate(c.y + Dy(d), h);
  }

  /** One step off a side of `[0, n)` lands, modulo `n`, on the opposite side. */
  lemma WrapCoordinate(a: int, n: int)
    requires n > 0 && -1 <= a <= n
    ensures a % n == if a == n then 0 else if a == -1 then n - 1 else a
  {
    if a == n {
      assert a == 1 * n + 0;
    } else if a == -1 {
      assert a == (-1) * n + (n - 1);
    } else {
      assert a == 0 * n + a;
    }
  }

  /** queue_direction's put_nowait: append while fewer than three turns are pending, else drop. */
  function Enqueue(q: seq<Direction>, d: Direction): seq<Direction>
  {
    if |q| < QueueCapacity then q + [d] else q
  }

  /** A full queue drops the new turn; otherwise it goes at the back. Nothing queued is evicted. */
  lemma EnqueueNeverEvicts(q: seq<Direction>, d: Direction)
    requires |q| <= QueueCapacity
    ensures |Enqueue(q, d)| <= QueueCapacity
    ensures Enqueue(q, d)[..|q|] == q
    ensures |q| == QueueCapacity ==> Enqueue(q, d) == q
    ensures |q| < QueueCapacity ==> Enqueue(q, d) == q + [d]
  {
  }

  /** The direction move adopts: the oldest queued turn, unless it would reverse the snake. */
  function Turn(current: Direction, q: seq<Direction>): (d: Direction)
    ensures d != Opposite(current)
    ensures q == [] || q[0] == Opposite(current) ==> d == current
    ensures q != [] && q[0] != Opposite(current) ==> d == q[0]
  {
    OppositeIrreflexive(current);
    if q == [] then current
    else if q[0] != Opposite(current) then q[0]
    else current
  }

  /** The queue after move's get_nowait: one turn consumed, if any, even a rejected one. */
  function Dequeue(q: seq<Direction>): seq<Direction>
  {
    if q == [] then [] else q[1..]
  }

  /**
   * The body after a move that fires: a new head, the old head stepped in
   * direction `d` and wrapped, then the old body without its last segment
   * unless the snake is growing.
   */
  function Advance(body: seq<Segment>, d: Direction, growing: bool, w: int, h: int): seq<Segment>
    requires |body| >= 1
  {
    [Segment(Wrap(Step(body[0].cell, d), w, h), d)] + (if growing then body else body[..|body| - 1])
  }

  /** Growth adds one segment, otherwise the length is kept; the rest of the body is the old body, tail cut unless growing. */
  lemma AdvanceShape(body: seq<Segment>, d: Direction, growing: bool, w: int, h: int)
    requires |body| >= 1
    ensures var r := Advance(body, d, growing, w, h);
      && |r| == (if growing then |body| + 1 else |body|)
      && r[0] == Segment(Wrap(Step(body[0].cell, d), w, h), d)
      && r[1..] == (if growing then body else body[..|body| - 1])
  {
  }

  /** No segment was entered by reversing the direction of the one behind it. */
  ghost predicate NoReversal(body: seq<Segment>)
  {
    forall i :: 0 <= i < |body| - 1 ==> body[i].dir != Opposite(body[i + 1].dir)
  }

  /** The shape of every snake body: two or more segments on the grid, the head tagged with the current direction, no reversals. */
  ghost predicate WellFormed(body: seq<Segment>, direction: Direction, w: int, h: int)
  {
    && |body| >= 2
    && body[0].dir == direction
    && (forall i :: 0 <= i < |body| ==> InGrid(body[i].cell, w, h))
    && NoReversal(body)
  }

  /** A firing move keeps the body well formed, with the adopted direction. */
  lemma AdvanceWellFormed(body: seq<Segment>, current: Direction, q: seq<Direction>, growing: bool, w: int, h: int)
    requires WellFormed(body, current, w, h)
    ensures WellFormed(Advance(body, Turn(current, q), growing, w, h), Turn(current, q), w, h)
  {
    var d := Turn(current, q);
    var r := Advance(body, d, growing, w, h);
    var rest := if growing then body else body[..|body| - 1];
    WrapIsToroidal(body[0].cell, d, w, h);
    assert r == [r[0]] + rest;
    forall i | 0 <= i < |r| ensures InGrid(r[i].cell, w, h) {
      if i > 0 { assert r[i] == rest[i - 1] == body[i - 1]; }
    }
    forall i | 0 <= i < |r| - 1 ensures r[i].dir != Opposite(r[i + 1].dir) {
      if i > 0 {
        assert r[i] == body[i - 1] && r[i + 1] == body[i];
      }
    }
  }

  /** The head shares its cell with some later segment. */
  predicate Collides(body: seq<Segment>)
    requires |body| >= 1
  {
    exists i :: 1 <= i < |body| && body[i].cell == body[0].cell
  }

  /** The freshly reset body of two stacked segments already counts as a collision. */
  lemma ResetBodyCollides(c: Cell, d: Direction)
    ensures Collides([Segment(c, d), Segment(c, d)])
  {
    assert [Segment(c, d), Segment(c, d)][1].cell == c;
  }

  /** A body whose head comes back onto its third segment collides. */
  lemma CollisionExample()
    ensures Collides([Segment(Cell(5, 6), Up), Segment(Cell(5, 5), Up), Segment(Cell(5, 6), Up)])
  {
    var b := [Segment(Cell(5, 6), Up), Segment(Cell(5, 5), Up), Segment(Cell(5, 6), Up)];
    assert b[2].cell == b[0].cell;
  }

  /**
   * The first firing move after reset, without growth, takes the head off
   * the shared start cell on any grid at least two cells wide and high.
   */
  lemma FirstMoveSeparates(c: Cell, d: Direction, q: seq<Direction>, w: int, h: int)
    requires InGrid(c, w, h) && w >= 2 && h >= 2
    ensures !Collides(Advance([Segment(c, d), Segment(c, d)], Turn(d, q), false, w, h))
  {
    var t := Turn(d, q);
    WrapIsToroidal(c, t, w, h);
    var r := Advance([Segment(c, d), Segment(c, d)], t, false, w, h);
    assert |r| == 2 && r[1].cell == c;
    assert r[0].cell != c by {
      WrapCoordinate(c.x + Dx(t), w);
      WrapCoordinate(c.y + Dy(t), h);
    }
  }

  /** The cells of a body, in order (`[member[0] for member in obstacles]`). */
  function Cells(body: seq<Segment>): (r: seq<Cell>)
    ensures |r| == |body| && forall i :: 0 <= i < |body| ==> r[i] == body[i].cell
  {
    seq(|body|, i requires 0 <= i < |body| => body[i].cell)
  }

  /** Index `k` is the first draw off the obstacles' cells. */
  ghost predicate FirstFree(obstacles: seq<Segment>, draws: seq<Cell>, k: int)
  {
    0 <= k < |draws| && draws[k] !in Cells(obstacles) &&
    forall j :: 0 <= j < k ==> draws[j] in Cells(obstacles)
  }

  /**
   * The piece get_body_shape picks for a body segment from its own direction
   * and the one of the segment before it: straight, one of four bends, or
   * none at all for a reversal.
   */
  function Bend(current: Direction, previous: Direction): Option<string>
  {
    if current == previous then
      if current == Up || current == Down then Some("ver") else Some("hor")
    else if (current == Right && previous == Up) || (current == Down && previous == Left) then Some("J")
    else if (current == Left && previous == Up) || (current == Down && previous == Right) then Some("L")
    else if (current == Left && previous == Down) || (current == Up && previous == Right) then Some("r")
    else if (current == Right && previous == Down) || (current == Up && previous == Left) then Some("7")
    else None
  }

  /** Only a reversal has no piece; straight pieces follow the axis. */
  lemma BendCases(current: Direction, previous: Direction)
    ensures Bend(current, previous).None? <==> current == Opposite(previous)
    ensures current == previous ==> Bend(current, previous) == Some(if current in {Up, Down} then "ver" else "hor")
    ensures current != previous && current != Opposite(previous) ==>
      Bend(current, previous).value in {"J", "L", "r", "7"}
  {
  }

  /** A bend is the same piece when walked the other way round. */
  lemma BendReversible(current: Direction, previous: Direction)
    ensures Bend(current, previous) == Bend(Opposite(previous), Opposite(current))
  {
  }

  /**
   * get_body_shape: the piece drawn at `index`, `None` where the source
   * leaves `piece` unassigned.
   */
  function BodyShape(body: seq<Segment>, index: int): (r: Option<string>)
    requires 0 <= index < |body|
    ensures index == 0 ==> r == Some("head-" + Name(body[0].dir))
    ensures 0 < index == |body| - 1 ==> r == Some("tail-" + Name(body[index - 1].dir))
    ensures 0 < index < |body| - 1 ==> r == Bend(body[index].dir, body[index - 1].dir)
    ensures 0 < index < |body| - 1 ==>
      (r.None? <==> body[index].dir == Opposite(body[index - 1].dir))
  {
    var current := body[index].dir;
    // At index 0 Python reads body[-1], the last segment; it is not used there.
    var previous := if index == 0 then body[|body| - 1].dir else body[index - 1].dir;
    BendCases(current, previous);
    if index == 0 then Some("head-" + Name(current))
    else if index == |body| - 1 then Some("tail-" + Name(previous))
    else Bend(current, previous)
  }

  /** On a well-formed body every index has a piece: the unassigned case never arises. */
  lemma ShapeAlwaysDefined(body: seq<Segment>, direction: Direction, w: int, h: int, index: int)
    requires WellFormed(body, direction, w, h) && 0 <= index < |body|
    ensures BodyShape(body, index).Some?
  {
    if 0 < index < |body| - 1 {
      assert body[index - 1].dir != Opposite(body[index].dir);
      OppositeInvolution(body[index].dir);
    }
  }

  /** The player's snake. */
  class Snake {
    const w: int
    const h: int
    const vel: int
    var direction: Direction
    var queue: seq<Direction>
    var timer: int
    var growing: bool
    var body: seq<Segment>

    ghost predicate Valid()
      reads this
    {
      vel > 0 && |queue| <= QueueCapacity && WellFormed(body, direction, w, h)
    }

    /** `__init__`, with reset's random cell and direction passed in. */
    constructor(w: int, h: int, start: Cell, d: Direction)
      requires InGrid(start, w, h)
      ensures Valid() && this.w == w && this.h == h && vel == 10
      ensures direction == d && body == [Segment(start, d), Segment(start, d)]
      ensures queue == [] && timer == 0 && !growing
    {
      this.w, this.h := w, h;
      vel := 10;
      queue, timer, growing := [], 0, false;
      direction, body := d, [];
      new;
      Reset(start, d);
    }

    /** reset: a two-segment body stacked on one cell; the queue, timer and growth flag are kept. */
    method Reset(start: Cell, d: Direction)
      requires vel > 0 && |queue| <= QueueCapacity && InGrid(start, w, h)
      modifies this
      ensures Valid()
      ensures direction == d && body == [Segment(start, d), Segment(start, d)]
      ensures queue == old(queue) && timer == old(timer) && growing == old(growing)
    {
      direction := d;
      body := [Segment(start, d), Segment(start, d)];
    }

    /** get_head. */
    function Head(): (c: Cell)
      reads this
      requires Valid()
      ensures InGrid(c, w, h)
    {
      body[0].cell
    }

    /** The tick gate of move, `now - timer >= 1000 / vel` in integers. */
    predicate Due(now: int)
      reads this
    {
      (now - timer) * vel >= 1000
    }

    /** queue_direction: the bound direction joins the back of the queue unless three are pending. */
    method QueueDirection(key: int, dirs: seq<(int, Direction)>)
      requires Valid() && Settings.KeyBound(dirs, key)
      modifies this
      ensures Valid()
      ensures queue == Enqueue(old(queue), Settings.Lookup(dirs, key).value)
      ensures direction == old(direction) && body == old(body)
      ensures timer == old(timer) && growing == old(growing)
    {
      var d := Settings.Lookup(dirs, key).value;
      if |queue| < QueueCapacity {
        queue := queue + [d];
      }
    }

    /**
     * move: nothing happens before the gate fires; then one queued turn is
     * consumed and adopted unless it reverses the snake, the body advances,
     * the growth flag is spent and the head wraps round the edges.
     */
    method Move(now: int)
      requires Valid()
      modifies this
      ensures Valid()
      ensures !old(Due(now)) ==>
        timer == old(timer) && queue == old(queue) && direction == old(direction) &&
        body == old(body) && growing == old(growing)
      ensures old(Due(now)) ==>
        && timer == now
        && direction == Turn(old(direction), old(queue))
        && queue == Dequeue(old(queue))
        && body == Advance(old(body), direction, old(growing), w, h)
        && !growing
    {
      if (now - timer) * vel >= 1000 {
        timer := now;
        var head := body[0].cell;
        ghost var before := body;
        ghost var wasGrowing := growing;
        ghost var current := direction;
        ghost var pending := queue;

        var newDir := direction;
        if queue != [] {
          newDir := queue[0];
          queue := queue[1..];
        }
        if newDir != Opposite(direction) {
          direction := newDir;
        }
        assert direction == Turn(current, pending);

        ghost var rest := if wasGrowing then before else before[..|before| - 1];
        body := [Segment(Step(head, direction), direction)] + body;
        if growing {
          growing := false;
        } else {
          body := body[..|body| - 1];
          assert body == [Segment(Step(head, direction), direction)] + before[..|before| - 1];
        }
        assert body[0].cell == Step(head, direction) && body[1..] == rest;

        var next := body[0].cell;
        body := [Segment(Wrap(next, w, h), direction)] + body[1..];
        assert body == [Segment(Wrap(Step(head, direction), w, h), direction)] + rest;
        AdvanceWellFormed(before, current, pending, wasGrowing, w, h);
      }
    }

    /** check_collision: a scan of the segments after the head for the head's cell. */
    method CheckCollision() returns (crashed: bool)
      requires |body| >= 1
      ensures crashed <==> Collides(body)
    {
      var head := body[0].cell;
      var i := 1;
      while i < |body|
        invariant 1 <= i <= |body|
        invariant forall j :: 1 <= j < i ==> body[j].cell != head
      {
        if body[i].cell == head {
          return true;
        }
        i := i + 1;
      }
      return false;
    }
  }

  /** The apple. */
  class Apple {
    const w: int
    const h: int
    var pos: Cell

    /** `__init__`: the apple starts at (0, 0) and is placed at once; `draws` are the random cells. */
    constructor(w: int, h: int, obstacles: seq<Segment>, draws: seq<Cell>)
      requires forall k :: 0 <= k < |draws| ==> InGrid(draws[k], w, h)
      ensures this.w == w && this.h == h
      ensures forall k :: FirstFree(obstacles, draws, k) ==> pos == draws[k]
    {
      this.w, this.h := w, h;
      pos := Cell(0, 0);
      new;
      var _ := New(obstacles, draws);
    }

    /**
     * new: draw cells until one is off the obstacles. `draws` is the
     * sequence of random cells; `found` is false when every one of them was
     * banned, where the source would still be drawing.
     */
    method New(obstacles: seq<Segment>, draws: seq<Cell>) returns (found: bool)
      requires forall k :: 0 <= k < |draws| ==> InGrid(draws[k], w, h)
      modifies this
      ensures found <==> exists k :: 0 <= k < |draws| && draws[k] !in Cells(obstacles)
      ensures found ==> InGrid(pos, w, h) && pos !in Cells(obstacles)
      ensures forall k :: FirstFree(obstacles, draws, k) ==> pos == draws[k]
      ensures !found ==> pos == if draws == [] then old(pos) else draws[|draws| - 1]
    {
      var banned := Cells(obstacles);
      found := false;
      var i := 0;
      while i < |draws|
        invariant 0 <= i <= |draws|
        invariant forall j :: 0 <= j < i ==> draws[j] in banned
        invariant pos == if i == 0 then old(pos) else draws[i - 1]
      {
        pos := draws[i];
        if pos !in banned {
          found := true;
          assert FirstFree(obstacles, draws, i);
          return;
        }
        i := i + 1;
      }
    }
  }

  /** The menu's scrolling background: a wide layer and a surface moving at half its speed. */
  class ParaBackground {
    const width: int
    const layerWidth: int
    const maxX: int
    const vel: int
    var surfaceX: int
    var layerX: int
    var timer: int
    var moved: bool
    var direction: int

    /** Everything move and the menu's tick change, as one value. */
    function Position(): (int, int, int, bool, int)
      reads this
    {
      (surfaceX, layerX, timer, moved, direction)
    }

    /**
     * The direction is always a unit step; a layer wider than the display
     * stays between its two turning points and faces inwards at each.
     */
    ghost predicate Valid()
      reads this
    {
      && (direction == 1 || direction == -1)
      && vel > 0
      && maxX == layerWidth - width
      && (layerWidth > width ==>
            && width - layerWidth <= layerX <= maxX
            && (layerX == width - layerWidth ==> direction == 1)
            && (layerX == maxX ==> direction == -1))
    }

    /** `__init__`: the layer at its turning point `max_x`, its width less the display's, moving left. */
    constructor(width: int, layerWidth: int)
      ensures Valid() && this.width == width && this.layerWidth == layerWidth
      ensures surfaceX == 0 && layerX == layerWidth - width && maxX == layerX
      ensures timer == 0 && vel == 60 && !moved && direction == -1
    {
      this.width, this.layerWidth := width, layerWidth;
      surfaceX := 0;
      layerX := layerWidth - width;
      maxX := layerWidth - width;
      timer, vel, moved, direction := 0, 60, false, -1;
    }

    /**
     * move: the layer shifts by one step every call, the surface every
     * other call; the direction flips at either edge.
     */
    method Move()
      requires Valid()
      modifies this
      ensures Valid()
      ensures layerX == old(layerX) + old(direction)
      ensures surfaceX == old(surfaceX) + (if old(moved) then 0 else old(direction))
      ensures moved == !old(moved) && timer == old(timer)
      ensures direction ==
        if layerX + layerWidth <= width || layerX >= maxX then -old(direction) else old(direction)
    {
      layerX := layerX + direction;
      if !moved {
        surfaceX := surfaceX + direction;
        moved := true;
      } else {
        moved := false;
      }
      if layerX + layerWidth <= width {
        direction := -direction;
      } else if layerX >= maxX {
        direction := -direction;
      }
    }
  }
}
