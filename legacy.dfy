/**
 * snake.py: the earlier single-file game. Its snake moves once per frame in
 * the direction the last arrow key set, on a fixed 800 by 640 window of
 * 32-pixel blocks.
 */
module Legacy {
  import opened Wrappers
  import opened Consts
  import opened Objects

  const Width: int := 800
  const Height: int := 640
  const Block: int := 32

  /** The grid: 25 columns and 20 rows. */
  const Columns: int := Width / Block
  const Rows: int := Height / Block

  /** get_head_skin: "head-" followed by the direction's name. */
  function HeadSkin(current: Direction): (r: string)
    ensures |r| > 5 && r[..5] == "head-" && r[5..] == Name(current)
  {
    "head-" + Name(current)
  }

  /** get_tail_skin: "tail-" followed by the direction's name. */
  function TailSkin(previous: Direction): (r: string)
    ensures |r| > 5 && r[..5] == "tail-" && r[5..] == Name(previous)
  {
    "tail-" + Name(previous)
  }

  /** get_body_skin: a straight piece, one of four bends, or None for a reversal. */
  function BodySkin(current: Direction, previous: Direction): (r: Option<string>)
    ensures r.None? <==> current == Opposite(previous)
    ensures current == previous ==>
      r == Some(if current == Up || current == Down then "vertical" else "horizontal")
    ensures current != previous && r.Some? ==> r.value in {"J", "L", "r", "7"}
  {
    if current == previous then
      if current == Up || current == Down then Some("vertical") else Some("horizontal")
    else if (current == Right && previous == Up) || (current == Down && previous == Left) then Some("J")
    else if (current == Left && previous == Up) || (current == Down && previous == Right) then Some("L")
    else if (current == Left && previous == Down) || (current == Up && previous == Right) then Some("r")
    else if (current == Right && previous == Down) || (current == Up && previous == Left) then Some("7")
    else None
  }

  /**
   * The skins pick the same piece as objects.py's body shapes, under the
   * longer names for the straight pieces; only a reversal has none.
   */
  lemma BodySkinMatchesBend(current: Direction, previous: Direction)
    ensures BodySkin(current, previous).None? <==> current == Opposite(previous)
    ensures BodySkin(current, previous).None? <==> Bend(current, previous).None?
    ensures Bend(current, previous) == Some("ver") <==> BodySkin(current, previous) == Some("vertical")
    ensures Bend(current, previous) == Some("hor") <==> BodySkin(current, previous) == Some("horizontal")
    ensures current != previous ==> BodySkin(current, previous) == Bend(current, previous)
  {
  }

  /** A head or tail piece tells which way it points, and no head piece is a tail piece. */
  lemma SkinsIdentifyDirection(a: Direction, b: Direction)
    ensures HeadSkin(a) == HeadSkin(b) ==> a == b
    ensures TailSkin(a) == TailSkin(b) ==> a == b
    ensures HeadSkin(a) != TailSkin(b)
  {
    if HeadSkin(a) == HeadSkin(b) {
      assert Name(a) == HeadSkin(a)[5..] == HeadSkin(b)[5..] == Name(b);
      NameInjective(a, b);
    }
    if TailSkin(a) == TailSkin(b) {
      assert Name(a) == TailSkin(a)[5..] == TailSkin(b)[5..] == Name(b);
      NameInjective(a, b);
    }
    assert HeadSkin(a)[0] == 'h' && TailSkin(b)[0] == 't';
  }

  /**
   * The direction an arrow key leaves: its own, unless the snake moves the
   * opposite way; any other key leaves the direction as it was.
   */
  function KeyTurn(key: int, current: Direction): (d: Direction)
    ensures d != Opposite(current)
  {
    OppositeIrreflexive(current);
    if key == ArrowUp && current != Down then Up
    else if key == ArrowDown && current != Up then Down
    else if key == ArrowLeft && current != Right then Left
    else if key == ArrowRight && current != Left then Right
    else current
  }

  /** A single key never reverses the snake, but two in one frame can: up, then left and down. */
  lemma TwoKeysReverse()
    ensures KeyTurn(ArrowDown, KeyTurn(ArrowLeft, Up)) == Opposite(Up)
  {
  }

  /** The player's snake. */
  class Snake {
    var direction: Direction
    var body: seq<Segment>

    ghost predicate Valid()
      reads this
    {
      |body| >= 2 && forall i :: 0 <= i < |body| ==> InGrid(body[i].cell, Columns, Rows)
    }

    /** `__init__`, with reset's random cell and direction passed in. */
    constructor(start: Cell, d: Direction)
      requires InGrid(start, Columns, Rows)
      ensures Valid() && direction == d && body == [Segment(start, d), Segment(start, d)]
    {
      direction, body := d, [];
      new;
      Reset(start, d);
    }

    /** reset: two identical segments at one cell of the grid. */
    method Reset(start: Cell, d: Direction)
      requires InGrid(start, Columns, Rows)
      modifies this
      ensures Valid() && direction == d && body == [Segment(start, d), Segment(start, d)]
    {
      direction := d;
      body := [Segment(start, d), Segment(start, d)];
    }

    /** get_head. */
    function Head(): (c: Cell)
      reads this
      requires Valid()
      ensures InGrid(c, Columns, Rows)
    {
      body[0].cell
    }

    /** grow: one segment appended at the tail end, at `c`, tagged with the current direction. */
    method Grow(c: Cell)
      requires Valid() && InGrid(c, Columns, Rows)
      modifies this
      ensures Valid()
      ensures body == old(body) + [Segment(c, direction)] && direction == old(direction)
    {
      body := body + [Segment(c, direction)];
    }

    /** move: one step every frame, length kept, the head wrapped round the edges. */
    method Move()
      requires Valid()
      modifies this
      ensures Valid() && direction == old(direction)
      ensures body == Advance(old(body), direction, false, Columns, Rows)
      ensures |body| == |old(body)|
    {
      ghost var before := body;
      var head := body[0].cell;
      body := [Segment(Step(head, direction), direction)] + body;
      body := body[..|body| - 1];
      var next := body[0].cell;
      body := [Segment(Wrap(next, Columns, Rows), direction)] + body[1..];
      assert body == Advance(before, direction, false, Columns, Rows);
      WrapIsToroidal(head, direction, Columns, Rows);
      forall i | 0 <= i < |body| ensures InGrid(body[i].cell, Columns, Rows) {
        if i > 0 { assert body[i] == before[i - 1]; }
      }
    }

    /** check_collision: the head's cell is found among the later segments. */
    method CheckCollision() returns (crashed: bool)
      requires |body| >= 1
      ensures crashed <==> Collides(body)
    {
      var head := body[0].cell;
      for i := 1 to |body|
        invariant forall j :: 1 <= j < i ==> body[j].cell != head
      {
        if body[i].cell == head {
          return true;
        }
      }
      return false;
    }
  }

  /** The game: flags, the snake and the apple. */
  class Game {
    const snake: Snake
    const apple: Apple
    var running: bool
    var onPause: bool
    var gameover: bool
    var showGrid: bool

    ghost predicate Valid()
      reads this, snake
    {
      snake.Valid() && apple.w == Columns && apple.h == Rows
    }

    /** `__init__` with on_init's snake and apple; `draws` are the apple's random cells. */
    constructor(start: Cell, d: Direction, draws: seq<Cell>)
      requires InGrid(start, Columns, Rows)
      requires forall k :: 0 <= k < |draws| ==> InGrid(draws[k], Columns, Rows)
      ensures Valid() && fresh(snake) && fresh(apple)
      ensures running && !onPause && !gameover && !showGrid
      ensures snake.direction == d && snake.body == [Segment(start, d), Segment(start, d)]
      ensures forall k :: FirstFree(snake.body, draws, k) ==> apple.pos == draws[k]
    {
      running, onPause, gameover, showGrid := true, false, false, false;
      var s := new Snake(start, d);
      snake := s;
      apple := new Apple(Columns, Rows, s.body, draws);
    }

    /** pause. */
    method Pause()
      modifies this
      ensures onPause && running == old(running) && gameover == old(gameover) && showGrid == old(showGrid)
    {
      onPause := true;
    }

    /** unpause. */
    method Unpause()
      modifies this
      ensures !onPause && running == old(running) && gameover == old(gameover) && showGrid == old(showGrid)
    {
      onPause := false;
    }

    /**
     * on_event: quitting ends the game; while playing, arrows turn (never
     * straight back), g toggles the grid and p pauses; while paused, only p
     * has an effect.
     */
    method OnEvent(e: Event)
      requires Valid()
      modifies this, snake
      ensures Valid() && snake.body == old(snake.body)
      ensures e.Quit? || (e.KeyDown? && e.key == KeyEscape) ==>
        gameover && !running && onPause == old(onPause) && showGrid == old(showGrid) &&
        snake.direction == old(snake.direction)
      ensures e.KeyDown? && e.key != KeyEscape && !old(onPause) ==>
        && running == old(running) && gameover == old(gameover)
        && snake.direction == KeyTurn(e.key, old(snake.direction))
        && showGrid == (old(showGrid) != (e.key == KeyG))
        && onPause == (e.key == KeyP)
      ensures e.KeyDown? && e.key != KeyEscape && old(onPause) ==>
        && running == old(running) && gameover == old(gameover) && showGrid == old(showGrid)
        && snake.direction == old(snake.direction)
        && onPause == (e.key != KeyP)
      ensures e.OtherEvent? ==>
        running == old(running) && gameover == old(gameover) && showGrid == old(showGrid) &&
        onPause == old(onPause) && snake.direction == old(snake.direction)
    {
      if e.Quit? || (e.KeyDown? && e.key == KeyEscape) {
        gameover := true;
        running := false;
      } else if e.KeyDown? && !onPause {
        if e.key == ArrowUp && snake.direction != Down {
          snake.direction := Up;
        } else if e.key == ArrowDown && snake.direction != Up {
          snake.direction := Down;
        } else if e.key == ArrowLeft && snake.direction != Right {
          snake.direction := Left;
        } else if e.key == ArrowRight && snake.direction != Left {
          snake.direction := Right;
        } else if e.key == KeyG {
          showGrid := !showGrid;
        } else if e.key == KeyP {
          Pause();
        }
      } else if e.KeyDown? && onPause {
        if e.key == KeyP {
          Unpause();
        }
      }
    }

    /** check_food: on the apple, grow at the head's cell and place a new apple off the body. */
    method CheckFood(draws: seq<Cell>)
      requires Valid()
      requires forall k :: 0 <= k < |draws| ==> InGrid(draws[k], Columns, Rows)
      modifies snake, apple
      ensures Valid() && snake.direction == old(snake.direction)
      ensures old(snake.Head()) == old(apple.pos) ==>
        snake.body == old(snake.body) + [Segment(old(snake.Head()), snake.direction)]
      ensures old(snake.Head()) != old(apple.pos) ==>
        snake.body == old(snake.body) && apple.pos == old(apple.pos)
      ensures forall k :: old(snake.Head()) == old(apple.pos) && FirstFree(snake.body, draws, k) ==>
        apple.pos == draws[k]
    {
      if snake.Head() == apple.pos {
        snake.Grow(snake.Head());
        var _ := apple.New(snake.body, draws);
      }
    }

    /** on_loop: unless paused, move, flag a crash, then feed. */
    method OnLoop(draws: seq<Cell>)
      requires Valid()
      requires forall k :: 0 <= k < |draws| ==> InGrid(draws[k], Columns, Rows)
      modifies this, snake, apple
      ensures Valid() && running == old(running) && onPause == old(onPause) && showGrid == old(showGrid)
      ensures snake.direction == old(snake.direction)
      ensures old(onPause) ==>
        snake.body == old(snake.body) && apple.pos == old(apple.pos) && gameover == old(gameover)
      ensures !old(onPause) ==>
        var moved := Advance(old(snake.body), old(snake.direction), false, Columns, Rows);
        && gameover == (old(gameover) || Collides(moved))
        && snake.body == (if moved[0].cell == old(apple.pos) then moved + [Segment(moved[0].cell, old(snake.direction))] else moved)
        && (moved[0].cell != old(apple.pos) ==> apple.pos == old(apple.pos))
        && (moved[0].cell == old(apple.pos) ==> forall k :: FirstFree(snake.body, draws, k) ==> apple.pos == draws[k])
    {
      if !onPause {
        snake.Move();
        var crashed := snake.CheckCollision();
        if crashed {
          gameover := true;
        }
        CheckFood(draws);
      }
    }
  }
}
