/**
 * scenes.py: the scene objects the main loop drives. A scene asks for its
 * successor by setting `next`; which scene to build is recorded as a
 * request, since building it (assets, music, display) lies outside the
 * model.
 */
module Scenes {
  import opened Wrappers
  import opened Consts
  import opened Highscores
  import opened Objects
  import Settings

  /** The scenes a switch can ask for; `ToTransition(t)` fades into `t`. */
  datatype SceneRequest =
    | ToTransition(target: SceneRequest)
    | ToGame
    | ToMenu
    | ToGameOver(score: int)
    | ToHighScores
    | ToExit

  /** `self.next`: the scene itself, a newly built scene, or None (the game closes). */
  datatype Next = ThisScene | NewScene(request: SceneRequest) | NoScene

  /** SceneBase: the part every scene shares. */
  class SceneBase {
    var next: Next

    constructor()
      ensures next == ThisScene
    {
      next := ThisScene;
    }

    /** switch_to_scene: the requested scene, or None when there is none. */
    method SwitchToScene(scene: Option<SceneRequest>)
      modifies this
      ensures next == if scene.Some? then NewScene(scene.value) else NoScene
    {
      if scene.Some? {
        next := NewScene(scene.value);
      } else {
        next := NoScene;
      }
    }

    /** terminate: switch to no scene. */
    method Terminate()
      modifies this
      ensures next == NoScene
    {
      SwitchToScene(None);
    }
  }

  /** SceneTransition: a one-second fade before the scene it was built for. */
  class SceneTransition {
    const base: SceneBase
    const whenFinished: SceneRequest
    var running: bool
    var timer: int

    constructor(target: SceneRequest)
      ensures fresh(base) && base.next == ThisScene
      ensures whenFinished == target && !running && timer == 0
    {
      base := new SceneBase();
      whenFinished := target;
      running, timer := false, 0;
    }

    /**
     * update: the first call starts the clock; the switch comes on a call
     * more than 1000 ms after it, so never on the first.
     */
    method Update(now: int)
      modifies this, base
      ensures running
      ensures timer == if old(running) then old(timer) else now
      ensures base.next == if now - timer > 1000 then NewScene(whenFinished) else old(base.next)
    {
      if !running {
        running := true;
        timer := now;
      }
      if now - timer > 1000 {
        base.SwitchToScene(Some(whenFinished));
      }
    }
  }

  /** SceneExit: the credits, shown for 2.5 seconds before the game closes. */
  class SceneExit {
    const base: SceneBase
    var timer: int
    var started: bool

    constructor()
      ensures fresh(base) && base.next == ThisScene && timer == 0 && !started
    {
      base := new SceneBase();
      timer, started := 0, false;
    }

    /** update: the first call starts the clock and never closes; later calls close at 2500 ms. */
    method Update(now: int)
      modifies this, base
      ensures started
      ensures !old(started) ==> timer == now && base.next == old(base.next)
      ensures old(started) ==> timer == old(timer)
      ensures old(started) ==> base.next == if now - timer >= 2500 then NoScene else old(base.next)
    {
      if !started {
        timer := now;
        started := true;
      } else if now - timer >= 2500 {
        base.SwitchToScene(None);
      }
    }
  }

  /** The part of SceneGame that process_input changes: pause, grid, paint flag and pending turns. */
  datatype Controls = Controls(paused: bool, grid: bool, painted: bool, queue: seq<Direction>)

  /** One event of SceneGame.process_input. */
  function Control(c: Controls, e: Event, km: KeyMapping, crashed: bool): Controls
  {
    if crashed then c
    else if c.paused then
      if e.KeyDown? && e.key == km.pause then c.(paused := false) else c
    else if e.KeyDown? then
      if Settings.KeyBound(km.direction, e.key) then
        c.(queue := Enqueue(c.queue, Settings.Lookup(km.direction, e.key).value))
      else if e.key == km.grid then c.(grid := !c.grid)
      else if e.key == km.pause then c.(paused := true, painted := false)
      else c
    else c
  }

  /** The events of one frame, in order. */
  function ControlAll(c: Controls, events: seq<Event>, km: KeyMapping, crashed: bool): Controls
    decreases |events|
  {
    if events == [] then c else ControlAll(Control(c, events[0], km, crashed), events[1..], km, crashed)
  }

  /** After a crash every event is ignored. */
  lemma {:induction false} CrashedIgnoresInput(c: Controls, events: seq<Event>, km: KeyMapping)
    ensures ControlAll(c, events, km, true) == c
    decreases |events|
  {
    if events != [] {
      CrashedIgnoresInput(c, events[1..], km);
    }
  }

  /** The pause key was pressed in this frame. */
  predicate PausePressed(events: seq<Event>, km: KeyMapping)
  {
    exists i :: 0 <= i < |events| && events[i].KeyDown? && events[i].key == km.pause
  }

  /** While paused, nothing but the pause key has an effect. */
  lemma {:induction false} PausedWaitsForPauseKey(c: Controls, events: seq<Event>, km: KeyMapping, crashed: bool)
    requires c.paused && !PausePressed(events, km)
    ensures ControlAll(c, events, km, crashed) == c
    decreases |events|
  {
    if events != [] {
      assert !(events[0].KeyDown? && events[0].key == km.pause);
      assert !PausePressed(events[1..], km) by {
        forall i | 0 <= i < |events[1..]|
          ensures !(events[1..][i].KeyDown? && events[1..][i].key == km.pause)
        {
          assert events[1..][i] == events[i + 1];
        }
      }
      PausedWaitsForPauseKey(c, events[1..], km, crashed);
    }
  }

  /**
   * The pause key pressed twice pauses and unpauses, leaving everything as
   * it was except the paint flag, as long as that key is neither a
   * direction key nor the grid key.
   */
  lemma PauseUnpause(c: Controls, key: int, text: string, km: KeyMapping)
    requires !c.paused && key == km.pause && key != km.grid && !Settings.KeyBound(km.direction, key)
    ensures Control(c, KeyDown(key, text), km, false).paused
    ensures Control(Control(c, KeyDown(key, text), km, false), KeyDown(key, text), km, false) == c.(painted := false)
  {
  }

  /** The pending turns never exceed the queue's capacity. */
  lemma {:induction false} QueueStaysBounded(c: Controls, events: seq<Event>, km: KeyMapping, crashed: bool)
    requires |c.queue| <= QueueCapacity
    ensures |ControlAll(c, events, km, crashed).queue| <= QueueCapacity
    decreases |events|
  {
    if events != [] {
      var c' := Control(c, events[0], km, crashed);
      if !crashed && !c.paused && events[0].KeyDown? && Settings.KeyBound(km.direction, events[0].key) {
        EnqueueNeverEvicts(c.queue, Settings.Lookup(km.direction, events[0].key).value);
      }
      QueueStaysBounded(c', events[1..], km, crashed);
    }
  }

  /** SceneGame: the play field with the snake and the apple. */
  class SceneGame {
    const base: SceneBase
    const store: Settings.Store
    const snake: Snake
    const apple: Apple
    var timer: int
    var isPaused: bool
    var hasCrashed: bool
    var eventPainted: bool
    var showGrid: bool

    ghost predicate Valid()
      reads this, snake
    {
      snake.Valid() && apple.w == snake.w && apple.h == snake.h
    }

    /** What process_input changes, as one value. */
    function View(): Controls
      reads this, snake
    {
      Controls(isPaused, showGrid, eventPainted, snake.queue)
    }

    /** `__init__`: a fresh snake (start cell and direction passed in) and an apple placed off it. */
    constructor(store: Settings.Store, w: int, h: int, start: Cell, d: Direction, draws: seq<Cell>)
      requires InGrid(start, w, h)
      requires forall k :: 0 <= k < |draws| ==> InGrid(draws[k], w, h)
      ensures Valid() && fresh(base) && fresh(snake) && fresh(apple) && this.store == store
      ensures base.next == ThisScene && timer == 0
      ensures !isPaused && !hasCrashed && !eventPainted && !showGrid
      ensures snake.w == w && snake.h == h && snake.vel == 10
      ensures snake.direction == d && snake.body == [Segment(start, d), Segment(start, d)]
      ensures snake.queue == [] && snake.timer == 0 && !snake.growing
      ensures forall k :: FirstFree(snake.body, draws, k) ==> apple.pos == draws[k]
    {
      base := new SceneBase();
      this.store := store;
      timer := 0;
      isPaused, hasCrashed, eventPainted, showGrid := false, false, false, false;
      var s := new Snake(w, h, start, d);
      snake := s;
      apple := new Apple(w, h, s.body, draws);
    }

    /** pause. */
    method Pause()
      modifies this
      ensures isPaused && !eventPainted
      ensures timer == old(timer) && hasCrashed == old(hasCrashed) && showGrid == old(showGrid)
    {
      isPaused := true;
      eventPainted := false;
    }

    /** unpause. */
    method Unpause()
      modifies this
      ensures !isPaused
      ensures timer == old(timer) && hasCrashed == old(hasCrashed)
      ensures showGrid == old(showGrid) && eventPainted == old(eventPainted)
    {
      isPaused := false;
    }

    /** process_input: each event in turn, as ControlAll describes; the snake only gains queued turns. */
    method ProcessInput(events: seq<Event>)
      requires Valid()
      modifies this, snake
      ensures Valid()
      ensures View() == ControlAll(old(View()), events, store.keymapping, old(hasCrashed))
      ensures hasCrashed == old(hasCrashed) && timer == old(timer)
      ensures snake.body == old(snake.body) && snake.direction == old(snake.direction)
      ensures snake.timer == old(snake.timer) && snake.growing == old(snake.growing)
    {
      var km := store.keymapping;
      var i := 0;
      while i < |events|
        invariant 0 <= i <= |events|
        invariant Valid()
        invariant ControlAll(View(), events[i..], km, hasCrashed) == ControlAll(old(View()), events, km, old(hasCrashed))
        invariant hasCrashed == old(hasCrashed) && timer == old(timer)
        invariant snake.body == old(snake.body) && snake.direction == old(snake.direction)
        invariant snake.timer == old(snake.timer) && snake.growing == old(snake.growing)
      {
        var event := events[i];
        ghost var before := View();
        if !hasCrashed {
          if isPaused {
            if event.KeyDown? && event.key == km.pause {
              Unpause();
            }
          } else if event.KeyDown? {
            if Settings.KeyBound(km.direction, event.key) {
              snake.QueueDirection(event.key, km.direction);
            } else if event.key == km.grid {
              showGrid := !showGrid;
            } else if event.key == km.pause {
              Pause();
            }
          }
        }
        assert View() == Control(before, event, km, hasCrashed);
        assert events[i..][1..] == events[i + 1..];
        i := i + 1;
      }
    }

    /**
     * update: while running, move, then eat an apple under the new head
     * (growth and a new apple off the body), then check for a crash. Once
     * crashed, hand over to the game-over scene more than 3000 ms later with
     * the number of apples eaten as the score. While paused, nothing.
     */
    method Update(now: int, draws: seq<Cell>)
      requires Valid()
      requires forall k :: 0 <= k < |draws| ==> InGrid(draws[k], snake.w, snake.h)
      modifies this, snake, apple, base
      ensures Valid()
      ensures isPaused == old(isPaused) && showGrid == old(showGrid)
      ensures old(isPaused) || old(hasCrashed) ==>
        && snake.body == old(snake.body) && snake.queue == old(snake.queue)
        && snake.direction == old(snake.direction) && snake.timer == old(snake.timer)
        && snake.growing == old(snake.growing) && apple.pos == old(apple.pos)
        && hasCrashed == old(hasCrashed) && timer == old(timer) && eventPainted == old(eventPainted)
      ensures old(hasCrashed) ==>
        base.next == if now - timer > 3000 then NewScene(ToGameOver(|snake.body| - 2)) else old(base.next)
      ensures old(isPaused) && !old(hasCrashed) ==> base.next == old(base.next)
      ensures !old(isPaused) && !old(hasCrashed) ==>
        && base.next == old(base.next)
        && snake.direction == (if old(snake.Due(now)) then Turn(old(snake.direction), old(snake.queue)) else old(snake.direction))
        && snake.queue == (if old(snake.Due(now)) then Dequeue(old(snake.queue)) else old(snake.queue))
        && snake.timer == (if old(snake.Due(now)) then now else old(snake.timer))
        && snake.body == (if old(snake.Due(now))
                          then Advance(old(snake.body), snake.direction, old(snake.growing), snake.w, snake.h)
                          else old(snake.body))
        && snake.growing == (snake.Head() == old(apple.pos) || (!old(snake.Due(now)) && old(snake.growing)))
        && (snake.Head() != old(apple.pos) ==> apple.pos == old(apple.pos))
        && (snake.Head() == old(apple.pos) ==> forall k :: FirstFree(snake.body, draws, k) ==> apple.pos == draws[k])
        && hasCrashed == Collides(snake.body)
        && (hasCrashed ==> timer == now && !eventPainted)
        && (!hasCrashed ==> timer == old(timer) && eventPainted == old(eventPainted))
    {
      if !isPaused && !hasCrashed {
        snake.Move(now);
        if snake.Head() == apple.pos {
          snake.growing := true;
          var _ := apple.New(snake.body, draws);
        }
        var crashed := snake.CheckCollision();
        if crashed {
          hasCrashed := true;
          eventPainted := false;
          timer := now;
        }
      } else if hasCrashed && now - timer > 3000 {
        var score := |snake.body| - 2;
        base.SwitchToScene(Some(ToGameOver(score)));
      }
    }
  }

  /** ASCII letters and digits, what `str.isalnum` accepts among them. */
  predicate IsAlnumChar(ch: char)
  {
    'a' <= ch <= 'z' || 'A' <= ch <= 'Z' || '0' <= ch <= '9'
  }

  /** `str.isalnum`: non-empty and every character a letter or digit. */
  predicate IsAlnum(s: string)
  {
    |s| > 0 && forall i :: 0 <= i < |s| ==> IsAlnumChar(s[i])
  }

  /** `str.upper` on ASCII letters. */
  function Upper(s: string): (r: string)
    ensures |r| == |s|
    ensures forall i :: 0 <= i < |s| ==> r[i] == if 'a' <= s[i] <= 'z' then (s[i] as int - 32) as char else s[i]
  {
    if s == [] then []
    else [if 'a' <= s[0] <= 'z' then (s[0] as int - 32) as char else s[0]] + Upper(s[1..])
  }

  /** Initials as they can appear on screen: upper-case letters and digits. */
  predicate UpperAlnum(s: string)
  {
    forall i :: 0 <= i < |s| ==> ('A' <= s[i] <= 'Z' || '0' <= s[i] <= '9')
  }

  /** The upper-cased form of a letter-or-digit string has only upper-case letters and digits. */
  lemma UpperOfAlnum(s: string)
    requires IsAlnum(s)
    ensures UpperAlnum(Upper(s))
  {
  }

  /**
   * lower_highscore compared with the score, as scenes.py:292 writes it:
   * the IndexError of an empty table propagates.
   */
  function RecordAsWritten(score: int, table: seq<Entry>): (r: Result<bool, Settings.Error>)
    ensures r.Err? <==> table == []
    ensures r.Ok? ==> (r.value <==> score > table[|table| - 1].score)
  {
    match Settings.LowerHighscore(table)
    case Ok(lowest) => Ok(score > lowest)
    case Err(e) => Err(e)
  }

  /** The first game over with an empty high-score table raises IndexError. */
  lemma EmptyTableRaises(score: int)
    ensures RecordAsWritten(score, []) == Err(Settings.IndexError)
  {
  }

  /** Whether a score earns a place: any score while the table has room, else one above the lowest. */
  predicate IsRecord(score: int, table: seq<Entry>)
  {
    |table| < Capacity || score > table[|table| - 1].score
  }

  /** On a full table the corrected check agrees with the source's. */
  lemma RecordAgreesWhenFull(score: int, table: seq<Entry>)
    requires |table| == Capacity
    ensures RecordAsWritten(score, table) == Ok(IsRecord(score, table))
  {
  }

  /** A record really enters the table that add_highscore leaves. */
  lemma RecordEntersTable(table: seq<Entry>, e: Entry)
    requires Sorted(table) && |table| <= Capacity && IsRecord(e.score, table)
    ensures e in AddEntry(table, e)
  {
    AddEntryShape(table, e);
    if |table| < Capacity {
      assert e in multiset(AddEntry(table, e));
    } else {
      HigherScoreEnters(table, e);
    }
  }

  /** What SceneGameOver.process_input changes: the mode, the initials, the switch and the table. */
  datatype GameOverView = GameOverView(record: bool, initials: string, next: Next, table: seq<Entry>)

  /** One event of SceneGameOver.process_input; `today` is the ISO date add_highscore stamps. */
  function GameOverStep(v: GameOverView, e: Event, km: KeyMapping, score: int, today: string): GameOverView
  {
    if !e.KeyDown? then v
    else if !v.record then
      if e.key == km.accept then v.(next := NewScene(ToGame))
      else if e.key == km.pause then v.(next := NewScene(ToMenu))
      else v
    else if e.key == km.accept then
      v.(table := AddEntry(v.table, Entry(v.initials, score, today)), record := false)
    else if e.key == KeyBackspace then
      v.(initials := if v.initials == [] then [] else v.initials[..|v.initials| - 1])
    else if |v.initials| < 3 && IsAlnum(e.text) then
      v.(initials := v.initials + Upper(e.text))
    else v
  }

  function GameOverAll(v: GameOverView, events: seq<Event>, km: KeyMapping, score: int, today: string): GameOverView
    decreases |events|
  {
    if events == [] then v
    else GameOverAll(GameOverStep(v, events[0], km, score, today), events[1..], km, score, today)
  }

  /** Key events carry at most one character, as pygame produces them. */
  predicate SingleCharacters(events: seq<Event>)
  {
    forall i :: 0 <= i < |events| ==> events[i].KeyDown? ==> |events[i].text| <= 1
  }

  /** The initials stay at most three upper-case letters or digits. */
  lemma {:induction false} InitialsStayShort(v: GameOverView, events: seq<Event>, km: KeyMapping, score: int, today: string)
    requires |v.initials| <= 3 && UpperAlnum(v.initials) && SingleCharacters(events)
    ensures var r := GameOverAll(v, events, km, score, today);
      |r.initials| <= 3 && UpperAlnum(r.initials)
    decreases |events|
  {
    if events != [] {
      var e := events[0];
      var v' := GameOverStep(v, e, km, score, today);
      if e.KeyDown? && v.record && e.key != km.accept && e.key != KeyBackspace && |v.initials| < 3 && IsAlnum(e.text) {
        UpperOfAlnum(e.text);
        assert v'.initials == v.initials + Upper(e.text);
      }
      assert SingleCharacters(events[1..]) by {
        forall i | 0 <= i < |events[1..]| ensures events[1..][i].KeyDown? ==> |events[1..][i].text| <= 1 {
          assert events[1..][i] == events[i + 1];
        }
      }
      InitialsStayShort(v', events[1..], km, score, today);
    }
  }

  /** Once the entry is committed, the initials and the table are fixed. */
  lemma {:induction false} CommittedStaysCommitted(v: GameOverView, events: seq<Event>, km: KeyMapping, score: int, today: string)
    requires !v.record
    ensures var r := GameOverAll(v, events, km, score, today);
      !r.record && r.initials == v.initials && r.table == v.table
    decreases |events|
  {
    if events != [] {
      CommittedStaysCommitted(GameOverStep(v, events[0], km, score, today), events[1..], km, score, today);
    }
  }

  /** A sorted table of at most five entries stays so, whatever is typed. */
  lemma {:induction false} TableStaysRanked(v: GameOverView, events: seq<Event>, km: KeyMapping, score: int, today: string)
    requires Sorted(v.table) && |v.table| <= Capacity
    ensures var r := GameOverAll(v, events, km, score, today);
      Sorted(r.table) && |r.table| <= Capacity
    decreases |events|
  {
    if events != [] {
      var v' := GameOverStep(v, events[0], km, score, today);
      AddEntryShape(v.table, Entry(v.initials, score, today));
      TableStaysRanked(v', events[1..], km, score, today);
    }
  }

  /** SceneGameOver: the final score, and the initials of a new record. */
  class SceneGameOver {
    const base: SceneBase
    const store: Settings.Store
    const score: int
    var record: bool
    var initials: string

    function View(): GameOverView
      reads this, base, store, store.highscores
    {
      GameOverView(record, initials, base.next, store.highscores.entries)
    }

    /** `__init__`, with the record check corrected for a table with room. */
    constructor(store: Settings.Store, score: int)
      ensures fresh(base) && base.next == ThisScene && this.store == store && this.score == score
      ensures record == IsRecord(score, store.highscores.entries) && initials == ""
    {
      base := new SceneBase();
      this.store := store;
      this.score := score;
      record := IsRecord(score, store.highscores.entries);
      initials := "";
    }

    /** add_highscore: the new entry appended to the stored list, which is sorted and cut to five. */
    method AddHighscore(today: string)
      modifies store.highscores
      ensures store.highscores.entries == AddEntry(old(store.highscores.entries), Entry(initials, score, today))
    {
      var top := store.GetHighscores();
      top.entries := top.entries + [Entry(initials, score, today)];
      top.entries := SortByKey(top.entries);
      if |top.entries| > Capacity {
        top.entries := top.entries[..|top.entries| - 1];
      }
    }

    /** process_input: each event in turn, as GameOverAll describes. */
    method ProcessInput(events: seq<Event>, today: string)
      modifies this, base, store.highscores
      ensures View() == GameOverAll(old(View()), events, store.keymapping, score, today)
    {
      var km := store.keymapping;
      var i := 0;
      while i < |events|
        invariant 0 <= i <= |events|
        invariant GameOverAll(View(), events[i..], km, score, today) == GameOverAll(old(View()), events, km, score, today)
      {
        var event := events[i];
        ghost var before := View();
        if event.KeyDown? {
          if !record {
            if event.key == km.accept {
              base.SwitchToScene(Some(ToGame));
            } else if event.key == km.pause {
              base.SwitchToScene(Some(ToMenu));
            }
          } else {
            if event.key == km.accept {
              AddHighscore(today);
              record := false;
            } else if event.key == KeyBackspace {
              initials := if initials == [] then [] else initials[..|initials| - 1];
            } else if |initials| < 3 && IsAlnum(event.text) {
              initials := initials + Upper(event.text);
            }
          }
        }
        assert View() == GameOverStep(before, event, km, score, today);
        assert events[i..][1..] == events[i + 1..];
        i := i + 1;
      }
    }
  }

  /** SceneHighScores: the table, left with the accept key. */
  class SceneHighScores {
    const base: SceneBase
    const store: Settings.Store

    constructor(store: Settings.Store)
      ensures fresh(base) && base.next == ThisScene && this.store == store
    {
      base := new SceneBase();
      this.store := store;
    }

    /** process_input: the accept key anywhere in the frame goes back to the menu. */
    method ProcessInput(events: seq<Event>)
      modifies base
      ensures base.next ==
        if exists i :: 0 <= i < |events| && events[i].KeyDown? && events[i].key == store.keymapping.accept
        then NewScene(ToMenu) else old(base.next)
    {
      var i := 0;
      while i < |events|
        invariant 0 <= i <= |events|
        invariant base.next ==
          if exists j :: 0 <= j < i && events[j].KeyDown? && events[j].key == store.keymapping.accept
          then NewScene(ToMenu) else old(base.next)
      {
        if events[i].KeyDown? && events[i].key == store.keymapping.accept {
          base.SwitchToScene(Some(ToMenu));
        }
        i := i + 1;
      }
    }
  }

  /** The menu's options, in order, with the scene each leads to. */
  const MenuOptions: seq<(string, SceneRequest)> := [
    ("Play", ToTransition(ToGame)),
    ("Settings", ToTransition(ToMenu)),
    ("Highscores", ToTransition(ToHighScores)),
    ("Quit", ToExit)
  ]

  /** The up key: one option up, the first wrapping to the last. */
  function MenuUp(index: int): int
  {
    if index == 0 then |MenuOptions| - 1 else index - 1
  }

  /** The down key: one option down, the last wrapping to the first. */
  function MenuDown(index: int): int
  {
    if index == |MenuOptions| - 1 then 0 else index + 1
  }

  /** Up and down stay on the menu and undo each other. */
  lemma MenuMovesInverse(index: int)
    requires 0 <= index < |MenuOptions|
    ensures 0 <= MenuUp(index) < |MenuOptions| && 0 <= MenuDown(index) < |MenuOptions|
    ensures MenuDown(MenuUp(index)) == index && MenuUp(MenuDown(index)) == index
  {
  }

  /** What SceneMenu.process_input changes. */
  datatype MenuView = MenuView(index: int, selected: bool)

  /** One event of SceneMenu.process_input; up and down are the arrow keys whatever the key map says. */
  function MenuStep(v: MenuView, e: Event, accept: int): MenuView
  {
    if !e.KeyDown? then v
    else if e.key == ArrowUp then v.(index := MenuUp(v.index))
    else if e.key == ArrowDown then v.(index := MenuDown(v.index))
    else if e.key == accept then v.(selected := true)
    else v
  }

  function MenuAll(v: MenuView, events: seq<Event>, accept: int): MenuView
    decreases |events|
  {
    if events == [] then v else MenuAll(MenuStep(v, events[0], accept), events[1..], accept)
  }

  /** The index stays on an option and a selection is never withdrawn. */
  lemma {:induction false} MenuStaysOnOptions(v: MenuView, events: seq<Event>, accept: int)
    requires 0 <= v.index < |MenuOptions|
    ensures var r := MenuAll(v, events, accept);
      0 <= r.index < |MenuOptions| && (v.selected ==> r.selected)
    decreases |events|
  {
    if events != [] {
      MenuMovesInverse(v.index);
      MenuStaysOnOptions(MenuStep(v, events[0], accept), events[1..], accept);
    }
  }

  /** SceneMenu: four options over a scrolling background. */
  class SceneMenu {
    const base: SceneBase
    const store: Settings.Store
    const background: ParaBackground
    var selected: bool
    var index: int

    ghost predicate Valid()
      reads this, background
    {
      0 <= index < |MenuOptions| && background.Valid()
    }

    function View(): MenuView
      reads this
    {
      MenuView(index, selected)
    }

    /** `__init__`: the first option, nothing selected; `width` and `layerWidth` are the display's and the layer image's widths. */
    constructor(store: Settings.Store, width: int, layerWidth: int)
      ensures Valid() && fresh(base) && fresh(background) && base.next == ThisScene && this.store == store
      ensures index == 0 && !selected && background.width == width && background.layerWidth == layerWidth
    {
      base := new SceneBase();
      this.store := store;
      selected, index := false, 0;
      background := new ParaBackground(width, layerWidth);
    }

    /** process_input: each event in turn, as MenuAll describes. */
    method ProcessInput(events: seq<Event>)
      requires Valid()
      modifies this
      ensures Valid()
      ensures View() == MenuAll(old(View()), events, store.keymapping.accept)
    {
      var accept := store.keymapping.accept;
      var i := 0;
      while i < |events|
        invariant 0 <= i <= |events|
        invariant Valid()
        invariant MenuAll(View(), events[i..], accept) == MenuAll(old(View()), events, accept)
      {
        var event := events[i];
        ghost var before := View();
        if event.KeyDown? {
          if event.key == ArrowUp {
            index := if index == 0 then |MenuOptions| - 1 else index - 1;
          } else if event.key == ArrowDown {
            index := if index == |MenuOptions| - 1 then 0 else index + 1;
          } else if event.key == accept {
            selected := true;
          }
        }
        assert View() == MenuStep(before, event, accept);
        assert events[i..][1..] == events[i + 1..];
        i := i + 1;
      }
    }

    /**
     * update: once an option is selected and the mixer has gone quiet, go
     * to its scene; otherwise scroll the background when its tick is due.
     */
    method Update(now: int, mixerBusy: bool)
      requires Valid()
      modifies base, background
      ensures Valid()
      ensures selected && !mixerBusy ==>
        base.next == NewScene(MenuOptions[index].1) && background.Position() == old(background.Position())
      ensures !(selected && !mixerBusy) ==> base.next == old(base.next)
      ensures !(selected && !mixerBusy) && (now - old(background.timer)) * background.vel >= 1000 ==>
        && background.timer == now
        && background.layerX == old(background.layerX) + old(background.direction)
        && background.surfaceX == old(background.surfaceX) + (if old(background.moved) then 0 else old(background.direction))
        && background.moved == !old(background.moved)
        && background.direction == (if background.layerX + background.layerWidth <= background.width || background.layerX >= background.maxX
                                    then -old(background.direction) else old(background.direction))
      ensures !(selected && !mixerBusy) && (now - old(background.timer)) * background.vel < 1000 ==>
        background.Position() == old(background.Position())
    {
      if selected && !mixerBusy {
        base.SwitchToScene(Some(MenuOptions[index].1));
      } else if (now - background.timer) * background.vel >= 1000 {
        background.timer := now;
        background.Move();
      }
    }
  }
}
