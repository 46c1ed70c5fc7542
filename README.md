# Snake, modelled in Dafny

A model of the game logic of a pygame Snake game, together with proofs about it.

- **objects.py:** the snake with its queue of pending turns, the apple and the menu's scrolling background.
- **scenes.py:** the scenes the main loop drives: transition, exit credits, game, game over, high scores and menu.
- **snake.py:** the earlier single-file game.
- **settings.py:** the in-memory settings, key map and high-score table.
- **consts.py:** the `OPPOSITE` table and the default key map.

Files:

| file | module | models |
|---|---|---|
| `wrappers.dfy` | `Wrappers` | `Option` and `Result` |
| `consts.dfy` | `Consts` | directions, `OPPOSITE`, cells and segments, key codes, `DEFAULT_KEYMAPPING`, `DEFAULT_SETTINGS`, events |
| `highscores.dfy` | `Highscores` | the high-score entry, the `(-score, date)` sort key, a stable sort, and the append/sort/pop of `add_highscore` |
| `settings.dfy` | `Settings` | the settings store and its accessors |
| `objects.dfy` | `Objects` | `Snake`, `Apple` and `ParaBackground` as classes, with the specification functions `Step`, `Wrap`, `Turn`, `Enqueue` and `Advance` |
| `scenes.dfy` | `Scenes` | each scene as a class holding a `SceneBase` |
| `legacy.dfy` | `Legacy` | snake.py's `Snake` and `Game`; snake.py's `Apple` (snake.py:467-482) behaves as objects.py's on the 25 by 20 grid, so `Game` uses `Objects.Apple` with those sizes |

How the source's constructs are represented:

- Python's dictionaries that keep insertion order become sequences of pairs. `get_key`'s inverted dictionary lets a later binding win.
- `list.sort` becomes a stable insertion sort, `SortByKey`. A stable sort's output is unique, so this fixes the result the source gets.
- A scene's `next` is a `Next` value:
  - `ThisScene` is `self`;
  - `NewScene(r)` is a newly built scene, described by a `SceneRequest`;
  - `NoScene` is `None`.
- Inputs replace what the source reads from outside the game logic:
  - the clock (`now`);
  - random cells and directions (`start`, `d`, `draws`);
  - today's date (`today`);
  - the mixer's busy flag;
  - the display size (`w`, `h`, `width`);
  - the width of the menu's background layer image (`layerWidth`).
- Key codes are pygame 2's values.

## Model

| member | source | states |
|---|---|---|
| Consts.Opposite | consts.py:28 | the opposite direction is the one the `OPPOSITE` table gives for the direction's name |
| Consts.OppositeInvolution | consts.py:28 | `OPPOSITE[OPPOSITE[d]] == d` for every direction |
| Consts.OppositeIrreflexive | consts.py:28 | no direction is its own opposite |
| Consts.OppositeDomain | consts.py:28 | the keys of `OPPOSITE` are exactly the four direction names, the set `reset` draws from |
| Consts.NameInjective | consts.py:28 | distinct directions have distinct names |
| Consts.DefaultDirectionKeysDistinct | consts.py:36-44 | the default map binds four distinct keys, each of the four directions once |
| Consts.DefaultActionKeysDistinct | consts.py:36-47 | the grid, pause, exit and accept keys are distinct from each other and from the arrow keys |
| Highscores.KeyLeTotal | scenes.py:340 | the `(-score, date)` key order is total |
| Highscores.KeyLeTrans | scenes.py:340 | the `(-score, date)` key order is transitive |
| Highscores.Insert | scenes.py:340 | inserting gives the table plus the entry, as a multiset, one entry longer |
| Highscores.InsertSorted | scenes.py:340 | inserting into a sorted table keeps it sorted, and keeps every upper bound that the new entry also meets |
| Highscores.SortByKey | scenes.py:340 | `top.sort(key=(-score, date))` gives a sorted permutation of its input |
| Highscores.SortSortedIsIdentity | scenes.py:340 | sorting an already sorted table leaves it unchanged |
| Highscores.AppendThenSort | scenes.py:338-340 | appending to a sorted table and then sorting is the same as inserting the entry |
| Highscores.InsertPlacement | scenes.py:338-340 | the new entry lands after every entry whose key is not greater and before every entry whose key is greater; the other entries keep their order |
| Highscores.AddEntryShape | scenes.py:337-342 | after `add_highscore` the table is sorted; it grows by one below five entries and otherwise keeps its length; at most one entry is lost, and none while there is room |
| Highscores.HigherScoreEnters | scenes.py:337-342 | on a full sorted table, a score above the lowest enters; the result is the insertion cut to five |
| Highscores.LowerScoreDropped | scenes.py:337-342 | on a full sorted table, a score below the lowest leaves the table as it was |
| Highscores.SortExample | scenes.py:340 | scores 10, 30, 20 on one date sort to 30, 20, 10 |
| Settings.Store.constructor | settings.py:12-14 | the settings and the key map start as the defaults, and the high-score table starts empty |
| Settings.Store.GetSetting | settings.py:19-23 | returns the option's value if the option is present, and KeyError otherwise |
| Settings.Store.GetKeybindings | settings.py:40-43 | the result equals the key map; as a value it shares no state with it |
| Settings.Store.GetHighscores | settings.py:56-58 | returns the stored table object itself |
| Settings.Store.SetSettings | settings.py:62-66 | the named option takes the new value; every other option and the key map are unchanged |
| Settings.Store.SetKeybinding | settings.py:69-73 | the whole key map is replaced; the settings are unchanged |
| Settings.Lookup | objects.py:75-76 | `dir_dict[key]` finds a binding exactly when the key is bound, and it is one of the pairs |
| Settings.ReverseLookup | settings.py:34-36 | the inverted dictionary finds a key exactly when some binding names the direction, and then it is the key of the last such binding |
| Settings.ReverseLookupUnique | settings.py:34-36 | when direction names are unique, the reverse lookup returns the key of that binding |
| Settings.GetKey | settings.py:26-37 | top-level actions return their entry; a bound direction name returns its key, with the later binding winning; any other name fails with an unbound result |
| Settings.DefaultReverseKeys | settings.py:26-37 | with the default map, "up", "down", "left" and "right" return their arrow keys |
| Settings.LowerHighscore | settings.py:51-53 | returns the last entry's score, or IndexError exactly when the table is empty; on a sorted table every score is at least that value |
| Objects.WrapIsToroidal | objects.py:99-130 | from an in-grid cell, the wrapped step is the step taken modulo the grid size, and it stays on the grid |
| Objects.EnqueueNeverEvicts | objects.py:71-78 | `put_nowait` (on the `maxsize=3` queue of objects.py:49) appends below three pending turns and drops the new turn when full; no pending turn is evicted and the bound of three holds |
| Objects.Turn | objects.py:88-96 | the adopted direction is never the opposite of the current one; it is the oldest queued turn unless the queue is empty or that turn is a reversal |
| Objects.AdvanceShape | objects.py:99-130 | a firing move adds one segment when growing and otherwise keeps the length; the head is the wrapped step, tagged with the direction; the rest is the old body, minus its tail unless growing |
| Objects.AdvanceWellFormed | objects.py:85-130 | a firing move keeps the body well formed: at least two segments, all on the grid, the head tagged with the current direction, and no segment a reversal of the one behind it |
| Objects.ResetBodyCollides | objects.py:58-65 | the two stacked segments of a fresh body already collide under check_collision |
| Objects.FirstMoveSeparates | objects.py:85-130 | on a grid at least 2×2, the first non-growing move after reset takes the head off the start cell, so there is no collision |
| Objects.CollisionExample | objects.py:132-138 | a head coming back onto its third segment collides |
| Objects.BendCases | objects.py:266-286 | only a reversal has no piece; straight pieces follow the axis; every perpendicular pair gets one of J, L, r, 7 |
| Objects.BendReversible | objects.py:272-286 | a bend gets the same piece when walked in the other direction |
| Objects.BodyShape | objects.py:254-288 | index 0 gives "head-" plus the direction; the last index gives "tail-" plus the previous direction; a middle index gets the bend piece (`ver`, `hor`, J, L, r or 7) for its direction and the one before it, and has no piece exactly when it reverses that segment |
| Objects.ShapeAlwaysDefined | objects.py:254-288 | on a well-formed body every index has a piece |
| Objects.Snake.constructor | objects.py:46-56 | a valid snake with an empty queue, timer 0, velocity 10 and the reset body |
| Objects.Snake.Reset | objects.py:58-65 | two identical segments at the given cell, in the given direction; the queue, timer and growth flag are untouched |
| Objects.Snake.Head | objects.py:67-69 | the head lies on the grid |
| Objects.Snake.QueueDirection | objects.py:71-78 | the queue becomes the `put_nowait` of the bound direction; nothing else changes |
| Objects.Snake.Move | objects.py:80-130 | before the gate fires nothing changes; otherwise timer is `now`, one turn is consumed and adopted unless it is a reversal, the body advances, growth is spent, and validity is kept |
| Objects.Snake.CheckCollision | objects.py:132-138 | true exactly when the head's cell equals the cell of some later segment |
| Objects.Apple.New | objects.py:21-29 | the apple lands on the first drawn cell that is free of obstacles; it is on the grid and off every obstacle; `found` is false only when every draw was banned |
| Objects.Apple.constructor | objects.py:16-19 | the apple is placed at once, on the first free draw |
| Objects.ParaBackground.constructor | objects.py:348-362 | the layer starts at `max_x`, moving left, with timer 0, velocity 60 and the surface at 0 |
| Objects.ParaBackground.Move | objects.py:364-386 | the layer shifts on every call and the surface on every other call; the direction flips at either edge; the direction stays ±1 and the layer stays between its turning points |
| Scenes.SceneBase.constructor | scenes.py:19-20 | a new scene's `next` is itself |
| Scenes.SceneBase.SwitchToScene | scenes.py:35-38 | `next` becomes the requested scene, or None when there is none |
| Scenes.SceneBase.Terminate | scenes.py:40-42 | `next` becomes None |
| Scenes.SceneTransition.constructor | scenes.py:47-54 | a new transition is not running, has timer 0, and remembers the scene it leads to |
| Scenes.SceneTransition.Update | scenes.py:59-65 | only the first call starts the clock; the switch happens once `now - timer > 1000`, which is never on the first call |
| Scenes.SceneExit.constructor | scenes.py:74-77 | the credits start with timer 0 and the clock not started |
| Scenes.SceneExit.Update | scenes.py:90-96 | the first call starts the clock and never closes; a later call closes the game once `now - timer >= 2500` |
| Scenes.CrashedIgnoresInput | scenes.py:196-198 | after a crash every event is ignored |
| Scenes.PausedWaitsForPauseKey | scenes.py:199-202 | while paused, a frame without the pause key changes nothing |
| Scenes.PauseUnpause | scenes.py:196-214 | pressing the pause key twice pauses and then unpauses, changing nothing but the paint flag |
| Scenes.QueueStaysBounded | scenes.py:204-208 | however many direction keys arrive, at most three turns are pending (the queue's `maxsize`) |
| Scenes.SceneGame.constructor | scenes.py:117-134 | a running, unpaused, uncrashed game with its timer at 0; a fresh snake on the grid (velocity 10, empty queue, timer 0, not growing, two stacked segments heading in `d`); an apple on the first free draw |
| Scenes.SceneGame.Pause | scenes.py:172-176 | sets `is_paused` and clears `event_painted` |
| Scenes.SceneGame.Unpause | scenes.py:178-181 | clears `is_paused` and nothing else |
| Scenes.SceneGame.ProcessInput | scenes.py:196-214 | the scene's controls follow `ControlAll` over the frame's events; the snake only gains queued turns |
| Scenes.SceneGame.Update | scenes.py:216-239 | while paused or crashed the snake and the apple are unchanged. While running, the snake moves as `move` does once its tick is due: it adopts `Turn` of the old direction and queue, consumes one queued turn, restarts its timer and advances its body; otherwise it is unchanged. The growth flag is set exactly when the new head is on the apple, and is otherwise spent by a move or kept. An eaten apple is re-placed on the first draw free of the new body; an uneaten one stays. A collision sets the crash flag, the timer and the paint flag; after a crash the game-over scene is requested once more than 3000 ms have passed, with score `len(body) - 2` |
| Scenes.Upper | scenes.py:325 | `str.upper` on ASCII keeps the length and maps each lower-case letter to its capital |
| Scenes.UpperOfAlnum | scenes.py:323-325 | upper-casing a letter-or-digit string gives capitals and digits only |
| Scenes.RecordAsWritten | scenes.py:292 | the record check as written, through `lower_highscore`: IndexError on an empty table; otherwise the score is above the last entry's |
| Scenes.EmptyTableRaises | scenes.py:292 | the first game over with an empty table raises IndexError in `lower_highscore` |
| Scenes.RecordAgreesWhenFull | scenes.py:292 | on a full table the corrected record check agrees with the source's |
| Scenes.RecordEntersTable | scenes.py:337-342 | with the corrected check, every record really enters the table that `add_highscore` leaves |
| Scenes.InitialsStayShort | scenes.py:320-325 | the initials stay at most three capitals or digits when key events carry one character |
| Scenes.CommittedStaysCommitted | scenes.py:308-319 | once the entry is committed, the initials and the table no longer change |
| Scenes.TableStaysRanked | scenes.py:316-319 | a sorted table of at most five entries stays so whatever is typed |
| Scenes.SceneGameOver.constructor | scenes.py:289-293 | `record` is the corrected record check; the initials are empty |
| Scenes.SceneGameOver.AddHighscore | scenes.py:330-343 | the stored table becomes the old table plus the new entry, sorted and cut to five |
| Scenes.SceneGameOver.ProcessInput | scenes.py:304-325 | mode, initials, `next` and table follow `GameOverAll`: outside record mode, accept replays and pause goes to the menu; in record mode, accept commits, backspace drops a character, and an alphanumeric character is appended upper-cased while there are fewer than three |
| Scenes.SceneHighScores.constructor | scenes.py:423-425 | a new high-score scene stays on itself and reads the shared store |
| Scenes.SceneHighScores.ProcessInput | scenes.py:434-438 | an accept key anywhere in the frame requests the menu; otherwise `next` is unchanged |
| Scenes.MenuMovesInverse | scenes.py:514-521 | up (0 wraps to 3) and down (3 wraps to 0) stay on the menu and undo each other |
| Scenes.MenuStaysOnOptions | scenes.py:511-527 | the index stays in [0, 4) and a selection is never withdrawn |
| Scenes.SceneMenu.constructor | scenes.py:475-488 | the first option is shown, nothing is selected, and the background is new |
| Scenes.SceneMenu.ProcessInput | scenes.py:511-527 | index and selection follow `MenuAll` over the frame's events |
| Scenes.SceneMenu.Update | scenes.py:529-537 | a selection with the mixer quiet requests the option's scene and leaves the background as it was; otherwise, when its tick is due, the background restarts its timer and moves (the layer by one step, the surface every other call, the direction flipping at either edge), and when it is not due it is unchanged |
| Legacy.HeadSkin | snake.py:383-387 | the head piece is "head-" followed by the name of the current direction |
| Legacy.TailSkin | snake.py:390-394 | the tail piece is "tail-" followed by the name of the previous direction |
| Legacy.BodySkin | snake.py:397-425 | there is no piece exactly when the two directions are opposite; equal directions give "vertical" on the up/down axis and "horizontal" otherwise; any other pair gives one of J, L, r, 7 |
| Legacy.SkinsIdentifyDirection | snake.py:383-394 | different directions give different head pieces and different tail pieces, and no head piece is a tail piece |
| Legacy.BodySkinMatchesBend | snake.py:397-425 | only a reversal gets None; otherwise `get_body_skin` picks the same piece as `get_body_shape`, with the straight pieces named "vertical" and "horizontal" |
| Legacy.KeyTurn | snake.py:105-117 | an arrow key never sets the direction opposite to the current one |
| Legacy.TwoKeysReverse | snake.py:105-117 | two arrow keys in one frame can reverse the snake (left then down while moving up) |
| Legacy.Snake.constructor | snake.py:282-287 | a valid snake with the reset body |
| Legacy.Snake.Reset | snake.py:289-295 | two identical segments at a cell of the 25×20 grid |
| Legacy.Snake.Head | snake.py:303-306 | the head lies on the 25×20 grid |
| Legacy.Snake.Grow | snake.py:297-301 | exactly one segment is appended at the tail end, at the given cell, tagged with the current direction |
| Legacy.Snake.Move | snake.py:308-340 | the length is unchanged; the new head is the old head stepped in the current direction and wrapped onto the 25×20 grid |
| Legacy.Snake.CheckCollision | snake.py:342-349 | true exactly when the head's cell equals the cell of some later segment |
| Legacy.Game.constructor | snake.py:33-44 | a running, unpaused game without grid; on_init's fresh snake (snake.py:89) heading in `d` with two stacked segments, and its apple (snake.py:91) on the first free draw |
| Legacy.Game.Pause | snake.py:180-184 | sets `on_pause`; the other flags are unchanged |
| Legacy.Game.Unpause | snake.py:203-206 | clears `on_pause`; the other flags are unchanged |
| Legacy.Game.OnEvent | snake.py:96-128 | QUIT or ESC sets `gameover` and clears `running`. While playing, an arrow turns the snake (never straight back), g toggles the grid and p pauses. While paused, only p has an effect (it unpauses) |
| Legacy.Game.CheckFood | snake.py:272-277 | on the apple, the snake grows at the head's cell and the apple is re-placed on the first free draw; otherwise nothing changes |
| Legacy.Game.OnLoop | snake.py:130-142 | the direction never changes. Paused: nothing changes. Otherwise the snake moves one step in its direction, `gameover` is set when the moved body collides, the snake grows by a tail segment at its new head when that is on the apple and the apple is re-placed on the first draw free of the grown body; otherwise the apple stays |

## Left out

- Rendering (every `draw`/`render`, `draw_grid`, `draw_blood`, skins and sprites), sound and music, fonts and images. These are pygame surface and mixer calls. `switch_to_scene` also stops the music; that is not modelled.
- Building the requested scene is left out. Loading its assets is part of that.
- `SceneSettings`, `Slider`, and the helpers module are not part of this model.
- File I/O: `save_config`, `load_config`, `load_jokes`, `get_joke`. The settings, key map and high-score table are in-memory state.
- snake.py's window, font, sprite and sound setup in `on_init`, and `on_execute`, `on_render`, `on_cleanup`, `gameover_screen` and `reset_game`. These are the window, the event-polling loops and the delays.
- Objects.Apple.New: the source draws random cells until one is free. The model takes the drawn cells as a finite sequence and reports `found = false` where the source would still be drawing. Termination of the unbounded retry loop is not claimed.
- Objects.Snake.Move: the gate `now - timer >= 1000.0 / vel` is the integer comparison `(now - timer) * vel >= 1000`. This is exact for integer ticks and positive `vel`.
- The wrap in `move` is written once as `Wrap` and applied to the new head. The source re-inserts the head and pops index 1, which gives the same list.
- Scenes.SceneMenu.Update: the same integer comparison stands for the background's float gate.
- Settings.Store.SetKeybinding: the source stores the caller's dictionary itself, so later edits by the caller would show through. The model stores a value, so that aliasing is not captured.
- The key map's `direction` entry is a sequence of pairs whose values are the four directions. A configuration naming any other string is not representable.
- Scenes.IsAlnum and Scenes.Upper cover ASCII letters and digits only. Python's Unicode classes and case mappings are not modelled.
- Scenes.InitialsStayShort assumes key events carry at most one character. A multi-character `event.unicode` could push the initials past three in the source.
- Objects.ParaBackground: only the horizontal positions are modelled. The vertical centring and the images are not.
- The menu's background image is not modelled. The source draws a number at random and then overwrites it with 1 (scenes.py:485-486), so it always shows `menu-bg1`. The joke shown on game over is left out.
- SceneGame's per-event `settings.get_key(...)` calls read the key map once per frame. Nothing in the frame can change the key map.

## Findings

| source | as written | input that shows it | evidently intended | confidence | as-written member | corrected member |
|---|---|---|---|---|---|---|
| scenes.py:292, settings.py:51-53 | `record = score > lower_highscore()`, and `lower_highscore` indexes `highscores[-1]` | the first game over with an empty high-score table: `highscores[-1]` raises IndexError | a table with room (in particular an empty one) accepts any score as a record; a full table compares against its last entry as before | not executed; high for the empty table, a judgement call for tables with one to four entries | Scenes.RecordAsWritten (with Scenes.EmptyTableRaises) | Scenes.IsRecord (with Scenes.RecordEntersTable and Scenes.RecordAgreesWhenFull) |
