/**
 * The constant tables of consts.py: directions and their opposites, the grid
 * point and snake body types, the default key map and the default settings.
 * Key codes are the values pygame 2 gives its key constants.
 */
module Consts {

  /** The four directions the game knows; the keys of OPPOSITE. */
  datatype Direction = Up | Down | Left | Right

  /** The name the source uses for a direction. */
  function Name(d: Direction): string
  {
    match d
    case Up => "up"
    case Down => "down"
    case Left => "left"
    case Right => "right"
  }

  /** The OPPOSITE table, keyed by direction name. */
  const OPPOSITE: map<string, string> :=
    map["up" := "down", "down" := "up", "left" := "right", "right" := "left"]

  /** The direction opposite to `d`, as the OPPOSITE table gives it. */
  function Opposite(d: Direction): (r: Direction)
    ensures Name(d) in OPPOSITE && OPPOSITE[Name(d)] == Name(r)
  {
    match d
    case Up => Down
    case Down => Up
    case Left => Right
    case Right => Left
  }

  /** Distinct directions have distinct names. */
  lemma NameInjective(d: Direction, e: Direction)
    ensures Name(d) == Name(e) ==> d == e
  {
  }

  /** OPPOSITE is an involution on its keys. */
  lemma OppositeInvolution(d: Direction)
    ensures Opposite(Opposite(d)) == d
    ensures OPPOSITE[OPPOSITE[Name(d)]] == Name(d)
  {
  }

  /** No direction is its own opposite. */
  lemma OppositeIrreflexive(d: Direction)
    ensures Opposite(d) != d
    ensures OPPOSITE[Name(d)] != Name(d)
  {
  }

  /** The keys of OPPOSITE are exactly the names of the four directions. */
  lemma OppositeDomain()
    ensures OPPOSITE.Keys == {Name(Up), Name(Down), Name(Left), Name(Right)}
    ensures forall k :: k in OPPOSITE <==> exists d: Direction :: Name(d) == k
  {
    forall k | k in OPPOSITE ensures exists d: Direction :: Name(d) == k {
      if k == "up" { assert Name(Up) == k; }
      else if k == "down" { assert Name(Down) == k; }
      else if k == "left" { assert Name(Left) == k; }
      else { assert Name(Right) == k; }
    }
  }

  /** A grid cell (consts.py's Point), in block units. */
  datatype Cell = Cell(x: int, y: int)

  /** One body segment: its cell and the direction it was entered with. */
  datatype Segment = Segment(cell: Cell, dir: Direction)

  /** Key codes of the pygame constants the source names. */
  const ArrowUp: int := 1073741906
  const ArrowDown: int := 1073741905
  const ArrowLeft: int := 1073741904
  const ArrowRight: int := 1073741903
  const KeyG: int := 103
  const KeyP: int := 112
  const KeyEscape: int := 27
  const KeyReturn: int := 13
  const KeyBackspace: int := 8

  /**
   * The key map: the `direction` dictionary, in insertion order, and the keys
   * of the four other actions.
   */
  datatype KeyMapping = KeyMapping(
    direction: seq<(int, Direction)>,
    grid: int,
    pause: int,
    exit: int,
    accept: int)

  /** Some key of the direction bindings `b` is bound to `d`. */
  predicate Binds(b: seq<(int, Direction)>, d: Direction)
  {
    exists i :: 0 <= i < |b| && b[i].1 == d
  }

  /** DEFAULT_KEYMAPPING. */
  const DefaultKeyMapping: KeyMapping := KeyMapping(
    [(ArrowUp, Up), (ArrowDown, Down), (ArrowLeft, Left), (ArrowRight, Right)],
    KeyG, KeyP, KeyEscape, KeyReturn)

  /** The default map binds four distinct keys to the four distinct directions. */
  lemma DefaultDirectionKeysDistinct()
    ensures var b := DefaultKeyMapping.direction;
      forall i, j :: 0 <= i < j < |b| ==> b[i].0 != b[j].0 && b[i].1 != b[j].1
    ensures forall d: Direction :: Binds(DefaultKeyMapping.direction, d)
  {
    var b := DefaultKeyMapping.direction;
    forall d: Direction ensures Binds(b, d) {
      match d
      case Up => assert b[0].1 == d;
      case Down => assert b[1].1 == d;
      case Left => assert b[2].1 == d;
      case Right => assert b[3].1 == d;
    }
  }

  /** The grid, pause, exit and accept keys differ from each other and from the arrows. */
  lemma DefaultActionKeysDistinct()
    ensures var m := DefaultKeyMapping;
      var actions := [m.grid, m.pause, m.exit, m.accept];
      (forall i, j :: 0 <= i < j < |actions| ==> actions[i] != actions[j]) &&
      (forall i, j :: 0 <= i < |actions| && 0 <= j < |m.direction| ==> actions[i] != m.direction[j].0)
  {
  }

  /** The part of a pygame event the game reads. */
  datatype Event = Quit | KeyDown(key: int, text: string) | OtherEvent

  /** A value of the settings table: a volume or the classic-look flag. */
  datatype SettingValue = Level(level: real) | Flag(on: bool)

  /** DEFAULT_SETTINGS. */
  const DefaultSettings: map<string, SettingValue> :=
    map["sound" := Level(1.0), "music" := Level(0.8), "classic" := Flag(false)]
}
