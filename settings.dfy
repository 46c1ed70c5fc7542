/**
 * settings.py's in-memory state and accessors: the settings table, the key
 * map and the high-score list, with the lookups the scenes use.
 */
module Settings {
  import opened Wrappers
  import opened Consts
  import opened Highscores

  /** The exceptions the accessors raise. */
  datatype Error =
    | KeyError          // a missing dictionary key
    | UnboundResult     // get_key's `result` never assigned
    | IndexError        // `highscores[-1]` on an empty list

  /** What get_key returns: the direction dictionary or one key code. */
  datatype Binding = Directions(bindings: seq<(int, Direction)>) | Key(code: int)

  /** The high-score list object; get_highscores hands out this very object. */
  class HighscoreTable {
    var entries: seq<Entry>

    constructor()
      ensures entries == []
    {
      entries := [];
    }
  }

  /** The module-level `settings`, `keymapping` and `highscores`. */
  class Store {
    var settings: map<string, SettingValue>
    var keymapping: KeyMapping
    const highscores: HighscoreTable

    constructor()
      ensures settings == DefaultSettings && keymapping == DefaultKeyMapping
      ensures fresh(highscores) && highscores.entries == []
    {
      settings := DefaultSettings;
      keymapping := DefaultKeyMapping;
      highscores := new HighscoreTable();
    }

    /** get_setting: the option's value, or KeyError for an unknown option. */
    function GetSetting(option: string): (r: Result<SettingValue, Error>)
      reads this
      ensures r.Ok? <==> option in settings
      ensures r.Ok? ==> r.value == settings[option]
      ensures r.Err? ==> r.error == KeyError
    {
      if option in settings then Ok(settings[option]) else Err(KeyError)
    }

    /** get_keybindings: a copy equal to the key map; as a value it shares nothing with it. */
    method GetKeybindings() returns (copy: KeyMapping)
      ensures copy == keymapping
    {
      copy := keymapping;
    }

    /** get_highscores: the stored list object itself, not a copy. */
    method GetHighscores() returns (table: HighscoreTable)
      ensures table == highscores
    {
      table := highscores;
    }

    /** set_settings: only the named option changes. */
    method SetSettings(option: string, value: SettingValue)
      modifies this
      ensures settings == old(settings)[option := value]
      ensures option in settings && settings[option] == value
      ensures forall o :: o != option ==> (o in settings <==> o in old(settings))
      ensures forall o :: o != option && o in settings ==> settings[o] == old(settings)[o]
      ensures keymapping == old(keymapping)
    {
      settings := settings[option := value];
    }

    /** set_keybinding: the whole key map is replaced. */
    method SetKeybinding(keys: KeyMapping)
      modifies this
      ensures keymapping == keys && settings == old(settings)
    {
      keymapping := keys;
    }
  }

  /** Some pair of the direction bindings has key `key` (`key in dict`). */
  predicate KeyBound(b: seq<(int, Direction)>, key: int)
  {
    exists i :: 0 <= i < |b| && b[i].0 == key
  }

  /** `dict[key]` on the direction bindings; a dictionary holds each key once. */
  function Lookup(b: seq<(int, Direction)>, key: int): (r: Option<Direction>)
    ensures r.Some? <==> KeyBound(b, key)
    ensures r.Some? ==> exists i :: 0 <= i < |b| && b[i] == (key, r.value)
  {
    if b == [] then None
    else if b[0].0 == key then Some(b[0].1)
    else
      var r := Lookup(b[1..], key);
      assert forall i :: 0 <= i < |b[1..]| ==> b[1..][i] == b[i + 1];
      assert KeyBound(b, key) ==> b[0].0 == key || KeyBound(b[1..], key);
      r
  }

  /** Index `i` holds the last binding to the direction named `name`. */
  ghost predicate LastNamed(b: seq<(int, Direction)>, i: int, name: string)
  {
    0 <= i < |b| && Name(b[i].1) == name &&
    forall j :: i < j < |b| ==> Name(b[j].1) != name
  }

  /**
   * The inverted dictionary of get_key, `{v: k for k, v in ...}`, read at
   * `name`: built in insertion order, so the last key bound to a direction wins.
   */
  function ReverseLookup(b: seq<(int, Direction)>, name: string): (r: Option<int>)
    ensures r.None? <==> forall i :: 0 <= i < |b| ==> Name(b[i].1) != name
    ensures r.Some? ==> exists i :: LastNamed(b, i, name) && b[i].0 == r.value
  {
    if b == [] then None
    else if Name(b[|b| - 1].1) == name then
      assert LastNamed(b, |b| - 1, name);
      Some(b[|b| - 1].0)
    else
      var init := b[..|b| - 1];
      var r := ReverseLookup(init, name);
      assert forall i :: 0 <= i < |init| ==> init[i] == b[i];
      assert forall i :: LastNamed(init, i, name) ==> LastNamed(b, i, name);
      r
  }

  /** With each direction bound at most once, the reverse lookup finds its one key. */
  lemma ReverseLookupUnique(b: seq<(int, Direction)>, i: int)
    requires forall p, q :: 0 <= p < q < |b| ==> b[p].1 != b[q].1
    requires 0 <= i < |b|
    ensures ReverseLookup(b, Name(b[i].1)) == Some(b[i].0)
  {
    var r := ReverseLookup(b, Name(b[i].1));
    var j :| LastNamed(b, j, Name(b[i].1)) && b[j].0 == r.value;
    NameInjective(b[j].1, b[i].1);
  }

  /** The top-level entries of the key map. */
  predicate TopLevel(action: string)
  {
    action in {"direction", "grid", "pause", "exit", "accept"}
  }

  /** Some direction named `action` is bound in `b`. */
  predicate NamesBoundDirection(b: seq<(int, Direction)>, action: string)
  {
    exists i :: 0 <= i < |b| && Name(b[i].1) == action
  }

  /**
   * get_key: a top-level entry of the key map; else the key bound to the
   * direction named `action`; else `result` is unbound.
   */
  function GetKey(km: KeyMapping, action: string): (r: Result<Binding, Error>)
    ensures action == "direction" ==> r == Ok(Directions(km.direction))
    ensures action == "grid" ==> r == Ok(Key(km.grid))
    ensures action == "pause" ==> r == Ok(Key(km.pause))
    ensures action == "exit" ==> r == Ok(Key(km.exit))
    ensures action == "accept" ==> r == Ok(Key(km.accept))
    ensures !TopLevel(action) && NamesBoundDirection(km.direction, action) ==>
      r.Ok? && r.value.Key? && exists i :: LastNamed(km.direction, i, action) && km.direction[i].0 == r.value.code
    ensures !TopLevel(action) && !NamesBoundDirection(km.direction, action) ==> r == Err(UnboundResult)
  {
    match action
    case "direction" => Ok(Directions(km.direction))
    case "grid" => Ok(Key(km.grid))
    case "pause" => Ok(Key(km.pause))
    case "exit" => Ok(Key(km.exit))
    case "accept" => Ok(Key(km.accept))
    case _ =>
      match ReverseLookup(km.direction, action)
      case Some(k) => Ok(Key(k))
      case None => Err(UnboundResult)
  }

  /** With the default map, each direction name yields its arrow key. */
  lemma DefaultReverseKeys()
    ensures GetKey(DefaultKeyMapping, "up") == Ok(Key(ArrowUp))
    ensures GetKey(DefaultKeyMapping, "down") == Ok(Key(ArrowDown))
    ensures GetKey(DefaultKeyMapping, "left") == Ok(Key(ArrowLeft))
    ensures GetKey(DefaultKeyMapping, "right") == Ok(Key(ArrowRight))
  {
    var b := DefaultKeyMapping.direction;
    ReverseLookupUnique(b, 0);
    assert !TopLevel("up");
    ReverseLookupUnique(b, 1);
    assert !TopLevel("down");
    ReverseLookupUnique(b, 2);
    assert !TopLevel("left");
    ReverseLookupUnique(b, 3);
    assert !TopLevel("right");
  }

  /** lower_highscore: the last entry's score; IndexError on an empty list. */
  function LowerHighscore(entries: seq<Entry>): (r: Result<int, Error>)
    ensures r.Err? <==> entries == []
    ensures r.Err? ==> r.error == IndexError
    ensures r.Ok? ==> r.value == entries[|entries| - 1].score
    ensures r.Ok? && Sorted(entries) ==> forall e :: e in entries ==> e.score >= r.value
  {
    if entries == [] then Err(IndexError) else Ok(entries[|entries| - 1].score)
  }
}
