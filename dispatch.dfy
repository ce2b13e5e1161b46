/**
 * Mode selection (`ScreensaverManager.__new__`): the `mode` setting indexes
 * the MODES tuple; `Random` picks one screensaver class at random, any other
 * name picks the class whose MODE attribute carries it.
 */
module Dispatch {
  import opened Prelude

  /** The screensaver classes, one per effect mode. */
  datatype Mode = TableDrop | StarWars | RandomZoomIn | AppleTVLike | GridSwitch

  /** The MODES tuple. */
  const ModeNames: seq<string> := ["TableDrop", "StarWars", "RandomZoomIn", "AppleTVLike", "GridSwitch", "Random"]

  /** `ScreensaverBase.__subclasses__()`, in the order the classes are defined. */
  const Subclasses: seq<Mode> := [TableDrop, StarWars, RandomZoomIn, AppleTVLike, GridSwitch]

  /** The class attribute MODE. */
  function ModeName(m: Mode): string
  {
    match m
    case TableDrop => "TableDrop"
    case StarWars => "StarWars"
    case RandomZoomIn => "RandomZoomIn"
    case AppleTVLike => "AppleTVLike"
    case GridSwitch => "GridSwitch"
  }

  /** The scan over the subclasses for the one whose MODE is the name: the first class carrying it. */
  function FindSubclass(name: string, classes: seq<Mode>): (r: Option<Mode>)
    ensures r.Some? ==> r.value in classes && ModeName(r.value) == name
    ensures r.None? ==> forall m :: m in classes ==> ModeName(m) != name
  {
    if classes == [] then None
    else if ModeName(classes[0]) == name then Some(classes[0])
    else FindSubclass(name, classes[1..])
  }

  /**
   * `__new__` with the parsed `mode` setting and, for `Random`, the index
   * `choice` that random.choice draws among the subclasses.
   */
  function SelectMode(setting: int, choice: nat): (r: Result<Mode, Exception>)
    requires choice < |Subclasses|
    ensures r.Ok? ==> r.value in Subclasses
    ensures r.Ok? && PyIndex(ModeNames, setting) != Some("Random") ==>
      Some(ModeName(r.value)) == PyIndex(ModeNames, setting)
  {
    match PyIndex(ModeNames, setting)
    case None => Err(IndexError)
    case Some(name) =>
      if name == "Random" then Ok(Subclasses[choice])
      else
        match FindSubclass(name, Subclasses)
        case Some(m) => Ok(m)
        case None => Err(ValueError)
  }

  /**
   * Every index the MODES tuple accepts (negative ones count from the end)
   * yields a screensaver: each named mode has its class, so the ValueError
   * branch is never taken; only an index out of range fails, with IndexError.
   */
  lemma SelectModeTotal(setting: int, choice: nat)
    requires choice < |Subclasses|
    ensures SelectMode(setting, choice).Err? <==> !(-6 <= setting < 6)
    ensures SelectMode(setting, choice) != Err(ValueError)
  {
    if -6 <= setting < 6 {
      var name := PyIndex(ModeNames, setting).value;
      if name != "Random" {
        var k :| 0 <= k < 5 && name == ModeNames[k];
        assert ModeName(Subclasses[k]) == name;
      }
    }
  }

  /** A named mode selects the class whose MODE is that name; `Random` (index 5 or -1) selects the drawn class. */
  lemma SelectModeNamed(setting: int, choice: nat)
    requires choice < |Subclasses| && -6 <= setting < 6
    ensures var name := ModeNames[if setting < 0 then setting + 6 else setting];
      SelectMode(setting, choice) == Ok(if name == "Random" then Subclasses[choice] else
        Subclasses[if setting < 0 then setting + 6 else setting])
  {
    var k := if setting < 0 then setting + 6 else setting;
    if k < 5 {
      assert ModeName(Subclasses[k]) == ModeNames[k];
      assert forall j :: 0 <= j < k ==> ModeName(Subclasses[j]) != ModeNames[k];
    }
  }
}
