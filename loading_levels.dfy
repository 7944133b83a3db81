// Level loading: the serialisable level description, its conversion to the
// loaded level the game plays and back again when saving, and the manager
// that loads levels by name and cycles through them.
module LoadingLevels {
  import opened Common
  import LevelGeneration

  datatype AtomType = Empty | Sand | Water | Stone | Fire | Acid

  datatype SerializableAtom = SerializableAtom(x: nat, y: nat, atomType: AtomType)

  datatype PlayerSpawn = PlayerSpawn(x: real, y: real)

  /** A level as saved: atoms at integer cells. */
  datatype LevelData = LevelData(name: string, width: nat, height: nat, atoms: seq<SerializableAtom>,
                                 playerSpawn: PlayerSpawn, description: string, difficulty: nat)

  datatype LoadedAtom = LoadedAtom(position: Vec2, atomType: AtomType)

  /** A level as played: atoms at real positions. */
  datatype LoadedLevel = LoadedLevel(name: string, width: nat, height: nat, atoms: seq<LoadedAtom>,
                                     player: Vec2, description: string, difficulty: nat)

  /** `LevelData::new`: no atoms, spawn at (50, 50), difficulty 1. */
  function NewLevelData(name: string, width: nat, height: nat): (d: LevelData)
    ensures d.name == name && d.width == width && d.height == height
    ensures d.atoms == [] && d.playerSpawn == PlayerSpawn(50.0, 50.0)
    ensures d.description == "A level" && d.difficulty == 1
  {
    LevelData(name, width, height, [], PlayerSpawn(50.0, 50.0), "A level", 1)
  }

  /** `LevelData::add_atom`: one more atom, at the end. */
  function AddAtom(d: LevelData, x: nat, y: nat, t: AtomType): (r: LevelData)
    ensures |r.atoms| == |d.atoms| + 1 && r.atoms[..|d.atoms|] == d.atoms
    ensures r.atoms[|d.atoms|] == SerializableAtom(x, y, t)
    ensures r.(atoms := d.atoms) == d
  {
    d.(atoms := d.atoms + [SerializableAtom(x, y, t)])
  }

  // ---------------------------------------------------------------------
  // Loading and saving
  // ---------------------------------------------------------------------

  function Load(a: SerializableAtom): LoadedAtom {
    LoadedAtom(Vec2(a.x as real, a.y as real), a.atomType)
  }

  /** `LoadedLevel::from_level_data`: the same level with every atom placed at its cell, in order. */
  function FromLevelData(d: LevelData): (l: LoadedLevel)
    ensures l.name == d.name && l.width == d.width && l.height == d.height
    ensures l.description == d.description && l.difficulty == d.difficulty
    ensures l.player == Vec2(d.playerSpawn.x, d.playerSpawn.y)
    ensures |l.atoms| == |d.atoms|
    ensures forall k :: 0 <= k < |d.atoms| ==>
      l.atoms[k].position == Vec2(d.atoms[k].x as real, d.atoms[k].y as real) && l.atoms[k].atomType == d.atoms[k].atomType
  {
    LoadedLevel(d.name, d.width, d.height, LoadAll(d.atoms), Vec2(d.playerSpawn.x, d.playerSpawn.y), d.description, d.difficulty)
  }

  function LoadAll(s: seq<SerializableAtom>): (r: seq<LoadedAtom>)
    ensures |r| == |s| && forall k :: 0 <= k < |s| ==> r[k] == Load(s[k])
  {
    seq(|s|, k requires 0 <= k < |s| => Load(s[k]))
  }

  /** The save conversion: each coordinate cast `as usize`, which truncates and sends negatives to 0. */
  function Save(a: LoadedAtom): SerializableAtom {
    SerializableAtom(ToUsize(Trunc(a.position.x)), ToUsize(Trunc(a.position.y)), a.atomType)
  }

  function SaveAll(s: seq<LoadedAtom>): (r: seq<SerializableAtom>)
    ensures |r| == |s| && forall k :: 0 <= k < |s| ==> r[k] == Save(s[k])
  {
    seq(|s|, k requires 0 <= k < |s| => Save(s[k]))
  }

  /** The level data the save key builds from the current level. */
  function ToLevelData(l: LoadedLevel): (d: LevelData)
    ensures d.name == l.name && d.width == l.width && d.height == l.height
    ensures d.description == l.description && d.difficulty == l.difficulty
    ensures d.playerSpawn == PlayerSpawn(l.player.x, l.player.y)
    ensures |d.atoms| == |l.atoms|
  {
    LevelData(l.name, l.width, l.height, SaveAll(l.atoms), PlayerSpawn(l.player.x, l.player.y), l.description, l.difficulty)
  }

  /** Saving a loaded level gives back the level data it was loaded from. */
  lemma SaveAfterLoad(d: LevelData)
    ensures ToLevelData(FromLevelData(d)) == d
  {
    var r := ToLevelData(FromLevelData(d));
    forall k | 0 <= k < |d.atoms|
      ensures r.atoms[k] == d.atoms[k]
    {
      var a := d.atoms[k];
      assert Trunc(a.x as real) == a.x && Trunc(a.y as real) == a.y;
    }
  }

  /** Every atom sits on a cell: non-negative whole coordinates. */
  predicate OnCells(l: LoadedLevel) {
    forall k :: 0 <= k < |l.atoms| ==>
      l.atoms[k].position.x == l.atoms[k].position.x.Floor as real && l.atoms[k].position.x >= 0.0 &&
      l.atoms[k].position.y == l.atoms[k].position.y.Floor as real && l.atoms[k].position.y >= 0.0
  }

  /** Loading what was saved gives back the level exactly when every atom sat on a cell. */
  lemma LoadAfterSave(l: LoadedLevel)
    ensures FromLevelData(ToLevelData(l)) == l <==> OnCells(l)
  {
    var r := FromLevelData(ToLevelData(l));
    if OnCells(l) {
      forall k | 0 <= k < |l.atoms|
        ensures r.atoms[k] == l.atoms[k]
      {
        var p := l.atoms[k].position;
        assert Trunc(p.x) == p.x.Floor && Trunc(p.y) == p.y.Floor;
      }
    } else {
      var k :| 0 <= k < |l.atoms| && !(
        l.atoms[k].position.x == l.atoms[k].position.x.Floor as real && l.atoms[k].position.x >= 0.0 &&
        l.atoms[k].position.y == l.atoms[k].position.y.Floor as real && l.atoms[k].position.y >= 0.0);
      assert r.atoms[k].position == Vec2(Save(l.atoms[k]).x as real, Save(l.atoms[k]).y as real);
      assert r.atoms[k] != l.atoms[k];
    }
  }

  // ---------------------------------------------------------------------
  // The level manager
  // ---------------------------------------------------------------------

  datatype LoadOutcome = Loaded | NotFound(name: string)

  /**
   * `LevelManager`. The level map's key order, which `get_level_names`
   * lists, is whatever order the map iterates in: it is given to the
   * constructor as `order` and does not change while the map is unchanged.
   */
  class LevelManager {
    var currentLevel: Option<LoadedLevel>
    const availableLevels: map<string, LevelData>
    const order: seq<string>
    var levelIndex: nat

    ghost predicate Valid()
      reads this
    {
      |order| > 0 && levelIndex < |order| &&
      (forall k :: 0 <= k < |order| ==> order[k] in availableLevels) &&
      (forall n :: n in availableLevels ==> n in order)
    }

    /** `LevelManager::default`, over the given levels: nothing loaded, at the first index. */
    constructor (levels: map<string, LevelData>, keys: seq<string>)
      requires |keys| > 0 && (forall k :: 0 <= k < |keys| ==> keys[k] in levels) && (forall n :: n in levels ==> n in keys)
      ensures Valid() && currentLevel.None? && availableLevels == levels && order == keys && levelIndex == 0
    {
      currentLevel := None;
      availableLevels := levels;
      order := keys;
      levelIndex := 0;
    }

    /** `load_level`: a known name becomes the current level; an unknown one is an error and changes nothing. */
    method LoadLevel(name: string) returns (r: LoadOutcome)
      requires Valid()
      modifies this
      ensures Valid() && levelIndex == old(levelIndex)
      ensures name in availableLevels ==> r == Loaded && currentLevel == Some(FromLevelData(availableLevels[name]))
      ensures name !in availableLevels ==> r == NotFound(name) && currentLevel == old(currentLevel)
    {
      if name in availableLevels {
        currentLevel := Some(FromLevelData(availableLevels[name]));
        r := Loaded;
      } else {
        r := NotFound(name);
      }
    }

    /** `next_level`: one name on, wrapping, and that level loaded. */
    method NextLevel()
      requires Valid()
      modifies this
      ensures Valid() && levelIndex == LevelGeneration.NextIndex(old(levelIndex), |order|)
      ensures currentLevel == Some(FromLevelData(availableLevels[order[levelIndex]]))
    {
      levelIndex := (levelIndex + 1) % |order|;
      var _ := LoadLevel(order[levelIndex]);
    }

    /** `previous_level`: one name back, wrapping, and that level loaded. */
    method PreviousLevel()
      requires Valid()
      modifies this
      ensures Valid() && levelIndex == LevelGeneration.PrevIndex(old(levelIndex), |order|)
      ensures currentLevel == Some(FromLevelData(availableLevels[order[levelIndex]]))
    {
      if levelIndex == 0 {
        levelIndex := |order| - 1;
      } else {
        levelIndex := levelIndex - 1;
      }
      var _ := LoadLevel(order[levelIndex]);
    }
  }

  /** Going to the next level and back returns to the same index and reloads the same level. */
  method NextThenPrevious(m: LevelManager)
    requires m.Valid()
    modifies m
    ensures m.Valid() && m.levelIndex == old(m.levelIndex)
    ensures m.currentLevel == Some(FromLevelData(m.availableLevels[m.order[old(m.levelIndex)]]))
  {
    m.NextLevel();
    m.PreviousLevel();
    LevelGeneration.NextPrevInverse(old(m.levelIndex), |m.order|);
  }
}
