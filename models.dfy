/** Snapshot records the decision engine reads and the orders it writes.
    Field names follow the game's models; unsigned Rust fields are `nat`,
    signed coordinates are `int`. Nothing here is ever mutated by the engine. */
module Models {

  datatype Option<T> = None | Some(value: T)

  /** Integer coordinates of a base in 3D space. */
  datatype Position = Position(x: int, y: int, z: int)

  /** One tier of the level table; only the spawn rate is read by the engine. */
  datatype BaseLevel = BaseLevel(spawnRate: nat)

  /** A capturable base. `player == 0` means unclaimed. */
  datatype Base = Base(uid: nat, player: nat, population: nat, level: nat, position: Position)

  /** An order already in flight, committed in an earlier turn. */
  datatype BoardAction = BoardAction(src: nat, dest: nat, amount: nat)

  /** Path attrition parameters. */
  datatype PathsConfig = PathsConfig(gracePeriod: nat, deathRate: nat)

  datatype GameConfig = GameConfig(baseLevels: seq<BaseLevel>, paths: PathsConfig)

  /** An attack order emitted by the engine. */
  datatype PlayerAction = PlayerAction(src: nat, dest: nat, amount: nat)

  /** Per-turn game metadata: the acting player and how many players remain. */
  datatype GameInfo = GameInfo(player: nat, remainingPlayers: nat)

  /** The full turn snapshot handed to the engine. */
  datatype GameState = GameState(game: GameInfo, bases: seq<Base>, actions: seq<BoardAction>, config: GameConfig)

  /** The level of `b` names an entry of the level table. */
  predicate LevelValid(b: Base, config: GameConfig)
  {
    b.level < |config.baseLevels|
  }

  /** Every base of `bases` has a valid level. */
  predicate LevelsValid(bases: seq<Base>, config: GameConfig)
  {
    forall i :: 0 <= i < |bases| ==> LevelValid(bases[i], config)
  }
}
