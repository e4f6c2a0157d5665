/** How many troops a source base would land on a destination: a fixed
    garrison stays home, and the marching force loses a fixed number of
    troops per unit of distance beyond the grace period. Also the helpers
    that read the level table and the in-flight actions. */
module Attrition {
  import opened Models
  import opened Geometry

  /** Troops every base keeps at home. */
  const MIN_DEFENDERS: nat := 5

  function Max(a: int, b: int): (m: int)
    ensures m >= a && m >= b && (m == a || m == b)
  {
    if a >= b then a else b
  }

  /** `get_base_level`: the entry of the level table a base's level names.
      An out-of-range level is a fatal error, so a valid level is required. */
  function GetBaseLevel(b: Base, baseLevels: seq<BaseLevel>): (l: BaseLevel)
    requires b.level < |baseLevels|
    ensures l in baseLevels && l == baseLevels[b.level]
  {
    baseLevels[b.level]
  }

  /** `get_min_defenders`: the active policy ignores the enemy bases and the
      player count and always keeps the fixed garrison. */
  function GetMinDefenders(ourBase: Base, enemyBases: seq<Base>, remainingPlayers: nat): (r: nat)
    ensures r == MIN_DEFENDERS
  {
    5
  }

  /** Troops lost on the way: none within the grace period, `deathRate`
      per unit of distance beyond it. */
  function Deaths(distance: nat, gracePeriod: nat, deathRate: nat): (r: nat)
    ensures distance <= gracePeriod ==> r == 0
    ensures deathRate == 0 ==> r == 0
  {
    Max((distance - gracePeriod) * deathRate, 0)
  }

  /** The force a base can send once the garrison stays home; never negative. */
  function Available(population: nat): (r: nat)
    ensures r <= population
    ensures population <= MIN_DEFENDERS ==> r == 0
    ensures population > MIN_DEFENDERS ==> r + MIN_DEFENDERS == population
  {
    Max(population - MIN_DEFENDERS, 0)
  }

  /** `survivors`: the troops `src` would land on `dest`. The level lookup is
      done (and must succeed) although its result is not used. */
  function Survivors(src: Base, dest: Base, config: GameConfig): (r: int)
    requires LevelValid(src, config)
    ensures r <= src.population
    ensures src.population <= MIN_DEFENDERS ==> r <= 0
    ensures r > 0 ==> r + MIN_DEFENDERS <= src.population
    ensures BaseDistance(src, dest) <= config.paths.gracePeriod ==> r == Available(src.population)
  {
    var spawnRate := GetBaseLevel(src, config.baseLevels).spawnRate;
    var deaths := Deaths(BaseDistance(src, dest), config.paths.gracePeriod, config.paths.deathRate);
    Available(src.population) - deaths
  }

  /** Travel loss never decreases as the distance grows. */
  lemma DeathsMonotone(d1: nat, d2: nat, gracePeriod: nat, deathRate: nat)
    requires d1 <= d2
    ensures Deaths(d1, gracePeriod, deathRate) <= Deaths(d2, gracePeriod, deathRate)
  {
    if d2 > gracePeriod {
      var k1: nat := if d1 > gracePeriod then d1 - gracePeriod else 0;
      MultiplyLe(deathRate, k1, d2 - gracePeriod);
      assert k1 * deathRate <= (d2 - gracePeriod) * deathRate;
    }
  }

  /** Beyond the grace period each extra unit of distance costs exactly `deathRate` troops. */
  lemma DeathsStep(d: nat, gracePeriod: nat, deathRate: nat)
    requires d >= gracePeriod
    ensures Deaths(d + 1, gracePeriod, deathRate) == Deaths(d, gracePeriod, deathRate) + deathRate
  {
    assert (d + 1 - gracePeriod) * deathRate == (d - gracePeriod) * deathRate + deathRate;
  }

  /** A farther destination never receives more survivors from the same source. */
  lemma SurvivorsDecreaseWithDistance(src: Base, near: Base, far: Base, config: GameConfig)
    requires LevelValid(src, config)
    requires BaseDistance(src, near) <= BaseDistance(src, far)
    ensures Survivors(src, far, config) <= Survivors(src, near, config)
  {
    DeathsMonotone(BaseDistance(src, near), BaseDistance(src, far), config.paths.gracePeriod, config.paths.deathRate);
  }

  /** `defenders_at_time`: the destination's population after `destTime`
      time units of spawning. */
  function DefendersAtTime(destTime: nat, destBase: Base, config: GameConfig): (r: nat)
    requires LevelValid(destBase, config)
    ensures r >= destBase.population
    ensures destTime == 0 ==> r == destBase.population
  {
    var spawnRate := GetBaseLevel(destBase, config.baseLevels).spawnRate;
    destBase.population + destTime * spawnRate
  }

  /** Waiting longer never leaves fewer defenders. */
  lemma DefendersGrowWithTime(t1: nat, t2: nat, destBase: Base, config: GameConfig)
    requires LevelValid(destBase, config)
    requires t1 <= t2
    ensures DefendersAtTime(t1, destBase, config) <= DefendersAtTime(t2, destBase, config)
  {
    var rate := config.baseLevels[destBase.level].spawnRate;
    MultiplyLe(rate, t1, t2);
    assert t1 * rate <= t2 * rate;
  }

  /** `attack_decision`: attackers minus defenders at arrival; positive
      exactly when the attackers outnumber the defenders. */
  function AttackDecision(attackers: nat, destBase: Base, config: GameConfig, destTime: nat): (r: int)
    requires LevelValid(destBase, config)
    ensures r > 0 <==> attackers > DefendersAtTime(destTime, destBase, config)
    ensures r <= attackers - destBase.population
  {
    attackers - DefendersAtTime(destTime, destBase, config)
  }

  /** Sum of `amount` over the in-flight actions aimed at `uid`. */
  function IncomingBits(uid: nat, actions: seq<BoardAction>): (r: nat)
    ensures (forall i :: 0 <= i < |actions| ==> actions[i].dest != uid) ==> r == 0
  {
    if actions == [] then 0
    else
      var last := actions[|actions| - 1];
      IncomingBits(uid, actions[..|actions| - 1]) + (if last.dest == uid then last.amount else 0)
  }

  /** The in-flight actions aimed at `uid`, in order. */
  function Targeting(uid: nat, actions: seq<BoardAction>): (r: seq<BoardAction>)
    ensures forall a :: a in r <==> a in actions && a.dest == uid
    ensures |r| <= |actions|
  {
    if actions == [] then []
    else
      var last := actions[|actions| - 1];
      assert actions == actions[..|actions| - 1] + [last];
      Targeting(uid, actions[..|actions| - 1]) + (if last.dest == uid then [last] else [])
  }

  /** Sum of `amount` over a list of actions, front to back. */
  function TotalAmount(actions: seq<BoardAction>): (r: nat)
    ensures actions == [] ==> r == 0
  {
    if actions == [] then 0 else actions[0].amount + TotalAmount(actions[1..])
  }

  /** `get_total_attacking_bits`: one pass over the actions, adding the
      amount of each one whose destination is `base`. */
  method GetTotalAttackingBits(base: Base, actions: seq<BoardAction>) returns (total: int)
    ensures total == IncomingBits(base.uid, actions)
    ensures total == TotalAmount(Targeting(base.uid, actions))
  {
    total := 0;
    var i := 0;
    while i < |actions|
      invariant 0 <= i <= |actions|
      invariant total == IncomingBits(base.uid, actions[..i])
    {
      assert actions[..i + 1][..i] == actions[..i];
      if actions[i].dest == base.uid {
        total := total + actions[i].amount;
      }
      i := i + 1;
    }
    assert actions[..i] == actions;
    IncomingBitsIsTotalOfTargeting(base.uid, actions);
  }

  lemma {:induction false} TotalAmountAppend(a: seq<BoardAction>, b: seq<BoardAction>)
    ensures TotalAmount(a + b) == TotalAmount(a) + TotalAmount(b)
  {
    if a != [] {
      assert (a + b)[1..] == a[1..] + b;
      TotalAmountAppend(a[1..], b);
    } else {
      assert a + b == b;
    }
  }

  /** The aggregate equals the total amount of exactly the actions aimed at `uid`. */
  lemma {:induction false} IncomingBitsIsTotalOfTargeting(uid: nat, actions: seq<BoardAction>)
    ensures IncomingBits(uid, actions) == TotalAmount(Targeting(uid, actions))
  {
    if actions != [] {
      var init, last := actions[..|actions| - 1], actions[|actions| - 1];
      IncomingBitsIsTotalOfTargeting(uid, init);
      var piece := if last.dest == uid then [last] else [];
      TotalAmountAppend(Targeting(uid, init), piece);
      assert TotalAmount(piece) == (if last.dest == uid then last.amount else 0) by {
        if last.dest == uid { assert piece[1..] == []; }
      }
    }
  }

  /** The aggregate is zero exactly when every action aimed at `uid` carries nothing. */
  lemma {:induction false} IncomingBitsZeroIff(uid: nat, actions: seq<BoardAction>)
    ensures IncomingBits(uid, actions) == 0
            <==> forall i :: 0 <= i < |actions| && actions[i].dest == uid ==> actions[i].amount == 0
  {
    if actions != [] {
      var init := actions[..|actions| - 1];
      IncomingBitsZeroIff(uid, init);
    }
  }

  /** The aggregate over two lists of actions is the sum of their aggregates. */
  lemma {:induction false} IncomingBitsAppend(uid: nat, a: seq<BoardAction>, b: seq<BoardAction>)
    ensures IncomingBits(uid, a + b) == IncomingBits(uid, a) + IncomingBits(uid, b)
    decreases |b|
  {
    if b == [] {
      assert a + b == a;
    } else {
      var initB := b[..|b| - 1];
      assert (a + b)[..|a + b| - 1] == a + initB;
      IncomingBitsAppend(uid, a, initB);
    }
  }
}
