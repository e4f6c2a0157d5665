/** `decide`: the engine's single entry point. It classifies the bases,
    pools other players' bases followed by unclaimed ones as candidates,
    and emits the attack orders against the best candidate. */
module Decide {
  import opened Models
  import opened Geometry
  import opened Classify
  import opened Attrition
  import opened Selection
  import opened OrderGeneration

  /** Every base of the snapshot belongs to the acting player. */
  predicate AllOwned(state: GameState)
  {
    forall i :: 0 <= i < |state.bases| ==> state.bases[i].player == state.game.player
  }

  /** Every base of the acting player names a level of the table. */
  predicate OwnedLevelsValid(state: GameState)
  {
    forall i :: 0 <= i < |state.bases| && state.bases[i].player == state.game.player ==>
      LevelValid(state.bases[i], state.config)
  }

  /** What `decide` needs to finish: the level of each of our bases is looked
      up as soon as there is one candidate to score. */
  predicate Ready(state: GameState)
  {
    AllOwned(state) || OwnedLevelsValid(state)
  }

  function OurBases(state: GameState): seq<Base>
  {
    Select(state.bases, state.game.player, Ours)
  }

  /** Other players' bases followed by the unclaimed ones. */
  function CandidatePool(state: GameState): seq<Base>
  {
    Select(state.bases, state.game.player, Other) + Select(state.bases, state.game.player, Empty)
  }

  /** The candidate pool holds exactly the bases the acting player does not own. */
  lemma CandidatePoolIsNotOwned(state: GameState, b: Base)
    ensures b in CandidatePool(state) <==> b in state.bases && b.player != state.game.player
  {
    SelectMembership(state.bases, state.game.player, Other, b);
    SelectMembership(state.bases, state.game.player, Empty, b);
  }

  /** Our bases are exactly the bases of the acting player. */
  lemma OurBasesAreOwned(state: GameState, b: Base)
    ensures b in OurBases(state) <==> b in state.bases && b.player == state.game.player
  {
    SelectMembership(state.bases, state.game.player, Ours, b);
  }

  /** A ready snapshot meets the requirement of the target scan and of the order loop. */
  lemma ReadyForAttack(state: GameState)
    requires Ready(state)
    ensures CandidatePool(state) == [] || LevelsValid(OurBases(state), state.config)
  {
    var pool, ours := CandidatePool(state), OurBases(state);
    if AllOwned(state) {
      if pool != [] {
        CandidatePoolIsNotOwned(state, pool[0]);
      }
    } else {
      forall i | 0 <= i < |ours|
        ensures LevelValid(ours[i], state.config)
      {
        OurBasesAreOwned(state, ours[i]);
      }
    }
  }

  /** The orders `decide` returns for a snapshot. */
  function Decision(state: GameState): (r: seq<PlayerAction>)
    requires Ready(state)
    ensures forall i :: 0 <= i < |r| ==> r[i].amount > 0 && r[i].dest == r[0].dest
  {
    ReadyForAttack(state);
    AttackOrders(CandidatePool(state), OurBases(state), state.config)
  }

  /** `decide`: split the bases, then attack from ours against the pool of
      other players' bases followed by unclaimed ones. */
  method Decide(state: GameState) returns (orders: seq<PlayerAction>)
    requires Ready(state)
    ensures orders == Decision(state)
    ensures forall i :: 0 <= i < |orders| ==> orders[i].amount > 0
  {
    var ours, other, empty := FilterBases(state.bases, state.game.player);
    ReadyForAttack(state);
    orders := Attack(other + empty, ours, state.config);
  }

  /** With no base of its own the agent sends nothing. */
  lemma NoOwnedBasesNoOrders(state: GameState)
    requires forall i :: 0 <= i < |state.bases| ==> state.bases[i].player != state.game.player
    ensures Ready(state)
    ensures Decision(state) == []
  {
    var ours := OurBases(state);
    if ours != [] {
      OurBasesAreOwned(state, ours[0]);
    }
    assert ours == [];
    NoOwnedBasesNoTarget(CandidatePool(state), state.config);
  }

  /** When no candidate scores above 0, nothing is sent. */
  lemma NoPositiveScoreNoOrders(state: GameState)
    requires Ready(state)
    requires CandidatePool(state) == [] || LevelsValid(OurBases(state), state.config)
    requires forall i :: 0 <= i < |CandidatePool(state)| ==>
               SumSurvivors(OurBases(state), CandidatePool(state)[i], state.config) <= 0
    ensures Decision(state) == []
  {
    NoTargetIff(CandidatePool(state), OurBases(state), state.config);
  }

  /** Every order sends a positive number of troops from one of our bases to
      a base we do not own, and all orders share that destination. */
  lemma OrdersAreSound(state: GameState)
    requires Ready(state)
    ensures forall i :: 0 <= i < |Decision(state)| ==>
              var o := Decision(state)[i];
              o.amount > 0
              && (exists b :: b in state.bases && b.player == state.game.player && b.uid == o.src)
              && (exists b :: b in state.bases && b.player != state.game.player && b.uid == o.dest)
              && o.dest == Decision(state)[0].dest
  {
    ReadyForAttack(state);
    var pool, ours, config := CandidatePool(state), OurBases(state), state.config;
    var best := BestTarget(pool, ours, config);
    if best.Some? {
      var t := best.value;
      ChosenTargetIsFirstMaximum(pool, ours, config);
      assert t in pool;
      CandidatePoolIsNotOwned(state, t);
      var orders := Orders(ours, t, config);
      OrdersMatchContributors(ours, t, config);
      forall i | 0 <= i < |orders|
        ensures exists b :: b in state.bases && b.player == state.game.player && b.uid == orders[i].src
      {
        var c := Contributors(ours, t, config)[i];
        ContributorMembership(ours, t, config, c);
        OurBasesAreOwned(state, c);
      }
    }
  }

  /** A snapshot holding one base of ours followed by one unclaimed base
      splits into exactly those two. */
  lemma OneOwnedOneUnclaimed(state: GameState)
    requires |state.bases| == 2 && state.game.player != 0
    requires state.bases[0].player == state.game.player && state.bases[1].player == 0
    ensures OurBases(state) == [state.bases[0]] && CandidatePool(state) == [state.bases[1]]
  {
    var p, b0, b1 := state.game.player, state.bases[0], state.bases[1];
    assert state.bases[..1] == [b0] && [b0][..0] == [];
    assert Select([b0], p, Ours) == [b0] && Select([b0], p, Other) == [] && Select([b0], p, Empty) == [];
  }

  /** With one base of ours and one candidate, the decision is one order
      carrying the survivors when they are positive, and nothing otherwise. */
  lemma SingleCandidateDuel(state: GameState, o: Base, c: Base)
    requires OurBases(state) == [o] && CandidatePool(state) == [c]
    requires LevelValid(o, state.config)
    ensures Ready(state)
    ensures var s := Survivors(o, c, state.config);
            Decision(state) == if s > 0 then [PlayerAction(o.uid, c.uid, s)] else []
  {
    OurBasesAreOwned(state, o);
    assert OwnedLevelsValid(state) by {
      forall i | 0 <= i < |state.bases| && state.bases[i].player == state.game.player
        ensures LevelValid(state.bases[i], state.config)
      {
        OurBasesAreOwned(state, state.bases[i]);
      }
    }
    AttackOrdersSingle(o, c, state.config);
  }

  /** A snapshot with one base of ours (population 20) at the origin and one
      unclaimed base (population 3) at distance 5, grace period 10, death
      rate 1: the whole available force of 15 is sent. */
  lemma ScenarioWithinGracePeriod()
    ensures var ours := Base(1, 1, 20, 0, Position(0, 0, 0));
            var neutral := Base(2, 0, 3, 0, Position(3, 4, 0));
            var state := GameState(GameInfo(1, 2), [ours, neutral], [],
                                   GameConfig([BaseLevel(1)], PathsConfig(10, 1)));
            Ready(state) && Decision(state) == [PlayerAction(1, 2, 15)]
  {
    var ours := Base(1, 1, 20, 0, Position(0, 0, 0));
    var neutral := Base(2, 0, 3, 0, Position(3, 4, 0));
    var config := GameConfig([BaseLevel(1)], PathsConfig(10, 1));
    var state := GameState(GameInfo(1, 2), [ours, neutral], [], config);
    BaseDistanceExact(ours, neutral, 5);
    assert Survivors(ours, neutral, config) == 15;
    OneOwnedOneUnclaimed(state);
    SingleCandidateDuel(state, ours, neutral);
  }

  /** The same snapshot with the unclaimed base at distance 20 and death
      rate 2: 20 troops die on the way, survivors are -5, nothing is sent. */
  lemma ScenarioBeyondGracePeriod()
    ensures var ours := Base(1, 1, 20, 0, Position(0, 0, 0));
            var neutral := Base(2, 0, 3, 0, Position(12, 16, 0));
            var state := GameState(GameInfo(1, 2), [ours, neutral], [],
                                   GameConfig([BaseLevel(1)], PathsConfig(10, 2)));
            Ready(state) && Decision(state) == []
  {
    var ours := Base(1, 1, 20, 0, Position(0, 0, 0));
    var neutral := Base(2, 0, 3, 0, Position(12, 16, 0));
    var config := GameConfig([BaseLevel(1)], PathsConfig(10, 2));
    var state := GameState(GameInfo(1, 2), [ours, neutral], [], config);
    BaseDistanceExact(ours, neutral, 20);
    assert Survivors(ours, neutral, config) == -5;
    OneOwnedOneUnclaimed(state);
    SingleCandidateDuel(state, ours, neutral);
  }
}
