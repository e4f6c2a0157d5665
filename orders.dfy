/** `attack`: once a target is chosen, every one of our bases that would
    land a positive number of troops on it sends exactly that many. */
module OrderGeneration {
  import opened Models
  import opened Attrition
  import opened Selection

  /** Our bases that would land a positive number of troops on `target`, in order. */
  function Contributors(ours: seq<Base>, target: Base, config: GameConfig): (r: seq<Base>)
    requires LevelsValid(ours, config)
    ensures |r| <= |ours|
    ensures LevelsValid(r, config)
    ensures forall i :: 0 <= i < |r| ==> Survivors(r[i], target, config) > 0
  {
    if ours == [] then []
    else
      var init, last := ours[..|ours| - 1], ours[|ours| - 1];
      Contributors(init, target, config) + (if Survivors(last, target, config) > 0 then [last] else [])
  }

  /** The orders sent against `target`: one per base of `ours` with positive
      survivors, in the order of `ours`. */
  function Orders(ours: seq<Base>, target: Base, config: GameConfig): (r: seq<PlayerAction>)
    requires LevelsValid(ours, config)
    ensures |r| <= |ours|
    ensures forall i :: 0 <= i < |r| ==> r[i].dest == target.uid && r[i].amount > 0
  {
    if ours == [] then []
    else
      var init, last := ours[..|ours| - 1], ours[|ours| - 1];
      var s := Survivors(last, target, config);
      Orders(init, target, config) + (if s > 0 then [PlayerAction(last.uid, target.uid, s)] else [])
  }

  /** The orders the engine emits for a candidate pool: none without a target. */
  function AttackOrders(cands: seq<Base>, ours: seq<Base>, config: GameConfig): (r: seq<PlayerAction>)
    requires cands == [] || LevelsValid(ours, config)
    ensures BestTarget(cands, ours, config).None? ==> r == []
    ensures forall i :: 0 <= i < |r| ==>
              r[i].amount > 0 && r[i].dest == BestTarget(cands, ours, config).value.uid
  {
    match BestTarget(cands, ours, config)
    case None => []
    case Some(target) => Orders(ours, target, config)
  }

  /** The loop of `attack`: choose the target, then push one order for each
      of our bases whose survivors are positive. */
  method Attack(cands: seq<Base>, ours: seq<Base>, config: GameConfig) returns (attackList: seq<PlayerAction>)
    requires cands == [] || LevelsValid(ours, config)
    ensures attackList == AttackOrders(cands, ours, config)
    ensures BestTarget(cands, ours, config).None? ==> attackList == []
    ensures forall i :: 0 <= i < |attackList| ==> attackList[i].amount > 0
  {
    attackList := [];
    var best := BestTargetBase(cands, ours, config);
    if best.Some? {
      var target := best.value;
      assert target in cands;
      var i := 0;
      while i < |ours|
        invariant 0 <= i <= |ours|
        invariant attackList == Orders(ours[..i], target, config)
      {
        OrdersSnoc(ours, i, target, config);
        var survivors := Survivors(ours[i], target, config);
        if survivors > 0 {
          attackList := attackList + [PlayerAction(ours[i].uid, target.uid, survivors)];
        }
        i := i + 1;
      }
      assert ours[..i] == ours;
    }
  }

  /** One more base of ours appends its order, if its survivors are positive. */
  lemma OrdersSnoc(ours: seq<Base>, j: nat, target: Base, config: GameConfig)
    requires j < |ours| && LevelsValid(ours, config)
    ensures LevelsValid(ours[..j], config) && LevelsValid(ours[..j + 1], config)
    ensures var s := Survivors(ours[j], target, config);
            Orders(ours[..j + 1], target, config)
            == Orders(ours[..j], target, config) + (if s > 0 then [PlayerAction(ours[j].uid, target.uid, s)] else [])
  {
    assert ours[..j + 1][..j] == ours[..j];
  }

  /** The orders are exactly the contributors' orders: the i-th order comes
      from the i-th contributor and carries its survivors. */
  lemma {:induction false} OrdersMatchContributors(ours: seq<Base>, target: Base, config: GameConfig)
    requires LevelsValid(ours, config)
    ensures |Orders(ours, target, config)| == |Contributors(ours, target, config)|
    ensures forall i :: 0 <= i < |Orders(ours, target, config)| ==>
              var c := Contributors(ours, target, config)[i];
              Orders(ours, target, config)[i] == PlayerAction(c.uid, target.uid, Survivors(c, target, config))
  {
    if ours != [] {
      var init := ours[..|ours| - 1];
      OrdersMatchContributors(init, target, config);
    }
  }

  /** A base contributes exactly when it is one of ours with positive survivors. */
  lemma {:induction false} ContributorMembership(ours: seq<Base>, target: Base, config: GameConfig, b: Base)
    requires LevelsValid(ours, config)
    ensures b in Contributors(ours, target, config) <==> b in ours && Survivors(b, target, config) > 0
  {
    if ours != [] {
      var init := ours[..|ours| - 1];
      ContributorMembership(init, target, config, b);
      assert ours == init + [ours[|ours| - 1]];
    }
  }

  /** No order is sent exactly when none of our bases has positive survivors. */
  lemma {:induction false} OrdersEmptyIff(ours: seq<Base>, target: Base, config: GameConfig)
    requires LevelsValid(ours, config)
    ensures Orders(ours, target, config) == []
            <==> forall i :: 0 <= i < |ours| ==> Survivors(ours[i], target, config) <= 0
  {
    if ours != [] {
      var init := ours[..|ours| - 1];
      OrdersEmptyIff(init, target, config);
    }
  }

  /** Orders for two lists of our bases are the orders of the first followed
      by those of the second: emission follows the order of our bases. */
  lemma {:induction false} OrdersAppend(a: seq<Base>, b: seq<Base>, target: Base, config: GameConfig)
    requires LevelsValid(a, config) && LevelsValid(b, config)
    ensures LevelsValid(a + b, config)
    ensures Orders(a + b, target, config) == Orders(a, target, config) + Orders(b, target, config)
    decreases |b|
  {
    if b == [] {
      assert a + b == a;
    } else {
      var initB, last := b[..|b| - 1], b[|b| - 1];
      assert (a + b)[..|a + b| - 1] == a + initB && (a + b)[|a + b| - 1] == last;
      OrdersAppend(a, initB, target, config);
      var s := Survivors(last, target, config);
      var piece := if s > 0 then [PlayerAction(last.uid, target.uid, s)] else [];
      assert Orders(b, target, config) == Orders(initB, target, config) + piece;
      assert Orders(a + b, target, config) == Orders(a + initB, target, config) + piece;
    }
  }

  /** Total troops ordered, summed over a list of orders. */
  function OrderedAmount(orders: seq<PlayerAction>): (r: nat)
    ensures orders == [] ==> r == 0
  {
    if orders == [] then 0 else OrderedAmount(orders[..|orders| - 1]) + orders[|orders| - 1].amount
  }

  /** The troops actually sent are at least the target's score: dropping the
      non-positive contributions only raises the sum. */
  lemma {:induction false} OrderedAmountCoversScore(ours: seq<Base>, target: Base, config: GameConfig)
    requires LevelsValid(ours, config)
    ensures OrderedAmount(Orders(ours, target, config)) >= SumSurvivors(ours, target, config)
  {
    if ours != [] {
      var init := ours[..|ours| - 1];
      OrderedAmountCoversScore(init, target, config);
      var prev := Orders(init, target, config);
      var s := Survivors(ours[|ours| - 1], target, config);
      assert SumSurvivors(ours, target, config) == SumSurvivors(init, target, config) + s;
      if s > 0 {
        var order := PlayerAction(ours[|ours| - 1].uid, target.uid, s);
        assert Orders(ours, target, config) == prev + [order];
        assert (prev + [order])[..|prev|] == prev;
      } else {
        assert Orders(ours, target, config) == prev;
      }
    }
  }

  /** One base of ours against one candidate: one order carrying the
      survivors when they are positive, and nothing otherwise. */
  lemma AttackOrdersSingle(o: Base, c: Base, config: GameConfig)
    requires LevelValid(o, config)
    ensures LevelsValid([o], config)
    ensures var s := Survivors(o, c, config);
            AttackOrders([c], [o], config) == if s > 0 then [PlayerAction(o.uid, c.uid, s)] else []
  {
    BestTargetSingle(o, c, config);
    OrdersSingle(o, c, config);
  }

  /** One base of ours sends one order when its survivors are positive. */
  lemma OrdersSingle(o: Base, target: Base, config: GameConfig)
    requires LevelValid(o, config)
    ensures LevelsValid([o], config)
    ensures var s := Survivors(o, target, config);
            Orders([o], target, config) == if s > 0 then [PlayerAction(o.uid, target.uid, s)] else []
  {
    assert [o][..0] == [];
  }

  /** Whenever a target is chosen at least one order is sent against it. */
  lemma ChosenTargetIsAttacked(cands: seq<Base>, ours: seq<Base>, config: GameConfig)
    requires cands == [] || LevelsValid(ours, config)
    requires BestTarget(cands, ours, config).Some?
    ensures AttackOrders(cands, ours, config) != []
  {
    ChosenTargetIsFirstMaximum(cands, ours, config);
    var t := BestTarget(cands, ours, config).value;
    var k :| 0 <= k < |cands| && cands[k] == t && SumSurvivors(ours, cands[k], config) > 0;
    PositiveSumHasContributor(ours, t, config);
    OrdersEmptyIff(ours, t, config);
  }
}
