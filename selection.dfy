/** `best_target_base`: scores every candidate by the survivors all our
    bases would land on it, and keeps the first candidate with the
    greatest score, if that score is positive. */
module Selection {
  import opened Models
  import opened Attrition

  /** Survivors summed over our bases, for one target. */
  function SumSurvivors(ours: seq<Base>, target: Base, config: GameConfig): (r: int)
    requires LevelsValid(ours, config)
    ensures ours == [] ==> r == 0
  {
    if ours == [] then 0
    else
      var init := ours[..|ours| - 1];
      SumSurvivors(init, target, config) + Survivors(ours[|ours| - 1], target, config)
  }

  /** A positive total needs at least one of our bases with positive survivors. */
  lemma {:induction false} PositiveSumHasContributor(ours: seq<Base>, target: Base, config: GameConfig)
    requires LevelsValid(ours, config)
    requires SumSurvivors(ours, target, config) > 0
    ensures exists i :: 0 <= i < |ours| && Survivors(ours[i], target, config) > 0
  {
    var init, last := ours[..|ours| - 1], ours[|ours| - 1];
    if Survivors(last, target, config) <= 0 {
      PositiveSumHasContributor(init, target, config);
    }
  }

  /** The score of every candidate, in candidate order. Our bases only need
      valid levels when there is a candidate to score. */
  function Scores(cands: seq<Base>, ours: seq<Base>, config: GameConfig): (r: seq<int>)
    requires cands == [] || LevelsValid(ours, config)
    ensures |r| == |cands|
    ensures forall i :: 0 <= i < |cands| ==> r[i] == SumSurvivors(ours, cands[i], config)
  {
    if cands == [] then []
    else
      var init := cands[..|cands| - 1];
      Scores(init, ours, config) + [SumSurvivors(ours, cands[|cands| - 1], config)]
  }

  /** The score the scan holds: 0 before any candidate is kept. */
  function Held(scores: seq<int>, k: Option<nat>): (r: int)
    requires k.Some? ==> k.value < |scores|
    ensures k.Some? ==> r in scores
  {
    match k
    case None => 0
    case Some(j) => scores[j]
  }

  /** The index the scan keeps: the first index holding the greatest score,
      if that score is above 0; none when no score is positive. A later index
      replaces the held one only on a strictly greater score. */
  function FirstMax(scores: seq<int>): (r: Option<nat>)
    ensures r.None? <==> forall i :: 0 <= i < |scores| ==> scores[i] <= 0
    ensures r.Some? ==> r.value < |scores| && scores[r.value] > 0
    ensures r.Some? ==> forall i :: 0 <= i < |scores| ==> scores[i] <= scores[r.value]
    ensures r.Some? ==> forall i :: 0 <= i < r.value ==> scores[i] < scores[r.value]
  {
    if scores == [] then None
    else
      var init, last := scores[..|scores| - 1], scores[|scores| - 1];
      var held := FirstMax(init);
      if last > Held(init, held) then Some(|scores| - 1) else held
  }

  /** The base the scan keeps, if any. */
  function BestTarget(cands: seq<Base>, ours: seq<Base>, config: GameConfig): (r: Option<Base>)
    requires cands == [] || LevelsValid(ours, config)
    ensures r.Some? ==> r.value in cands && SumSurvivors(ours, r.value, config) > 0
  {
    match FirstMax(Scores(cands, ours, config))
    case None => None
    case Some(k) => Some(cands[k])
  }

  /** The inner loop of `best_target_base`: survivors summed over our bases
      for one target. */
  method SumOverOurBases(ours: seq<Base>, target: Base, config: GameConfig) returns (sumSurvivors: int)
    requires LevelsValid(ours, config)
    ensures sumSurvivors == SumSurvivors(ours, target, config)
  {
    sumSurvivors := 0;
    var j := 0;
    while j < |ours|
      invariant 0 <= j <= |ours|
      invariant sumSurvivors == SumSurvivors(ours[..j], target, config)
    {
      SumSurvivorsSnoc(ours, j, target, config);
      sumSurvivors := sumSurvivors + Survivors(ours[j], target, config);
      j := j + 1;
    }
    assert ours[..j] == ours;
  }

  /** The outer loop of `best_target_base`: one pass over the candidates,
      replacing the held target only on a strictly greater score. */
  method BestTargetBase(cands: seq<Base>, ours: seq<Base>, config: GameConfig) returns (best: Option<Base>)
    requires cands == [] || LevelsValid(ours, config)
    ensures best == BestTarget(cands, ours, config)
  {
    best := None;
    var mostSurvivors := 0;
    ghost var held: Option<nat> := None;
    ghost var scores: seq<int> := [];
    var i := 0;
    while i < |cands|
      invariant 0 <= i <= |cands|
      invariant scores == Scores(cands[..i], ours, config)
      invariant held == FirstMax(scores)
      invariant held.Some? ==> held.value < i
      invariant best == (if held.Some? then Some(cands[held.value]) else None)
      invariant mostSurvivors == Held(scores, held)
    {
      var target := cands[i];
      var sumSurvivors := SumOverOurBases(ours, target, config);
      ScoresSnoc(cands, i, ours, config);
      ScanStep(scores, sumSurvivors, held, mostSurvivors);
      if sumSurvivors > mostSurvivors {
        mostSurvivors := sumSurvivors;
        best := Some(target);
        held := Some(i);
      }
      scores := scores + [sumSurvivors];
      i := i + 1;
    }
    assert cands[..i] == cands;
  }

  lemma SumSurvivorsSnoc(ours: seq<Base>, j: nat, target: Base, config: GameConfig)
    requires j < |ours| && LevelsValid(ours, config)
    ensures LevelsValid(ours[..j], config) && LevelsValid(ours[..j + 1], config)
    ensures SumSurvivors(ours[..j + 1], target, config) == SumSurvivors(ours[..j], target, config) + Survivors(ours[j], target, config)
  {
    assert ours[..j + 1][..j] == ours[..j];
  }

  lemma ScoresSnoc(cands: seq<Base>, i: nat, ours: seq<Base>, config: GameConfig)
    requires i < |cands| && LevelsValid(ours, config)
    ensures Scores(cands[..i + 1], ours, config) == Scores(cands[..i], ours, config) + [SumSurvivors(ours, cands[i], config)]
  {
    assert cands[..i + 1][..i] == cands[..i];
  }

  /** One more step of the scan: a new score replaces the held one only
      when it is strictly greater. */
  lemma ScanStep(scores: seq<int>, x: int, held: Option<nat>, most: int)
    requires held == FirstMax(scores) && most == Held(scores, held)
    ensures var next := if x > most then Some(|scores|) else held;
            next == FirstMax(scores + [x]) && Held(scores + [x], next) == (if x > most then x else most)
  {
    assert (scores + [x])[..|scores|] == scores;
  }

  /** No target is chosen exactly when every candidate scores 0 or less. */
  lemma NoTargetIff(cands: seq<Base>, ours: seq<Base>, config: GameConfig)
    requires cands == [] || LevelsValid(ours, config)
    ensures BestTarget(cands, ours, config).None?
            <==> forall i :: 0 <= i < |cands| ==> SumSurvivors(ours, cands[i], config) <= 0
  {
    var scores := Scores(cands, ours, config);
    assert FirstMax(scores).None? <==> forall i :: 0 <= i < |scores| ==> scores[i] <= 0;
  }

  /** A chosen target is a candidate with a positive score no other candidate
      beats, and every candidate before it scores strictly less, so on a tie
      the first one seen wins. */
  lemma ChosenTargetIsFirstMaximum(cands: seq<Base>, ours: seq<Base>, config: GameConfig)
    requires cands != [] && LevelsValid(ours, config)
    requires BestTarget(cands, ours, config).Some?
    ensures exists k :: 0 <= k < |cands| && cands[k] == BestTarget(cands, ours, config).value
                        && SumSurvivors(ours, cands[k], config) > 0
                        && (forall i :: 0 <= i < |cands| ==>
                              SumSurvivors(ours, cands[i], config) <= SumSurvivors(ours, cands[k], config))
                        && (forall i :: 0 <= i < k ==>
                              SumSurvivors(ours, cands[i], config) < SumSurvivors(ours, cands[k], config))
  {
    var k := FirstMax(Scores(cands, ours, config)).value;
    assert cands[k] == BestTarget(cands, ours, config).value;
  }

  /** One base of ours against one candidate: the candidate is chosen exactly
      when the base's survivors against it are positive. */
  lemma BestTargetSingle(o: Base, c: Base, config: GameConfig)
    requires LevelValid(o, config)
    ensures LevelsValid([o], config)
    ensures BestTarget([c], [o], config) == if Survivors(o, c, config) > 0 then Some(c) else None
  {
    var s := Survivors(o, c, config);
    assert [o][..0] == [];
    assert SumSurvivors([o], c, config) == s;
    assert Scores([c], [o], config) == [s];
    assert [s][..0] == [];
  }

  /** With no bases of our own every score is 0, so no target is chosen. */
  lemma NoOwnedBasesNoTarget(cands: seq<Base>, config: GameConfig)
    ensures BestTarget(cands, [], config) == None
  {
    assert forall i :: 0 <= i < |cands| ==> SumSurvivors([], cands[i], config) == 0;
  }
}
