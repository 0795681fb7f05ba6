/**
 * The step controller of the environment: per-screen action validity, the
 * invalid-action penalty, reward assembly, death and act-clear termination
 * and the step budget. The game engine is not modelled: what a step reads
 * from it is an `Engine` value, and the engine call a step makes is
 * returned as an `EngineCall`.
 */
module StsEnv {
  import opened Wrappers
  import opened Observation
  import Reward
  import MapEvaluator

  const MaxSteps := 2000
  const EndTurnAction := 10
  const ProceedAction := 11
  /** The cost of a hand card that does not report `costForTurn`. */
  const DefaultCost := 99
  const InvalidPenalty: real := 0.1
  const DeathPenalty: real := 10.0
  const ActClearBonus: real := 20.0
  /** A floor number above this ends act 1. */
  const ActClearFloor := 16
  const InvalidActionMessage := "Invalid Action"

  /** The engine's screen enumeration (values 0..9). */
  datatype Screen = Invalid | Event | Rewards | BossRelic | CardSelect | Map | Treasure | Rest | Shop | Battle

  /** A hand card as the controller sees it. */
  datatype HandCard = HandCard(costForTurn: Option<int>)

  /** What one step reads from the engine: the screen, hand and energy
      before the action, whether the engine refuses the card play, the
      random target draw, and the property bundle, HP and floor after. */
  datatype Engine = Engine(
    screen: Screen,
    hand: seq<HandCard>,
    energy: int,
    playRaises: bool,
    targetPick: nat,
    after: Fetch,
    curHp: int,
    floorNum: int)

  /** The engine mutator a step invokes. */
  datatype EngineCall = NoCall | PlayCard(slot: int, target: int) | EndTurn | HandleScreen(screen: Screen)

  /** The info dictionary: the error flag of an invalid action, or the
      reward breakdown of a valid one. */
  datatype Info = Error(message: string) | Components(entries: seq<Reward.Entry>)

  datatype StepResult = StepResult(obs: seq<real>, reward: real, terminated: bool, truncated: bool, info: Info)

  function CardCost(c: HandCard): int {
    c.costForTurn.GetOr(DefaultCost)
  }

  /** The checks made before a card play: the slot holds a card that the
      current energy pays for. */
  predicate Affordable(hand: seq<HandCard>, energy: int, action: int) {
    0 <= action < |hand| && CardCost(hand[action]) <= energy
  }

  /** Whether the step accepts the action: in battle a card slot that is
      filled, affordable and not refused by the engine, or end turn; outside
      battle any action from 11 up. */
  function Accepted(screen: Screen, action: int, hand: seq<HandCard>, energy: int, playRaises: bool): (ok: bool)
    ensures screen == Battle && action == EndTurnAction ==> ok
    ensures screen == Battle && ProceedAction <= action ==> !ok
    ensures screen == Battle && action < 0 ==> !ok
    ensures screen == Battle && 0 <= action <= 9 ==>
      (ok <==> action < |hand| && CardCost(hand[action]) <= energy && !playRaises)
    ensures screen != Battle ==> (ok <==> action >= ProceedAction)
  {
    if screen == Battle then
      if 0 <= action <= 9 then Affordable(hand, energy, action) && !playRaises
      else action == EndTurnAction
    else action >= ProceedAction
  }

  /** The alive monster slots among the first n, ascending. */
  function AliveUpTo(obs: seq<real>, n: nat): seq<int>
    requires IsObservation(obs) && n <= MonsterSlots
  {
    if n == 0 then []
    else AliveUpTo(obs, n - 1) + (if obs[Reward.MonsterAliveIndex(n - 1)] > 0.5 then [n - 1] else [])
  }

  function AliveSlots(obs: seq<real>): seq<int>
    requires IsObservation(obs)
  {
    AliveUpTo(obs, MonsterSlots)
  }

  /** The card target: the drawn member of the alive list, 0 when it is
      empty; every member can be drawn. */
  function Target(alive: seq<int>, pick: nat): (t: int)
    ensures alive == [] ==> t == 0
    ensures alive != [] ==> t in alive
    ensures pick < |alive| ==> t == alive[pick]
  {
    if alive == [] then 0 else alive[pick % |alive|]
  }

  /** The engine call a step makes for an action. */
  function CallFor(action: int, eng: Engine, alive: seq<int>): EngineCall {
    if eng.screen == Battle then
      if 0 <= action <= 9 then
        if Affordable(eng.hand, eng.energy, action) then PlayCard(action, Target(alive, eng.targetPick)) else NoCall
      else if action == EndTurnAction then EndTurn
      else NoCall
    else if action >= ProceedAction then HandleScreen(eng.screen)
    else NoCall
  }

  /** The terminal term: death takes precedence over the act clear. */
  function TerminalReward(curHp: int, floorNum: int): (r: real)
    ensures r < 0.0 <==> curHp <= 0
    ensures r > 0.0 <==> curHp > 0 && floorNum > ActClearFloor
    ensures r < 0.0 ==> r == -10.0
    ensures r > 0.0 ==> r == 20.0
  {
    if curHp <= 0 then -DeathPenalty else if floorNum > ActClearFloor then ActClearBonus else 0.0
  }

  /** The rest-site choice: option 0 (rest) below half HP, option 1 (smith)
      otherwise. */
  function RestOption(curHp: int, maxHp: int): (option: int)
    requires maxHp != 0
    ensures option == 0 || option == 1
    ensures maxHp > 0 ==> (option == 0 <==> 2 * curHp < maxHp)
  {
    HalfRatio(curHp, maxHp);
    if MapEvaluator.HpRatio(curHp, maxHp) < 0.5 then 0 else 1
  }

  /** Below half HP, as a ratio, is below half HP in whole points. */
  lemma HalfRatio(curHp: int, maxHp: int)
    requires maxHp != 0
    ensures maxHp > 0 ==> (MapEvaluator.HpRatio(curHp, maxHp) < 0.5 <==> 2 * curHp < maxHp)
  {
    if maxHp > 0 {
      HalfOf(curHp as real, maxHp as real);
    }
  }

  lemma HalfOf(c: real, m: real)
    requires m > 0.0
    ensures c / m < 0.5 <==> 2.0 * c < m
  {
    var r := c / m;
    assert r * m == c;
    if r < 0.5 {
      PositiveProduct(0.5 - r, m);
      assert 0.5 * m - r * m > 0.0;
    } else if r > 0.5 {
      PositiveProduct(r - 0.5, m);
      assert r * m - 0.5 * m > 0.0;
    }
  }

  lemma PositiveProduct(a: real, b: real)
    requires a > 0.0 && b > 0.0
    ensures a * b > 0.0
  {
  }

  /** The map handler's two-value unpacking of the optimizer's result: the
      x of a pair; the bare 0 returned without candidates cannot be
      unpacked and raises, shown as None. */
  function UnpackMapChoice(c: MapEvaluator.Choice): (r: Option<int>)
    ensures r.None? <==> c.NoCandidate?
    ensures c.Best? ==> r == Some(c.x)
  {
    match c
    case NoCandidate => None
    case Best(x, _) => Some(x)
  }

  /** The map handler up to its engine call: an optimizer over the
      engine's map picks the next x, and the handler unpacks it. With
      max_hp = 0 the handler always raises: scoring a candidate divides by
      max_hp, and without candidates the unpacking fails. A raise is None. */
  method MapTarget(m: seq<seq<MapEvaluator.Node>>, curX: int, curY: int, curHp: int, maxHp: int, gold: int)
    returns (target: Option<int>)
    requires MapEvaluator.WellFormed(m) && curY >= -1
    ensures target.None? <==> maxHp == 0 || MapEvaluator.Candidates(m, curX, curY) == []
    ensures curY >= MapEvaluator.MaxFloor ==> target.None?
    ensures target.Some? ==> maxHp != 0
    ensures target.Some? && maxHp != 0 ==>
      var cands := MapEvaluator.Candidates(m, curX, curY);
      exists k :: MapEvaluator.FirstBest(m, MapEvaluator.StatsOf(curHp, maxHp, gold), cands, k)
               && target.value == cands[k].x
  {
    if curY >= MapEvaluator.MaxFloor {
      MapEvaluator.NoCandidateCases(m, curX, curY);
    }
    if maxHp == 0 {
      return None;
    }
    var c := MapEvaluator.EvaluatePath(m, MapEvaluator.StatsOf(curHp, maxHp, gold), curX, curY);
    target := UnpackMapChoice(c);
  }

  /** The alive list holds exactly the slots whose flag exceeds 0.5, in
      ascending order, as many as the reward's alive count. */
  lemma {:induction false} AliveUpToSpec(obs: seq<real>, n: nat)
    requires IsObservation(obs) && n <= MonsterSlots
    ensures var a := AliveUpTo(obs, n);
      && (forall i :: i in a <==> 0 <= i < n && obs[Reward.MonsterAliveIndex(i)] > 0.5)
      && (forall j, k :: 0 <= j < k < |a| ==> a[j] < a[k])
      && |a| == Reward.AliveCount(obs, n)
  {
    if n > 0 {
      AliveUpToSpec(obs, n - 1);
      var a' := AliveUpTo(obs, n - 1);
      forall j | 0 <= j < |a'|
        ensures a'[j] < n - 1
      {
        assert a'[j] in a';
      }
    }
  }

  lemma AliveSlotsSpec(obs: seq<real>)
    requires IsObservation(obs)
    ensures var a := AliveSlots(obs);
      && (forall i :: i in a <==> 0 <= i < MonsterSlots && obs[Reward.MonsterAliveIndex(i)] > 0.5)
      && (forall j, k :: 0 <= j < k < |a| ==> a[j] < a[k])
      && |a| == Reward.AliveCount(obs, MonsterSlots)
  {
    AliveUpToSpec(obs, MonsterSlots);
  }

  class Env {
    var stepCount: int
    var obsPrev: seq<real>

    ghost predicate Valid()
      reads this
    {
      stepCount >= 0 && IsObservation(obsPrev)
    }

    /** A fresh environment after `reset`: no step taken, the initial
        observation encoded. */
    constructor (initial: Fetch)
      ensures Valid() && stepCount == 0 && obsPrev == Encode(initial)
    {
      var obs := GetObservation(initial);
      stepCount := 0;
      obsPrev := obs;
    }

    /** `reset`: a new game; the step counter restarts. */
    method Reset(initial: Fetch) returns (obs: seq<real>)
      modifies this
      ensures Valid() && stepCount == 0 && obsPrev == Encode(initial) && obs == obsPrev
    {
      stepCount := 0;
      obsPrev := GetObservation(initial);
      obs := obsPrev;
    }

    /** `_get_alive_monsters`: the alive slots of the previous observation. */
    method AliveMonsters() returns (alive: seq<int>)
      requires Valid()
      ensures alive == AliveSlots(obsPrev)
    {
      alive := [];
      var obs := obsPrev;
      for i := 0 to MonsterSlots
        invariant alive == AliveUpTo(obs, i)
      {
        var isAlive := obs[Reward.MonsterAliveIndex(i)];
        if isAlive > 0.5 {
          alive := alive + [i];
        }
      }
    }

    /** The action handling of `step`: which actions the current screen
        accepts, and the engine call each one makes. A card play draws its
        target from the alive monsters of the stored observation. */
    method Dispatch(action: int, eng: Engine) returns (actionValid: bool, call: EngineCall)
      requires Valid()
      ensures actionValid == Accepted(eng.screen, action, eng.hand, eng.energy, eng.playRaises)
      ensures call == CallFor(action, eng, AliveSlots(obsPrev))
    {
      call := NoCall;
      actionValid := false;
      if eng.screen == Battle {
        if 0 <= action <= 9 {
          if action < |eng.hand| {
            var cost := eng.hand[action].costForTurn.GetOr(DefaultCost);
            if cost <= eng.energy {
              var alive := AliveMonsters();
              var targetIdx := 0;
              if alive != [] {
                targetIdx := Target(alive, eng.targetPick);
              }
              call := PlayCard(action, targetIdx);
              actionValid := !eng.playRaises;
            } else {
              actionValid := false;
            }
          } else {
            actionValid := false;
          }
        } else if action == EndTurnAction {
          call := EndTurn;
          actionValid := true;
        } else {
          actionValid := false;
        }
      } else {
        if action >= ProceedAction {
          call := HandleScreen(eng.screen);
          actionValid := true;
        } else {
          actionValid := false;
        }
      }
    }

    /** `step`: validates and dispatches the action, charges the
        invalid-action penalty or adds the shaped reward, and applies the
        terminal terms and the step budget. */
    method Step(action: int, eng: Engine) returns (res: StepResult, call: EngineCall)
      requires Valid()
      modifies this
      ensures Valid()
      ensures stepCount == old(stepCount) + 1
      ensures res.truncated <==> stepCount >= MaxSteps
      ensures res.terminated <==> eng.curHp <= 0 || eng.floorNum > ActClearFloor
      ensures call == CallFor(action, eng, AliveSlots(old(obsPrev)))
      ensures res.obs == obsPrev
      ensures !Accepted(eng.screen, action, eng.hand, eng.energy, eng.playRaises) ==>
        && obsPrev == old(obsPrev)
        && res.info == Error(InvalidActionMessage)
        && res.reward == -InvalidPenalty + TerminalReward(eng.curHp, eng.floorNum)
      ensures Accepted(eng.screen, action, eng.hand, eng.energy, eng.playRaises) ==>
        && obsPrev == Encode(eng.after)
        && res.info == Components(Reward.Breakdown(old(obsPrev), obsPrev))
        && res.reward == Reward.Total(Reward.Breakdown(old(obsPrev), obsPrev)) + TerminalReward(eng.curHp, eng.floorNum)
    {
      stepCount := stepCount + 1;
      var truncated := false;
      var terminated := false;
      var stepReward := 0.0;
      var info := Components([]);

      var actionValid;
      actionValid, call := Dispatch(action, eng);

      if !actionValid {
        stepReward := stepReward - InvalidPenalty;
        info := Error(InvalidActionMessage);
      } else {
        var obsCurr := GetObservation(eng.after);
        var rRational, rInfo := Reward.CalculateRationalReward(obsPrev, obsCurr);
        stepReward := stepReward + rRational;
        info := Components(rInfo);
        obsPrev := obsCurr;
      }

      if eng.curHp <= 0 {
        terminated := true;
        stepReward := stepReward - DeathPenalty;
      } else if eng.floorNum > ActClearFloor {
        terminated := true;
        stepReward := stepReward + ActClearBonus;
      }

      if stepCount >= MaxSteps {
        truncated := true;
      }

      res := StepResult(obsPrev, stepReward, terminated, truncated, info);
    }
  }
}
