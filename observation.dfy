/**
 * The observation encoder: an engine property bundle becomes a fixed
 * 72-slot vector of reals.
 *
 *   [0..8]    player: HP ratio, block, energy, strength, dexterity,
 *             vulnerable, weak, frail, artifact
 *   [9..33]   5 monster slots of 5: HP ratio, intent id, intent damage,
 *             intent hits, alive flag
 *   [34..63]  10 hand slots of 3: card id, cost, upgraded
 *   [64..71]  draw/50, discard/50, exhaust/50, floor/50, gold/1000,
 *             corruption, dark embrace, dead branch flags
 */
module Observation {
  import opened Wrappers

  const ObservationSize := 72
  const MonsterBase := 9
  const MonsterSlots := 5
  const MonsterWidth := 5
  const HandBase := 34
  const HandSlots := 10
  const CardWidth := 3
  const GlobalBase := 64

  /** One monster record of the bundle; every key may be absent. */
  datatype Monster = Monster(
    curHp: Option<int>,
    maxHp: Option<int>,
    intentId: Option<int>,
    intentDmg: Option<int>,
    intentHits: Option<int>,
    isAlive: Option<bool>)

  /** One hand card record of the bundle. */
  datatype Card = Card(id: Option<int>, cost: Option<int>, upgraded: Option<int>)

  /** The property bundle of the engine; every key may be absent. */
  datatype Props = Props(
    curHp: Option<int>,
    maxHp: Option<int>,
    block: Option<int>,
    energy: Option<int>,
    strength: Option<int>,
    dexterity: Option<int>,
    vulnerable: Option<int>,
    weak: Option<int>,
    frail: Option<int>,
    artifact: Option<int>,
    monsters: Option<seq<Monster>>,
    hand: Option<seq<Card>>,
    drawPileSize: Option<int>,
    discardPileSize: Option<int>,
    exhaustPileSize: Option<int>,
    floorNum: Option<int>,
    gold: Option<int>,
    hasCorruption: Option<bool>,
    hasDarkEmbrace: Option<bool>,
    hasDeadBranch: Option<bool>)

  /** The outcome of asking the engine for its bundle: it may raise. */
  datatype Fetch = Raised | Fetched(props: Props)

  predicate IsObservation(v: seq<real>) {
    |v| == ObservationSize
  }

  /** A numeric key, 0 when absent, as a real. */
  function Num(o: Option<int>): real {
    o.GetOr(0) as real
  }

  /** A truth-valued key: exactly 1.0 or 0.0, 0.0 when absent. */
  function Flag(o: Option<bool>): (r: real)
    ensures r == 1.0 || r == 0.0
    ensures r == 1.0 <==> o == Some(true)
  {
    if o.GetOr(false) then 1.0 else 0.0
  }

  /** The denominator of an HP ratio: max_hp, which defaults to 1 and is
      replaced by 1 when it is not positive. */
  function Denominator(maxHp: Option<int>): (d: int)
    ensures d >= 1
    ensures maxHp.Some? && maxHp.value > 0 ==> d == maxHp.value
    ensures maxHp.None? || maxHp.value <= 0 ==> d == 1
  {
    var m := maxHp.GetOr(1);
    if m <= 0 then 1 else m
  }

  function HpRatio(curHp: Option<int>, maxHp: Option<int>): real {
    Num(curHp) / (Denominator(maxHp) as real)
  }

  function MonsterList(p: Props): seq<Monster> {
    p.monsters.GetOr([])
  }

  function HandList(p: Props): seq<Card> {
    p.hand.GetOr([])
  }

  function PlayerFeature(p: Props, k: int): real
    requires 0 <= k < MonsterBase
  {
    match k
    case 0 => HpRatio(p.curHp, p.maxHp)
    case 1 => Num(p.block)
    case 2 => Num(p.energy)
    case 3 => Num(p.strength)
    case 4 => Num(p.dexterity)
    case 5 => Num(p.vulnerable)
    case 6 => Num(p.weak)
    case 7 => Num(p.frail)
    case _ => Num(p.artifact)
  }

  function MonsterFeature(m: Monster, j: int): real
    requires 0 <= j < MonsterWidth
  {
    match j
    case 0 => HpRatio(m.curHp, m.maxHp)
    case 1 => Num(m.intentId)
    case 2 => Num(m.intentDmg)
    case 3 => Num(m.intentHits)
    case _ => Flag(m.isAlive)
  }

  function CardFeature(c: Card, j: int): real
    requires 0 <= j < CardWidth
  {
    match j
    case 0 => Num(c.id)
    case 1 => Num(c.cost)
    case _ => Num(c.upgraded)
  }

  function GlobalFeature(p: Props, j: int): real
    requires 0 <= j < ObservationSize - GlobalBase
  {
    match j
    case 0 => Num(p.drawPileSize) / 50.0
    case 1 => Num(p.discardPileSize) / 50.0
    case 2 => Num(p.exhaustPileSize) / 50.0
    case 3 => Num(p.floorNum) / 50.0
    case 4 => Num(p.gold) / 1000.0
    case 5 => Flag(p.hasCorruption)
    case 6 => Flag(p.hasDarkEmbrace)
    case _ => Flag(p.hasDeadBranch)
  }

  /** Feature j of monster slot i: the monster's, or padding 0. */
  function MonsterSlotFeature(ms: seq<Monster>, i: int, j: int): real
    requires 0 <= i < MonsterSlots && 0 <= j < MonsterWidth
  {
    if i < |ms| then MonsterFeature(ms[i], j) else 0.0
  }

  /** Feature j of hand slot i: the card's, or padding 0. */
  function HandSlotFeature(cs: seq<Card>, i: int, j: int): real
    requires 0 <= i < HandSlots && 0 <= j < CardWidth
  {
    if i < |cs| then CardFeature(cs[i], j) else 0.0
  }

  /** The fixed index layout: what index k of the vector holds. */
  function Feature(p: Props, k: int): real
    requires 0 <= k < ObservationSize
  {
    if k < MonsterBase then PlayerFeature(p, k)
    else if k < HandBase then
      MonsterSlotFeature(MonsterList(p), (k - MonsterBase) / MonsterWidth, (k - MonsterBase) % MonsterWidth)
    else if k < GlobalBase then
      HandSlotFeature(HandList(p), (k - HandBase) / CardWidth, (k - HandBase) % CardWidth)
    else GlobalFeature(p, k - GlobalBase)
  }

  /** The encoding, index by index; all zeros when the fetch raised. */
  function Encode(f: Fetch): (v: seq<real>)
    ensures IsObservation(v)
  {
    match f
    case Raised => seq(ObservationSize, k => 0.0)
    case Fetched(p) => seq(ObservationSize, k requires 0 <= k < ObservationSize => Feature(p, k))
  }

  /** Index 9 + 5i + j holds feature j of monster slot i. */
  lemma MonsterIndex(p: Props, i: int, j: int)
    requires 0 <= i < MonsterSlots && 0 <= j < MonsterWidth
    ensures Feature(p, MonsterBase + MonsterWidth * i + j) == MonsterSlotFeature(MonsterList(p), i, j)
  {
    var k := MonsterBase + MonsterWidth * i + j;
    assert (k - MonsterBase) / MonsterWidth == i && (k - MonsterBase) % MonsterWidth == j;
  }

  /** Index 34 + 3i + j holds feature j of hand slot i. */
  lemma HandIndex(p: Props, i: int, j: int)
    requires 0 <= i < HandSlots && 0 <= j < CardWidth
    ensures Feature(p, HandBase + CardWidth * i + j) == HandSlotFeature(HandList(p), i, j)
  {
    var k := HandBase + CardWidth * i + j;
    assert (k - HandBase) / CardWidth == i && (k - HandBase) % CardWidth == j;
  }

  /** The first `n` entries of `vec` are those of the layout. */
  predicate LaidOut(p: Props, vec: seq<real>, n: int) {
    |vec| == n <= ObservationSize && forall k :: 0 <= k < |vec| ==> vec[k] == Feature(p, k)
  }

  /** `get_observation`: builds the vector by appending, section after
      section. */
  method GetObservation(f: Fetch) returns (vec: seq<real>)
    ensures vec == Encode(f)
  {
    if f.Raised? {
      vec := seq(ObservationSize, k => 0.0);
      return;
    }
    var p := f.props;

    // Player state.
    var maxHp := p.maxHp.GetOr(1);
    if maxHp <= 0 { maxHp := 1; }
    vec := [Num(p.curHp) / (maxHp as real)];
    vec := vec + [Num(p.block), Num(p.energy)];
    vec := vec + [Num(p.strength), Num(p.dexterity), Num(p.vulnerable), Num(p.weak), Num(p.frail), Num(p.artifact)];
    assert LaidOut(p, vec, MonsterBase);

    vec := AppendMonsters(p, vec);
    vec := AppendHand(p, vec);

    // Global features.
    vec := vec + [Num(p.drawPileSize) / 50.0, Num(p.discardPileSize) / 50.0, Num(p.exhaustPileSize) / 50.0];
    vec := vec + [Num(p.floorNum) / 50.0, Num(p.gold) / 1000.0];
    vec := vec + [if p.hasCorruption.GetOr(false) then 1.0 else 0.0];
    vec := vec + [if p.hasDarkEmbrace.GetOr(false) then 1.0 else 0.0];
    vec := vec + [if p.hasDeadBranch.GetOr(false) then 1.0 else 0.0];
  }

  /** The monster section of `get_observation`: five slots of five
      features, padded with zeros past the end of the monster list. */
  method AppendMonsters(p: Props, vec0: seq<real>) returns (vec: seq<real>)
    requires LaidOut(p, vec0, MonsterBase)
    ensures LaidOut(p, vec, HandBase) && vec[..MonsterBase] == vec0
  {
    vec := vec0;
    var monsters := p.monsters.GetOr([]);
    for i := 0 to MonsterSlots
      invariant LaidOut(p, vec, MonsterBase + MonsterWidth * i) && vec[..MonsterBase] == vec0
    {
      var slot;
      if i < |monsters| {
        var m := monsters[i];
        var mMax := m.maxHp.GetOr(1);
        if mMax <= 0 { mMax := 1; }
        slot := [Num(m.curHp) / (mMax as real)];
        slot := slot + [Num(m.intentId), Num(m.intentDmg), Num(m.intentHits)];
        slot := slot + [if m.isAlive.GetOr(false) then 1.0 else 0.0];
      } else {
        slot := [0.0, 0.0, 0.0, 0.0, 0.0];
      }
      forall j | 0 <= j < MonsterWidth
        ensures slot[j] == Feature(p, MonsterBase + MonsterWidth * i + j)
      {
        MonsterIndex(p, i, j);
      }
      vec := vec + slot;
    }
  }

  /** The hand section of `get_observation`: ten slots of three features,
      padded with zeros past the end of the hand. */
  method AppendHand(p: Props, vec0: seq<real>) returns (vec: seq<real>)
    requires LaidOut(p, vec0, HandBase)
    ensures LaidOut(p, vec, GlobalBase) && vec[..HandBase] == vec0
  {
    vec := vec0;
    var hand := p.hand.GetOr([]);
    for i := 0 to HandSlots
      invariant LaidOut(p, vec, HandBase + CardWidth * i) && vec[..HandBase] == vec0
    {
      var slot;
      if i < |hand| {
        var c := hand[i];
        slot := [Num(c.id), Num(c.cost), Num(c.upgraded)];
      } else {
        slot := [0.0, 0.0, 0.0];
      }
      forall j | 0 <= j < CardWidth
        ensures slot[j] == Feature(p, HandBase + CardWidth * i + j)
      {
        HandIndex(p, i, j);
      }
      vec := vec + slot;
    }
  }

  /** A bundle that cannot be fetched encodes as the all-zero vector. */
  lemma RaisedIsAllZero()
    ensures forall k :: 0 <= k < ObservationSize ==> Encode(Raised)[k] == 0.0
  {
  }

  /** Index 0 is cur_hp over a denominator that is at least 1, so it never
      divides by zero; a missing cur_hp gives 0. */
  lemma PlayerHpRatio(p: Props)
    ensures var v := Encode(Fetched(p));
      && Denominator(p.maxHp) >= 1
      && v[0] * (Denominator(p.maxHp) as real) == Num(p.curHp)
      && (p.curHp.None? ==> v[0] == 0.0)
  {
  }

  /** Indices 1..8 hold block, energy and the six buffs, in that order. */
  lemma PlayerLayout(p: Props)
    ensures var v := Encode(Fetched(p));
      && v[0] == HpRatio(p.curHp, p.maxHp)
      && v[1] == Num(p.block) && v[2] == Num(p.energy)
      && v[3] == Num(p.strength) && v[4] == Num(p.dexterity)
      && v[5] == Num(p.vulnerable) && v[6] == Num(p.weak)
      && v[7] == Num(p.frail) && v[8] == Num(p.artifact)
  {
  }

  /** Monster slot i occupies indices 9 + 5i .. 9 + 5i + 4; slots past the
      end of the monster list are exactly zero. */
  lemma MonsterSlotLayout(p: Props, i: int, j: int)
    requires 0 <= i < MonsterSlots && 0 <= j < MonsterWidth
    ensures var v := Encode(Fetched(p)); var ms := MonsterList(p);
      && (i < |ms| ==> v[MonsterBase + MonsterWidth * i + j] == MonsterFeature(ms[i], j))
      && (i >= |ms| ==> v[MonsterBase + MonsterWidth * i + j] == 0.0)
  {
    MonsterIndex(p, i, j);
  }

  /** Hand slot i occupies indices 34 + 3i .. 34 + 3i + 2; slots past the
      end of the hand are exactly zero. */
  lemma HandSlotLayout(p: Props, i: int, j: int)
    requires 0 <= i < HandSlots && 0 <= j < CardWidth
    ensures var v := Encode(Fetched(p)); var cs := HandList(p);
      && (i < |cs| ==> v[HandBase + CardWidth * i + j] == CardFeature(cs[i], j))
      && (i >= |cs| ==> v[HandBase + CardWidth * i + j] == 0.0)
  {
    HandIndex(p, i, j);
  }

  /** A monster's HP ratio divides by a max_hp clamped to at least 1. */
  lemma MonsterHpRatio(m: Monster)
    ensures MonsterFeature(m, 0) * (Denominator(m.maxHp) as real) == Num(m.curHp)
    ensures m.curHp.None? ==> MonsterFeature(m, 0) == 0.0
  {
  }

  /** Monsters beyond the fifth do not reach the vector. */
  lemma ExtraMonstersIgnored(p: Props, extra: seq<Monster>)
    requires |MonsterList(p)| >= MonsterSlots
    ensures Encode(Fetched(p.(monsters := Some(MonsterList(p) + extra)))) == Encode(Fetched(p))
  {
    var q := p.(monsters := Some(MonsterList(p) + extra));
    forall k | 0 <= k < ObservationSize
      ensures Feature(q, k) == Feature(p, k)
    {
      if MonsterBase <= k < HandBase {
        var i := (k - MonsterBase) / MonsterWidth;
        assert MonsterList(q)[i] == MonsterList(p)[i];
      }
    }
  }

  /** Cards beyond the tenth do not reach the vector. */
  lemma ExtraCardsIgnored(p: Props, extra: seq<Card>)
    requires |HandList(p)| >= HandSlots
    ensures Encode(Fetched(p.(hand := Some(HandList(p) + extra)))) == Encode(Fetched(p))
  {
    var q := p.(hand := Some(HandList(p) + extra));
    forall k | 0 <= k < ObservationSize
      ensures Feature(q, k) == Feature(p, k)
    {
      if HandBase <= k < GlobalBase {
        var i := (k - HandBase) / CardWidth;
        assert HandList(q)[i] == HandList(p)[i];
      }
    }
  }

  /** The global block: pile sizes / 50, floor / 50, gold / 1000 and three
      flags that are exactly 1.0 or 0.0. */
  lemma GlobalLayout(p: Props)
    ensures var v := Encode(Fetched(p));
      && v[64] == Num(p.drawPileSize) / 50.0
      && v[65] == Num(p.discardPileSize) / 50.0
      && v[66] == Num(p.exhaustPileSize) / 50.0
      && v[67] == Num(p.floorNum) / 50.0
      && v[68] == Num(p.gold) / 1000.0
      && (v[69] == 1.0 <==> p.hasCorruption == Some(true))
      && (v[70] == 1.0 <==> p.hasDarkEmbrace == Some(true))
      && (v[71] == 1.0 <==> p.hasDeadBranch == Some(true))
      && (forall k :: 69 <= k < ObservationSize ==> v[k] == 0.0 || v[k] == 1.0)
  {
  }

  /** Every alive slot holds exactly 1.0 or 0.0, padded slots included. */
  lemma AliveFlagsBinary(f: Fetch, i: int)
    requires 0 <= i < MonsterSlots
    ensures var a := Encode(f)[MonsterBase + MonsterWidth * i + 4]; a == 0.0 || a == 1.0
  {
    if f.Fetched? {
      MonsterIndex(f.props, i, 4);
    }
  }

  /** Every missing scalar key encodes as 0. */
  lemma MissingScalarsAreZero(p: Props, m: Monster, c: Card)
    ensures var v := Encode(Fetched(p));
      && (p.block.None? ==> v[1] == 0.0)
      && (p.energy.None? ==> v[2] == 0.0)
      && (p.strength.None? ==> v[3] == 0.0)
      && (p.dexterity.None? ==> v[4] == 0.0)
      && (p.vulnerable.None? ==> v[5] == 0.0)
      && (p.weak.None? ==> v[6] == 0.0)
      && (p.frail.None? ==> v[7] == 0.0)
      && (p.artifact.None? ==> v[8] == 0.0)
      && (p.drawPileSize.None? ==> v[64] == 0.0)
      && (p.discardPileSize.None? ==> v[65] == 0.0)
      && (p.exhaustPileSize.None? ==> v[66] == 0.0)
      && (p.floorNum.None? ==> v[67] == 0.0)
      && (p.gold.None? ==> v[68] == 0.0)
    ensures m.intentId.None? ==> MonsterFeature(m, 1) == 0.0
    ensures m.intentDmg.None? ==> MonsterFeature(m, 2) == 0.0
    ensures m.intentHits.None? ==> MonsterFeature(m, 3) == 0.0
    ensures m.isAlive.None? ==> MonsterFeature(m, 4) == 0.0
    ensures c.id.None? ==> CardFeature(c, 0) == 0.0
    ensures c.cost.None? ==> CardFeature(c, 1) == 0.0
    ensures c.upgraded.None? ==> CardFeature(c, 2) == 0.0
  {
  }
}
