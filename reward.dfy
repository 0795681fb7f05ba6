/**
 * The shaped reward: seven independently triggered, additive components
 * computed from two consecutive observation vectors, with a breakdown
 * that lists the components that fired, in the order they are computed.
 * Arithmetic is on reals; the source's float32/float64 rounding is not
 * modelled.
 */
module Reward {
  import opened Wrappers
  import opened Observation

  datatype Component = HpLoss | StrengthGain | Kill | Damage | Gold | FloorClimb | DeckThin

  /** The key under which a component appears in the breakdown dictionary. */
  function Key(c: Component): string {
    match c
    case HpLoss => "hp_loss"
    case StrengthGain => "strength_gain"
    case Kill => "kill"
    case Damage => "damage"
    case Gold => "gold"
    case FloorClimb => "floor_climb"
    case DeckThin => "deck_thin"
  }

  /** The position of a component in the order of computation. */
  function Rank(c: Component): nat {
    match c
    case HpLoss => 0
    case StrengthGain => 1
    case Kill => 2
    case Damage => 3
    case Gold => 4
    case FloorClimb => 5
    case DeckThin => 6
  }

  /** One breakdown entry: a component and its signed magnitude. */
  datatype Entry = Entry(component: Component, value: real)

  const HpIndex := 0
  const StrengthIndex := 3
  const FloorIndex := 67
  const GoldIndex := 68
  /** Read as "deck size / 50" by the reward, but the encoder stores the
      corruption flag here. */
  const DeckIndex := 69

  /** Index of monster slot i's HP ratio. */
  function MonsterHpIndex(i: nat): nat { MonsterBase + MonsterWidth * i }

  /** Index of monster slot i's alive flag. */
  function MonsterAliveIndex(i: nat): nat { MonsterBase + MonsterWidth * i + 4 }

  /** Number of the first n monster slots whose alive flag exceeds 0.5. */
  function AliveCount(obs: seq<real>, n: nat): (r: nat)
    requires IsObservation(obs) && n <= MonsterSlots
    ensures r <= n
  {
    if n == 0 then 0
    else AliveCount(obs, n - 1) + (if obs[MonsterAliveIndex(n - 1)] > 0.5 then 1 else 0)
  }

  /** Sum of the HP ratios of the first n monster slots. */
  function HpSum(obs: seq<real>, n: nat): (r: real)
    requires IsObservation(obs) && n <= MonsterSlots
    ensures (forall i :: 0 <= i < n ==> 0.0 <= obs[MonsterHpIndex(i)] <= 1.0) ==> 0.0 <= r <= n as real
  {
    if n == 0 then 0.0 else HpSum(obs, n - 1) + obs[MonsterHpIndex(n - 1)]
  }

  /** Component c's contribution, present only when its trigger holds.
      hp_loss is strictly negative when present, every other component
      strictly positive. */
  function Term(c: Component, prev: seq<real>, curr: seq<real>): (r: Option<real>)
    requires IsObservation(prev) && IsObservation(curr)
    ensures r.Some? && c == HpLoss ==> r.value < 0.0
    ensures r.Some? && c != HpLoss ==> r.value > 0.0
  {
    match c
    case HpLoss =>
      var d := curr[HpIndex] - prev[HpIndex];
      if d < 0.0 then Some(d * 5.0) else None
    case StrengthGain =>
      if curr[StrengthIndex] > prev[StrengthIndex] then Some((curr[StrengthIndex] - prev[StrengthIndex]) * 0.2) else None
    case Kill =>
      var a, b := AliveCount(prev, MonsterSlots), AliveCount(curr, MonsterSlots);
      if b < a then Some((a - b) as real * 1.0) else None
    case Damage =>
      var drop := HpSum(prev, MonsterSlots) - HpSum(curr, MonsterSlots);
      if drop > 0.0 then Some(drop * 2.0) else None
    case Gold =>
      if curr[GoldIndex] > prev[GoldIndex] then Some((curr[GoldIndex] - prev[GoldIndex]) * 10.0) else None
    case FloorClimb =>
      if curr[FloorIndex] > prev[FloorIndex] then Some((curr[FloorIndex] - prev[FloorIndex]) * 50.0 * 1.0) else None
    case DeckThin =>
      if curr[DeckIndex] < prev[DeckIndex] then Some((prev[DeckIndex] - curr[DeckIndex]) * 25.0) else None
  }

  /** Component c's entry when it fires, nothing otherwise. */
  function EntryOf(c: Component, prev: seq<real>, curr: seq<real>): seq<Entry>
    requires IsObservation(prev) && IsObservation(curr)
  {
    match Term(c, prev, curr)
    case Some(v) => [Entry(c, v)]
    case None => []
  }

  /** The component computed just before c. */
  function Pred(c: Component): (p: Component)
    requires c != HpLoss
    ensures Rank(p) + 1 == Rank(c)
  {
    match c
    case StrengthGain => HpLoss
    case Kill => StrengthGain
    case Damage => Kill
    case Gold => Damage
    case FloorClimb => Gold
    case DeckThin => FloorClimb
  }

  /** The breakdown as it stands once component c has been computed:
      the entries of c and of every component before it that fired. */
  function Through(c: Component, prev: seq<real>, curr: seq<real>): seq<Entry>
    requires IsObservation(prev) && IsObservation(curr)
    decreases Rank(c)
  {
    if c == HpLoss then EntryOf(HpLoss, prev, curr)
    else Through(Pred(c), prev, curr) + EntryOf(c, prev, curr)
  }

  /** The breakdown dictionary, in insertion order: every component that
      fires, in the order the components are computed. */
  function Breakdown(prev: seq<real>, curr: seq<real>): seq<Entry>
    requires IsObservation(prev) && IsObservation(curr)
  {
    Through(DeckThin, prev, curr)
  }

  /** The sum of the breakdown's values. */
  function Total(es: seq<Entry>): real {
    if es == [] then 0.0 else es[0].value + Total(es[1..])
  }

  lemma TotalAppend(es: seq<Entry>, e: Entry)
    ensures Total(es + [e]) == Total(es) + e.value
  {
    if es != [] {
      assert (es + [e])[1..] == es[1..] + [e];
      TotalAppend(es[1..], e);
    }
  }

  /** `calculate_rational_reward`: accumulates the reward and the breakdown
      step by step, section by section. The engine handle of the source is
      never read, so it is not a parameter. */
  method CalculateRationalReward(prev: seq<real>, curr: seq<real>) returns (reward: real, info: seq<Entry>)
    requires IsObservation(prev) && IsObservation(curr)
    ensures info == Breakdown(prev, curr)
    ensures reward == Total(info)
  {
    reward, info := 0.0, [];

    // HP management.
    var hpDiff := curr[HpIndex] - prev[HpIndex];
    if hpDiff < 0.0 {
      var rHp := hpDiff * 5.0;
      reward := reward + rHp;
      info := info + [Entry(HpLoss, rHp)];
    }
    assert info == Through(HpLoss, prev, curr);

    // Combat efficiency: the expected incoming damage is computed, then
    // never used.
    var incomingDmg := 0.0;
    for i := 0 to MonsterSlots {
      var alive := prev[MonsterAliveIndex(i)];
      if alive > 0.5 {
        incomingDmg := incomingDmg + prev[MonsterHpIndex(i) + 2] * prev[MonsterHpIndex(i) + 3];
      }
    }

    reward, info := ScalingAndOffense(prev, curr, reward, info);
    reward, info := LongTermGrowth(prev, curr, reward, info);
    reward, info := DeckThinning(prev, curr, reward, info);
  }

  /** The scaling and offense section: strength gain, kills and damage. */
  method ScalingAndOffense(prev: seq<real>, curr: seq<real>, reward0: real, info0: seq<Entry>)
    returns (reward: real, info: seq<Entry>)
    requires IsObservation(prev) && IsObservation(curr)
    requires info0 == Through(HpLoss, prev, curr) && reward0 == Total(info0)
    ensures info == Through(Damage, prev, curr) && reward == Total(info)
  {
    reward, info := reward0, info0;

    Extend(StrengthGain, prev, curr, info, reward);
    if curr[StrengthIndex] > prev[StrengthIndex] {
      var rStr := (curr[StrengthIndex] - prev[StrengthIndex]) * 0.2;
      reward := reward + rStr;
      info := info + [Entry(StrengthGain, rStr)];
    }
    assert info == Through(StrengthGain, prev, curr) && reward == Total(info);

    var alivePrev := AliveCount(prev, MonsterSlots);
    var aliveCurr := AliveCount(curr, MonsterSlots);
    Extend(Kill, prev, curr, info, reward);
    if aliveCurr < alivePrev {
      var rKill := (alivePrev - aliveCurr) as real * 1.0;
      reward := reward + rKill;
      info := info + [Entry(Kill, rKill)];
    }
    assert info == Through(Kill, prev, curr) && reward == Total(info);

    var hpDrop := HpSum(prev, MonsterSlots) - HpSum(curr, MonsterSlots);
    Extend(Damage, prev, curr, info, reward);
    if hpDrop > 0.0 {
      var rDmg := hpDrop * 2.0;
      reward := reward + rDmg;
      info := info + [Entry(Damage, rDmg)];
    }
  }

  /** The long-term growth section, first part: gold and floor climb. */
  method LongTermGrowth(prev: seq<real>, curr: seq<real>, reward0: real, info0: seq<Entry>)
    returns (reward: real, info: seq<Entry>)
    requires IsObservation(prev) && IsObservation(curr)
    requires info0 == Through(Damage, prev, curr) && reward0 == Total(info0)
    ensures info == Through(FloorClimb, prev, curr) && reward == Total(info)
  {
    reward, info := reward0, info0;

    Extend(Gold, prev, curr, info, reward);
    if curr[GoldIndex] > prev[GoldIndex] {
      var rGold := (curr[GoldIndex] - prev[GoldIndex]) * 10.0;
      reward := reward + rGold;
      info := info + [Entry(Gold, rGold)];
    }
    assert info == Through(Gold, prev, curr) && reward == Total(info);

    Extend(FloorClimb, prev, curr, info, reward);
    if curr[FloorIndex] > prev[FloorIndex] {
      var rFloor := (curr[FloorIndex] - prev[FloorIndex]) * 50.0 * 1.0;
      reward := reward + rFloor;
      info := info + [Entry(FloorClimb, rFloor)];
    }
  }

  /** The long-term growth section, last part: deck thinning, read from
      index 69. */
  method DeckThinning(prev: seq<real>, curr: seq<real>, reward0: real, info0: seq<Entry>)
    returns (reward: real, info: seq<Entry>)
    requires IsObservation(prev) && IsObservation(curr)
    requires info0 == Through(FloorClimb, prev, curr) && reward0 == Total(info0)
    ensures info == Breakdown(prev, curr) && reward == Total(info)
  {
    reward, info := reward0, info0;

    Extend(DeckThin, prev, curr, info, reward);
    if curr[DeckIndex] < prev[DeckIndex] {
      var rThin := (prev[DeckIndex] - curr[DeckIndex]) * 25.0;
      reward := reward + rThin;
      info := info + [Entry(DeckThin, rThin)];
    }
  }

  /** One stage of the accumulation: from the breakdown and total as they
      stand before component c, computing c appends its entry when it fires
      and adds its value to the total. */
  lemma Extend(c: Component, prev: seq<real>, curr: seq<real>, info: seq<Entry>, reward: real)
    requires IsObservation(prev) && IsObservation(curr) && c != HpLoss
    requires info == Through(Pred(c), prev, curr) && reward == Total(info)
    ensures Term(c, prev, curr).None? ==> Through(c, prev, curr) == info
    ensures Term(c, prev, curr).Some? ==>
      var v := Term(c, prev, curr).value;
      Through(c, prev, curr) == info + [Entry(c, v)] && Total(info + [Entry(c, v)]) == reward + v
  {
    if Term(c, prev, curr).Some? {
      TotalAppend(info, Entry(c, Term(c, prev, curr).value));
    }
  }

  /** The entries of the breakdown so far are exactly the components up to
      c whose trigger held, each with the value of its term. */
  lemma {:induction false} ThroughEntries(c: Component, prev: seq<real>, curr: seq<real>, e: Entry)
    requires IsObservation(prev) && IsObservation(curr)
    ensures e in Through(c, prev, curr)
      <==> Rank(e.component) <= Rank(c) && Term(e.component, prev, curr) == Some(e.value)
    decreases Rank(c)
  {
    if c != HpLoss {
      ThroughEntries(Pred(c), prev, curr, e);
    }
  }

  /** An entry is in the breakdown iff its component fired with that value. */
  lemma BreakdownEntries(prev: seq<real>, curr: seq<real>, e: Entry)
    requires IsObservation(prev) && IsObservation(curr)
    ensures e in Breakdown(prev, curr) <==> Term(e.component, prev, curr) == Some(e.value)
  {
    ThroughEntries(DeckThin, prev, curr, e);
  }

  /** Entries in strictly increasing order of computation. */
  ghost predicate Ordered(es: seq<Entry>) {
    forall i, j :: 0 <= i < j < |es| ==> Rank(es[i].component) < Rank(es[j].component)
  }

  lemma AppendOrdered(es: seq<Entry>, e: Entry)
    requires Ordered(es)
    requires forall x :: x in es ==> Rank(x.component) < Rank(e.component)
    ensures Ordered(es + [e])
  {
    var s := es + [e];
    forall i, j | 0 <= i < j < |s|
      ensures Rank(s[i].component) < Rank(s[j].component)
    {
      if j == |es| {
        assert s[i] in es;
      }
    }
  }

  /** Every component appears at most once, in the order of computation. */
  lemma {:induction false} ThroughOrdered(c: Component, prev: seq<real>, curr: seq<real>)
    requires IsObservation(prev) && IsObservation(curr)
    ensures Ordered(Through(c, prev, curr))
    ensures forall e :: e in Through(c, prev, curr) ==> Rank(e.component) <= Rank(c)
    decreases Rank(c)
  {
    if c != HpLoss {
      var p := Pred(c);
      ThroughOrdered(p, prev, curr);
      if EntryOf(c, prev, curr) != [] {
        AppendOrdered(Through(p, prev, curr), EntryOf(c, prev, curr)[0]);
      }
    }
  }

  /** The breakdown has distinct keys, in insertion order. */
  lemma BreakdownKeysDistinct(prev: seq<real>, curr: seq<real>)
    requires IsObservation(prev) && IsObservation(curr)
    ensures var es := Breakdown(prev, curr);
      forall i, j :: 0 <= i < j < |es| ==> Key(es[i].component) != Key(es[j].component)
  {
    var es := Through(DeckThin, prev, curr);
    ThroughOrdered(DeckThin, prev, curr);
    forall i, j | 0 <= i < j < |es|
      ensures Key(es[i].component) != Key(es[j].component)
    {
      KeysDiffer(es[i].component, es[j].component);
    }
  }

  /** Different components are logged under different keys. */
  lemma KeysDiffer(a: Component, b: Component)
    requires a != b
    ensures Key(a) != Key(b)
  {
    assert Key(a)[0] != Key(b)[0] || Key(a)[1] != Key(b)[1];
  }

  /** The monster slots of two vectors that agree on every alive flag and
      HP ratio give the same alive count and the same HP sum. */
  lemma {:induction false} SlotsAgree(prev: seq<real>, curr: seq<real>, n: nat)
    requires IsObservation(prev) && IsObservation(curr) && n <= MonsterSlots
    requires forall i :: 0 <= i < n ==> prev[MonsterAliveIndex(i)] == curr[MonsterAliveIndex(i)]
    requires forall i :: 0 <= i < n ==> prev[MonsterHpIndex(i)] == curr[MonsterHpIndex(i)]
    ensures AliveCount(prev, n) == AliveCount(curr, n)
    ensures HpSum(prev, n) == HpSum(curr, n)
  {
    if n > 0 {
      SlotsAgree(prev, curr, n - 1);
    }
  }

  /** Every trigger is a strict inequality: two vectors that agree at every
      index the reward reads give reward 0 and an empty breakdown. */
  lemma NoChangeNoReward(prev: seq<real>, curr: seq<real>)
    requires IsObservation(prev) && IsObservation(curr)
    requires prev[HpIndex] == curr[HpIndex] && prev[StrengthIndex] == curr[StrengthIndex]
    requires prev[FloorIndex] == curr[FloorIndex] && prev[GoldIndex] == curr[GoldIndex]
    requires prev[DeckIndex] == curr[DeckIndex]
    requires forall i :: 0 <= i < MonsterSlots ==> prev[MonsterAliveIndex(i)] == curr[MonsterAliveIndex(i)]
    requires forall i :: 0 <= i < MonsterSlots ==> prev[MonsterHpIndex(i)] == curr[MonsterHpIndex(i)]
    ensures Breakdown(prev, curr) == []
    ensures Total(Breakdown(prev, curr)) == 0.0
  {
    SlotsAgree(prev, curr, MonsterSlots);
  }

  /** hp_loss is present iff the HP ratio dropped; it is then 5 times the
      (negative) change. */
  lemma HpLossPresentIff(prev: seq<real>, curr: seq<real>)
    requires IsObservation(prev) && IsObservation(curr)
    ensures (exists e :: e in Breakdown(prev, curr) && e.component == HpLoss) <==> curr[HpIndex] < prev[HpIndex]
    ensures forall e :: e in Breakdown(prev, curr) && e.component == HpLoss ==>
      e.value == (curr[HpIndex] - prev[HpIndex]) * 5.0 && e.value < 0.0
  {
    var es := Breakdown(prev, curr);
    forall e | e in es || e == Entry(HpLoss, (curr[HpIndex] - prev[HpIndex]) * 5.0)
      ensures e in es <==> Term(e.component, prev, curr) == Some(e.value)
    {
      BreakdownEntries(prev, curr, e);
    }
  }


  /** A sum of non-negative values is non-negative. */
  lemma {:induction false} TotalNonNegative(es: seq<Entry>)
    requires forall e :: e in es ==> e.value >= 0.0
    ensures Total(es) >= 0.0
  {
    if es != [] {
      assert es[0] in es;
      assert forall e :: e in es[1..] ==> e in es;
      TotalNonNegative(es[1..]);
    }
  }

  /** Every component but hp_loss is strictly positive when present, so a
      step in which the HP ratio did not drop never has a negative reward. */
  lemma RewardNonNegativeUnlessHpDrops(prev: seq<real>, curr: seq<real>)
    requires IsObservation(prev) && IsObservation(curr)
    requires curr[HpIndex] >= prev[HpIndex]
    ensures forall e :: e in Breakdown(prev, curr) ==> e.component != HpLoss && e.value > 0.0
    ensures Total(Breakdown(prev, curr)) >= 0.0
  {
    forall e | e in Breakdown(prev, curr)
      ensures e.component != HpLoss && e.value > 0.0
    {
      BreakdownEntries(prev, curr, e);
    }
    TotalNonNegative(Breakdown(prev, curr));
  }

  /** The strength, damage, gold, floor and deck terms fire only on a
      strict change in the rewarded direction, with these magnitudes. */
  lemma GrowthTerms(prev: seq<real>, curr: seq<real>)
    requires IsObservation(prev) && IsObservation(curr)
    ensures Term(StrengthGain, prev, curr).Some? <==> curr[StrengthIndex] > prev[StrengthIndex]
    ensures Term(StrengthGain, prev, curr).Some? ==>
      Term(StrengthGain, prev, curr).value == 0.2 * (curr[StrengthIndex] - prev[StrengthIndex])
    ensures Term(Damage, prev, curr).Some? <==> HpSum(curr, MonsterSlots) < HpSum(prev, MonsterSlots)
    ensures Term(Damage, prev, curr).Some? ==>
      Term(Damage, prev, curr).value == 2.0 * (HpSum(prev, MonsterSlots) - HpSum(curr, MonsterSlots))
    ensures Term(Gold, prev, curr).Some? <==> curr[GoldIndex] > prev[GoldIndex]
    ensures Term(Gold, prev, curr).Some? ==> Term(Gold, prev, curr).value == 10.0 * (curr[GoldIndex] - prev[GoldIndex])
    ensures Term(FloorClimb, prev, curr).Some? <==> curr[FloorIndex] > prev[FloorIndex]
    ensures Term(FloorClimb, prev, curr).Some? ==>
      Term(FloorClimb, prev, curr).value == 50.0 * (curr[FloorIndex] - prev[FloorIndex])
    ensures Term(DeckThin, prev, curr).Some? <==> curr[DeckIndex] < prev[DeckIndex]
    ensures Term(DeckThin, prev, curr).Some? ==> Term(DeckThin, prev, curr).value == 25.0 * (prev[DeckIndex] - curr[DeckIndex])
  {
  }

  /** The kill term is the drop in the number of alive slots, between 1 and 5. */
  lemma KillTermBounds(prev: seq<real>, curr: seq<real>)
    requires IsObservation(prev) && IsObservation(curr)
    ensures Term(Kill, prev, curr).Some? <==> AliveCount(curr, MonsterSlots) < AliveCount(prev, MonsterSlots)
    ensures Term(Kill, prev, curr).Some? ==>
      var k := Term(Kill, prev, curr).value;
      && k == (AliveCount(prev, MonsterSlots) - AliveCount(curr, MonsterSlots)) as real
      && 1.0 <= k <= 5.0
  {
  }

  /** Index 69 is read as a deck-size feature, but the encoder stores the
      corruption flag there: losing that flag, with nothing else changed,
      pays the deck-thinning term of +25 and nothing else. */
  lemma DeckThinReadsCorruptionFlag(p: Props)
    requires p.hasCorruption == Some(true)
    ensures var prev, curr := Encode(Fetched(p)), Encode(Fetched(p.(hasCorruption := None)));
      Breakdown(prev, curr) == [Entry(DeckThin, 25.0)] && Total(Breakdown(prev, curr)) == 25.0
  {
    var prev, curr := Encode(Fetched(p)), Encode(Fetched(p.(hasCorruption := None)));
    OnlyCorruptionDiffers(p);
    SlotsAgree(prev, curr, MonsterSlots);
    assert Through(FloorClimb, prev, curr) == [];
  }

  /** Dropping the corruption flag changes index 69 alone, from 1 to 0. */
  lemma OnlyCorruptionDiffers(p: Props)
    requires p.hasCorruption == Some(true)
    ensures var prev, curr := Encode(Fetched(p)), Encode(Fetched(p.(hasCorruption := None)));
      && (forall k :: 0 <= k < ObservationSize && k != DeckIndex ==> prev[k] == curr[k])
      && prev[DeckIndex] == 1.0 && curr[DeckIndex] == 0.0
  {
    var q := p.(hasCorruption := None);
    forall k | 0 <= k < ObservationSize && k != DeckIndex
      ensures Feature(p, k) == Feature(q, k)
    {
    }
  }

}
