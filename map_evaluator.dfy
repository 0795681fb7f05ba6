/**
 * The map path optimizer: room-type weights that depend on the player's HP
 * ratio and gold, and a memoized backward dynamic program over the layered
 * map (floors 0..14, each node pointing at x-coordinates on the next floor)
 * that picks the best next node.
 *
 * The memo of the source is an instance field, but a fresh evaluator is
 * built for every map decision; here it is a map threaded through the
 * methods of one evaluation.
 */
module MapEvaluator {
  import opened Wrappers

  const RoomShop := 0
  const RoomRest := 1
  const RoomEvent := 2
  const RoomElite := 3
  const RoomMonster := 4
  const RoomTreasure := 5
  const RoomBoss := 6

  /** The last normal floor; the boss lies beyond it. */
  const MaxFloor := 14

  /** The "no value yet" score of the source's running maxima. */
  const Sentinel: real := -9999.0

  /** A map node: its position, its room type and the x-coordinates of its
      children on the next floor. */
  datatype Node = Node(x: int, y: int, roomType: int, children: seq<int>)

  /** The player's standing that the weights depend on. */
  datatype Stats = Stats(hpRatio: real, gold: int)

  /** What `evaluate_path` yields: no candidate (the source returns a bare
      0), or the x and path score of the chosen node. */
  datatype Choice = NoCandidate | Best(x: int, score: real)

  /** Memo of future scores, keyed by (x, y). */
  type Memo = map<(int, int), real>

  /** The engine's map: floors 0..14 at least, each node on the floor its
      y names. */
  predicate WellFormed(m: seq<seq<Node>>) {
    && |m| > MaxFloor
    && forall y, n :: 0 <= y < |m| && n in m[y] ==> n.y == y
  }

  /** cur_hp / max_hp of the engine (true division; max_hp = 0 raises). */
  function HpRatio(curHp: int, maxHp: int): (r: real)
    requires maxHp != 0
    ensures r * (maxHp as real) == curHp as real
  {
    curHp as real / maxHp as real
  }

  /** The standing the weights are computed from: the engine's
      cur_hp / max_hp and its gold. */
  function StatsOf(curHp: int, maxHp: int, gold: int): (st: Stats)
    requires maxHp != 0
    ensures st.hpRatio * (maxHp as real) == curHp as real
    ensures st.gold == gold
  {
    Stats(HpRatio(curHp, maxHp), gold)
  }

  datatype Weights = Weights(elite: real, rest: real, shop: real, monster: real, event: real)

  /** The room weights: base values, overridden in "panic" (HP ratio below
      0.3) and "cautious" (below 0.5) mode; more than 250 gold adds 3 to the
      shop weight after that. */
  function RoomWeights(st: Stats): (w: Weights)
    ensures st.hpRatio < 0.3 ==> w.elite == -5.0 && w.rest == 8.0 && w.monster == -2.0
    ensures 0.3 <= st.hpRatio < 0.5 ==> w.elite == 0.0 && w.rest == 4.0 && w.monster == -0.5
    ensures st.hpRatio >= 0.5 ==> w.elite == 5.0 && w.rest == 2.0 && w.monster == -0.5
    ensures w.shop == (if st.hpRatio < 0.3 then 3.0 else 1.0) + (if st.gold > 250 then 3.0 else 0.0)
    ensures w.event == 0.5
  {
    var base := Weights(5.0, 2.0, 1.0, -0.5, 0.5);
    var byHp :=
      if st.hpRatio < 0.3 then base.(elite := -5.0, rest := 8.0, monster := -2.0, shop := 3.0)
      else if st.hpRatio < 0.5 then base.(elite := 0.0, rest := 4.0)
      else base;
    if st.gold > 250 then byHp.(shop := byHp.shop + 3.0) else byHp
  }

  /** `_score_node`: the weight of the node's room type; treasure is 2 and
      every other room type 0. */
  function ScoreNode(node: Node, st: Stats): (s: real)
    ensures -5.0 <= s <= 8.0
  {
    var w := RoomWeights(st);
    var room := node.roomType;
    if room == RoomElite then w.elite
    else if room == RoomRest then w.rest
    else if room == RoomShop then w.shop
    else if room == RoomMonster then w.monster
    else if room == RoomEvent then w.event
    else if room == RoomTreasure then 2.0
    else 0.0
  }

  /** The first node of a floor at x, if any. */
  function FirstWithX(floor: seq<Node>, x: int): (r: Option<Node>)
    ensures r.Some? ==> r.value in floor && r.value.x == x
    ensures r.None? ==> forall n :: n in floor ==> n.x != x
  {
    if floor == [] then None
    else if floor[0].x == x then Some(floor[0])
    else FirstWithX(floor[1..], x)
  }

  /** The node found is the first at x: every node before it has another x. */
  lemma {:induction false} FirstWithXIsFirst(floor: seq<Node>, x: int)
    ensures FirstWithX(floor, x).Some? ==>
      exists i :: 0 <= i < |floor| && floor[i] == FirstWithX(floor, x).value && forall j :: 0 <= j < i ==> floor[j].x != x
  {
    if floor != [] && floor[0].x != x {
      FirstWithXIsFirst(floor[1..], x);
      if FirstWithX(floor, x).Some? {
        var i :| 0 <= i < |floor[1..]| && floor[1..][i] == FirstWithX(floor, x).value
                 && forall j :: 0 <= j < i ==> floor[1..][j].x != x;
        assert floor[i + 1] == FirstWithX(floor, x).value;
        forall j | 0 <= j < i + 1 ensures floor[j].x != x {
          if j > 0 { assert floor[j] == floor[1..][j - 1]; }
        }
      }
    }
  }

  /** The node search loop of the source (`for n in floor: if n['x'] == x: break`). */
  method FindNode(floor: seq<Node>, x: int) returns (r: Option<Node>)
    ensures r == FirstWithX(floor, x)
  {
    var i := 0;
    while i < |floor|
      invariant 0 <= i <= |floor|
      invariant FirstWithX(floor, x) == FirstWithX(floor[i..], x)
    {
      assert floor[i..][1..] == floor[i + 1..];
      if floor[i].x == x {
        return Some(floor[i]);
      }
      i := i + 1;
    }
    return None;
  }

  /** The value of moving from floor y to child nx: the child's score plus
      its own future, or nothing when no node of floor y + 1 sits at nx. */
  function ChildValue(m: seq<seq<Node>>, st: Stats, y: int, nx: int): Option<real>
    requires WellFormed(m) && 0 <= y < MaxFloor
    decreases MaxFloor - y, 0, 0
  {
    match FirstWithX(m[y + 1], nx)
    case None => None
    case Some(child) => Some(ScoreNode(child, st) + Future(m, st, y + 1, nx))
  }

  /** The running maximum `max_s` after scanning children xs from acc. */
  function BestOver(m: seq<seq<Node>>, st: Stats, y: int, xs: seq<int>, acc: real): real
    requires WellFormed(m) && 0 <= y < MaxFloor
    decreases MaxFloor - y, 1, |xs|
  {
    if xs == [] then acc
    else
      var acc' := match ChildValue(m, st, y, xs[0])
        case Some(s) => if s > acc then s else acc
        case None => acc;
      BestOver(m, st, y, xs[1..], acc')
  }

  /** `_get_max_future_score` without the memo: the best value reachable
      from the node at (x, y) through its children; 0 when there is no
      such node, at the last floor, without children, or when no child
      resolves. */
  function Future(m: seq<seq<Node>>, st: Stats, y: int, x: int): real
    requires WellFormed(m) && 0 <= y < |m|
    decreases MaxFloor - y, 2, 0
  {
    match FirstWithX(m[y], x)
    case None => 0.0
    case Some(node) =>
      if y >= MaxFloor || node.children == [] then 0.0
      else
        var best := BestOver(m, st, y, node.children, Sentinel);
        if best == Sentinel then 0.0 else best
  }

  /** Every memo entry holds the unmemoized future score of its key. */
  ghost predicate MemoSound(m: seq<seq<Node>>, st: Stats, memo: Memo)
    requires WellFormed(m)
  {
    forall key :: key in memo ==> 0 <= key.1 < |m| && memo[key] == Future(m, st, key.1, key.0)
  }

  /** `_get_max_future_score` with its memo: returns the plain recursive
      value, returns a stored value without recomputing, and only ever adds
      sound entries. */
  method MaxFutureScore(m: seq<seq<Node>>, st: Stats, y: int, x: int, memo: Memo) returns (v: real, memo': Memo)
    requires WellFormed(m) && 0 <= y < |m| && MemoSound(m, st, memo)
    ensures v == Future(m, st, y, x)
    ensures MemoSound(m, st, memo') && memo.Keys <= memo'.Keys
    ensures (x, y) in memo ==> memo' == memo && v == memo[(x, y)]
    decreases MaxFloor - y, 1
  {
    memo' := memo;
    if (x, y) in memo {
      return memo[(x, y)], memo;
    }
    var node := FindNode(m[y], x);
    if node.None? {
      return 0.0, memo;
    }
    if y >= MaxFloor {
      return 0.0, memo;
    }
    var children := node.value.children;
    if children == [] {
      return 0.0, memo;
    }
    var maxS;
    maxS, memo' := ScanChildren(m, st, y, children, memo);
    if maxS == Sentinel {
      maxS := 0.0;
    }
    MemoExtend(m, st, memo', x, y, maxS);
    memo' := memo'[(x, y) := maxS];
    v := maxS;
  }

  /** The loop of `_get_max_future_score` over the children: the running
      maximum `max_s`, from the sentinel, of each resolving child's score
      plus its future. */
  method ScanChildren(m: seq<seq<Node>>, st: Stats, y: int, children: seq<int>, memo: Memo) returns (maxS: real, memo': Memo)
    requires WellFormed(m) && 0 <= y < MaxFloor && MemoSound(m, st, memo)
    ensures maxS == BestOver(m, st, y, children, Sentinel)
    ensures MemoSound(m, st, memo') && memo.Keys <= memo'.Keys
    decreases MaxFloor - y, 0
  {
    memo' := memo;
    maxS := Sentinel;
    var nextFloor := m[y + 1];
    for i := 0 to |children|
      invariant MemoSound(m, st, memo') && memo.Keys <= memo'.Keys
      invariant BestOver(m, st, y, children, Sentinel) == BestOver(m, st, y, children[i..], maxS)
    {
      assert children[i..][1..] == children[i + 1..];
      var nx := children[i];
      ChildValueOf(m, st, y, nx);
      var child := FindNode(nextFloor, nx);
      if child.Some? {
        var f;
        f, memo' := MaxFutureScore(m, st, y + 1, nx, memo');
        var s := ScoreNode(child.value, st) + f;
        if s > maxS {
          maxS := s;
        }
      }
    }
    assert children[|children|..] == [];
  }

  /** Storing the future score of a key keeps the memo sound. */
  lemma MemoExtend(m: seq<seq<Node>>, st: Stats, memo: Memo, x: int, y: int, v: real)
    requires WellFormed(m) && 0 <= y < |m| && MemoSound(m, st, memo) && v == Future(m, st, y, x)
    ensures MemoSound(m, st, memo[(x, y) := v])
  {
  }

  /** `_get_path_score_dfs` without the memo: the node's score, plus its
      future unless it is on the last floor or has no children. */
  function PathScore(m: seq<seq<Node>>, st: Stats, node: Node): real
    requires WellFormed(m) && 0 <= node.y < |m|
  {
    ScoreNode(node, st)
    + (if node.y >= MaxFloor || node.children == [] then 0.0 else Future(m, st, node.y, node.x))
  }

  /** `_get_path_score_dfs` (its unused depth argument dropped). */
  method PathScoreDfs(m: seq<seq<Node>>, st: Stats, node: Node, memo: Memo) returns (score: real, memo': Memo)
    requires WellFormed(m) && 0 <= node.y < |m| && MemoSound(m, st, memo)
    ensures score == PathScore(m, st, node)
    ensures MemoSound(m, st, memo') && memo.Keys <= memo'.Keys
  {
    score := ScoreNode(node, st);
    memo' := memo;
    if node.y >= MaxFloor {
      return;
    }
    if node.children == [] {
      return;
    }
    var f;
    f, memo' := MaxFutureScore(m, st, node.y, node.x, memo);
    score := score + f;
  }

  /** Every node of a floor at x, in floor order. */
  function AllWithX(floor: seq<Node>, x: int): (r: seq<Node>)
    ensures forall n :: n in r ==> n in floor && n.x == x
    ensures forall n :: n in floor && n.x == x ==> n in r
  {
    if floor == [] then []
    else AllWithX(floor[..|floor| - 1], x) + (if floor[|floor| - 1].x == x then [floor[|floor| - 1]] else [])
  }

  /** For each x of xs in turn, every node of the floor at that x. */
  function ChildNodes(floor: seq<Node>, xs: seq<int>): (r: seq<Node>)
    ensures forall n :: n in r ==> n in floor && n.x in xs
    ensures forall n :: n in floor && n.x in xs ==> n in r
  {
    if xs == [] then []
    else
      var r' := ChildNodes(floor, xs[..|xs| - 1]);
      assert forall n :: n in r' ==> n.x in xs by {
        forall n | n in r' ensures n.x in xs {
          assert n.x in xs[..|xs| - 1];
        }
      }
      r' + AllWithX(floor, xs[|xs| - 1])
  }

  /** The candidates for the next move: every floor-0 node before the first
      move; otherwise, below the last floor, the next-floor nodes at the
      children of the current node; otherwise none. */
  function Candidates(m: seq<seq<Node>>, curX: int, curY: int): (r: seq<Node>)
    requires WellFormed(m) && curY >= -1
    ensures forall n :: n in r ==> curY < MaxFloor && n in m[curY + 1] && n.y == curY + 1
    ensures curY == -1 ==> r == m[0]
    ensures 0 <= curY < MaxFloor && FirstWithX(m[curY], curX).Some? ==>
      forall n :: n in m[curY + 1] && n.x in FirstWithX(m[curY], curX).value.children ==> n in r
    ensures 0 <= curY < MaxFloor && FirstWithX(m[curY], curX).Some? ==>
      forall n :: n in r ==> n.x in FirstWithX(m[curY], curX).value.children
  {
    if curY == -1 then m[0]
    else if curY < MaxFloor then
      match FirstWithX(m[curY], curX)
      case None => []
      case Some(cur) => ChildNodes(m[curY + 1], cur.children)
    else []
  }

  /** Index k holds the first strictly greatest path score of nodes. */
  ghost predicate FirstBest(m: seq<seq<Node>>, st: Stats, nodes: seq<Node>, k: int)
    requires WellFormed(m) && forall n :: n in nodes ==> 0 <= n.y < |m|
  {
    && 0 <= k < |nodes|
    && (forall j :: 0 <= j < |nodes| ==> PathScore(m, st, nodes[j]) <= PathScore(m, st, nodes[k]))
    && (forall j :: 0 <= j < k ==> PathScore(m, st, nodes[j]) < PathScore(m, st, nodes[k]))
  }

  /** The inner matching loop of `evaluate_path`: appends every node of the
      floor at x. */
  method AppendNodesAtX(acc: seq<Node>, floor: seq<Node>, x: int) returns (r: seq<Node>)
    ensures r == acc + AllWithX(floor, x)
  {
    r := acc;
    for j := 0 to |floor|
      invariant r == acc + AllWithX(floor[..j], x)
    {
      assert floor[..j + 1][..j] == floor[..j];
      if floor[j].x == x {
        r := r + [floor[j]];
      }
    }
    assert floor[..|floor|] == floor;
  }

  /** The candidate-gathering loops of `evaluate_path`. */
  method GatherCandidates(m: seq<seq<Node>>, curX: int, curY: int) returns (nextNodes: seq<Node>)
    requires WellFormed(m) && curY >= -1
    ensures nextNodes == Candidates(m, curX, curY)
  {
    nextNodes := [];
    if curY == -1 {
      for i := 0 to |m[0]|
        invariant nextNodes == m[0][..i]
      {
        nextNodes := nextNodes + [m[0][i]];
      }
      assert m[0][..|m[0]|] == m[0];
    } else if curY < MaxFloor {
      var cur := FindNode(m[curY], curX);
      if cur.Some? {
        var childrenXs := cur.value.children;
        var nextFloor := m[curY + 1];
        for i := 0 to |childrenXs|
          invariant nextNodes == ChildNodes(nextFloor, childrenXs[..i])
        {
          assert childrenXs[..i + 1][..i] == childrenXs[..i];
          nextNodes := AppendNodesAtX(nextNodes, nextFloor, childrenXs[i]);
        }
        assert childrenXs[..|childrenXs|] == childrenXs;
      }
    }
  }

  /** `evaluate_path`: gathers the candidates, scores each with the memoized
      search and keeps the first strictly best one. */
  method EvaluatePath(m: seq<seq<Node>>, st: Stats, curX: int, curY: int) returns (c: Choice)
    requires WellFormed(m) && curY >= -1
    ensures var cands := Candidates(m, curX, curY);
      && (c.NoCandidate? <==> cands == [])
      && (c.Best? ==> exists k :: FirstBest(m, st, cands, k)
                                && c.x == cands[k].x && c.score == PathScore(m, st, cands[k]))
  {
    var nextNodes := GatherCandidates(m, curX, curY);

    if nextNodes == [] {
      return NoCandidate;
    }

    var x, score := ScoreCandidates(m, st, nextNodes);
    c := Best(x, score);
  }

  /** The scoring loop of `evaluate_path`: the best score starts at the
      sentinel and only a strictly greater score replaces the best node, so
      the first of the best-scoring candidates is kept. */
  method ScoreCandidates(m: seq<seq<Node>>, st: Stats, nextNodes: seq<Node>) returns (x: int, bestScore: real)
    requires WellFormed(m) && nextNodes != [] && forall n :: n in nextNodes ==> 0 <= n.y < |m|
    ensures exists k :: FirstBest(m, st, nextNodes, k)
                     && x == nextNodes[k].x && bestScore == PathScore(m, st, nextNodes[k])
  {
    bestScore := Sentinel;
    var bestNode := nextNodes[0];
    ghost var bestK := 0;
    ghost var scores: seq<real> := [];
    var memo: Memo := map[];
    for i := 0 to |nextNodes|
      invariant MemoSound(m, st, memo)
      invariant |scores| == i && forall j :: 0 <= j < i ==> scores[j] == PathScore(m, st, nextNodes[j])
      invariant 0 <= bestK < |nextNodes| && bestNode == nextNodes[bestK]
      invariant i == 0 ==> bestScore == Sentinel && bestK == 0
      invariant i > 0 ==> bestK < i && bestScore == scores[bestK]
      invariant forall j :: 0 <= j < i ==> scores[j] <= bestScore
      invariant forall j :: 0 <= j < bestK ==> scores[j] < bestScore
    {
      var score;
      score, memo := PathScoreDfs(m, st, nextNodes[i], memo);
      PathScoreBounds(m, st, nextNodes[i]);
      scores := scores + [score];
      if score > bestScore {
        bestScore := score;
        bestNode := nextNodes[i];
        bestK := i;
      }
    }
    x := bestNode.x;
    assert FirstBest(m, st, nextNodes, bestK);
  }

  /** The lowest and highest future score reachable from floor y: at most
      14 - y more moves, each worth between -5 and 8. */
  function Low(y: int): real { if y >= MaxFloor then 0.0 else -5.0 * (MaxFloor - y) as real }
  function High(y: int): real { if y >= MaxFloor then 0.0 else 8.0 * (MaxFloor - y) as real }

  lemma {:induction false} ChildValueBounds(m: seq<seq<Node>>, st: Stats, y: int, nx: int)
    requires WellFormed(m) && 0 <= y < MaxFloor
    ensures ChildValue(m, st, y, nx).Some? ==> Low(y) <= ChildValue(m, st, y, nx).value <= High(y)
    decreases MaxFloor - y, 0, 0
  {
    var child := FirstWithX(m[y + 1], nx);
    if child.Some? {
      FutureBounds(m, st, y + 1, nx);
    }
  }

  lemma {:induction false} BestOverBounds(m: seq<seq<Node>>, st: Stats, y: int, xs: seq<int>, acc: real)
    requires WellFormed(m) && 0 <= y < MaxFloor
    ensures var b := BestOver(m, st, y, xs, acc); b == acc || Low(y) <= b <= High(y)
    ensures BestOver(m, st, y, xs, acc) >= acc
    decreases MaxFloor - y, 1, |xs|
  {
    if xs != [] {
      ChildValueBounds(m, st, y, xs[0]);
      var acc' := match ChildValue(m, st, y, xs[0])
        case Some(s) => if s > acc then s else acc
        case None => acc;
      BestOverBounds(m, st, y, xs[1..], acc');
    }
  }

  /** The future score from floor y lies between -5 and 8 per remaining
      move, so the sentinel -9999 is never a real value. */
  lemma {:induction false} FutureBounds(m: seq<seq<Node>>, st: Stats, y: int, x: int)
    requires WellFormed(m) && 0 <= y < |m|
    ensures Low(y) <= Future(m, st, y, x) <= High(y)
    decreases MaxFloor - y, 2, 0
  {
    var node := FirstWithX(m[y], x);
    if node.Some? && y < MaxFloor && node.value.children != [] {
      BestOverBounds(m, st, y, node.value.children, Sentinel);
    }
  }

  /** A node's path score is at least -75, far above the sentinel. */
  lemma PathScoreBounds(m: seq<seq<Node>>, st: Stats, node: Node)
    requires WellFormed(m) && 0 <= node.y < |m|
    ensures -75.0 <= PathScore(m, st, node) <= 120.0
  {
    if !(node.y >= MaxFloor || node.children == []) {
      FutureBounds(m, st, node.y, node.x);
    }
  }

  /** The scan over children keeps the largest child value above acc: it
      is at least every child value, it is acc or one of them, and it is acc
      when no child resolves. */
  lemma {:induction false} BestOverIsMax(m: seq<seq<Node>>, st: Stats, y: int, xs: seq<int>, acc: real)
    requires WellFormed(m) && 0 <= y < MaxFloor
    ensures var b := BestOver(m, st, y, xs, acc);
      && b >= acc
      && (forall i :: 0 <= i < |xs| && ChildValue(m, st, y, xs[i]).Some? ==> b >= ChildValue(m, st, y, xs[i]).value)
      && (b == acc || exists i :: 0 <= i < |xs| && ChildValue(m, st, y, xs[i]) == Some(b))
      && ((forall i :: 0 <= i < |xs| ==> ChildValue(m, st, y, xs[i]).None?) ==> b == acc)
    decreases |xs|
  {
    if xs != [] {
      var acc' := match ChildValue(m, st, y, xs[0])
        case Some(s) => if s > acc then s else acc
        case None => acc;
      BestOverIsMax(m, st, y, xs[1..], acc');
      assert forall i :: 1 <= i < |xs| ==> xs[i] == xs[1..][i - 1];
    }
  }

  /** `_get_max_future_score` is 0 when the node is missing, on the last
      floor, childless, or when none of its children resolves. */
  lemma FutureZeroCases(m: seq<seq<Node>>, st: Stats, y: int, x: int)
    requires WellFormed(m) && 0 <= y < |m|
    requires || FirstWithX(m[y], x).None?
             || y >= MaxFloor
             || FirstWithX(m[y], x).value.children == []
             || (y < MaxFloor && forall nx :: nx in FirstWithX(m[y], x).value.children ==> FirstWithX(m[y + 1], nx).None?)
    ensures Future(m, st, y, x) == 0.0
  {
    var node := FirstWithX(m[y], x);
    if node.Some? && y < MaxFloor && node.value.children != [] {
      var xs := node.value.children;
      assert forall i :: 0 <= i < |xs| ==> xs[i] in xs;
      BestOverIsMax(m, st, y, xs, Sentinel);
    }
  }

  /** When some child of the node resolves, the sentinel does not survive:
      the future value is the running maximum over the children, and one
      child attains it. */
  lemma FutureIsBestOver(m: seq<seq<Node>>, st: Stats, y: int, x: int)
    requires WellFormed(m) && 0 <= y < MaxFloor && FirstWithX(m[y], x).Some?
    requires exists nx :: nx in FirstWithX(m[y], x).value.children && FirstWithX(m[y + 1], nx).Some?
    ensures var xs := FirstWithX(m[y], x).value.children;
      && Future(m, st, y, x) == BestOver(m, st, y, xs, Sentinel)
      && exists i :: 0 <= i < |xs| && ChildValue(m, st, y, xs[i]) == Some(Future(m, st, y, x))
  {
    var xs := FirstWithX(m[y], x).value.children;
    var nx0 :| nx0 in xs && FirstWithX(m[y + 1], nx0).Some?;
    var i0 :| 0 <= i0 < |xs| && xs[i0] == nx0;
    BestOverIsMax(m, st, y, xs, Sentinel);
    ChildValueBounds(m, st, y, nx0);
    var b := BestOver(m, st, y, xs, Sentinel);
    assert b >= ChildValue(m, st, y, xs[i0]).value >= Low(y);
  }

  /** Otherwise it is the maximum, over the children that resolve on the
      next floor, of the child's score plus the child's own future. */
  lemma FutureIsMax(m: seq<seq<Node>>, st: Stats, y: int, x: int)
    requires WellFormed(m) && 0 <= y < MaxFloor && FirstWithX(m[y], x).Some?
    requires exists nx :: nx in FirstWithX(m[y], x).value.children && FirstWithX(m[y + 1], nx).Some?
    ensures var xs := FirstWithX(m[y], x).value.children;
      && (forall nx :: nx in xs && FirstWithX(m[y + 1], nx).Some? ==>
            Future(m, st, y, x) >= ScoreNode(FirstWithX(m[y + 1], nx).value, st) + Future(m, st, y + 1, nx))
      && (exists nx :: nx in xs && FirstWithX(m[y + 1], nx).Some? &&
            Future(m, st, y, x) == ScoreNode(FirstWithX(m[y + 1], nx).value, st) + Future(m, st, y + 1, nx))
  {
    var xs := FirstWithX(m[y], x).value.children;
    var f := Future(m, st, y, x);
    FutureIsBestOver(m, st, y, x);
    BestOverIsMax(m, st, y, xs, Sentinel);
    var k :| 0 <= k < |xs| && ChildValue(m, st, y, xs[k]) == Some(f);
    ChildValueOf(m, st, y, xs[k]);
    assert xs[k] in xs;
    forall nx | nx in xs && FirstWithX(m[y + 1], nx).Some?
      ensures f >= ScoreNode(FirstWithX(m[y + 1], nx).value, st) + Future(m, st, y + 1, nx)
    {
      var i :| 0 <= i < |xs| && xs[i] == nx;
      ChildValueOf(m, st, y, nx);
      assert f >= ChildValue(m, st, y, xs[i]).value;
    }
  }

  /** A child resolves iff a node of the next floor sits at its x, and its
      value is then that node's score plus its future. */
  lemma ChildValueOf(m: seq<seq<Node>>, st: Stats, y: int, nx: int)
    requires WellFormed(m) && 0 <= y < MaxFloor
    ensures ChildValue(m, st, y, nx).Some? <==> FirstWithX(m[y + 1], nx).Some?
    ensures ChildValue(m, st, y, nx).Some? ==>
      ChildValue(m, st, y, nx).value == ScoreNode(FirstWithX(m[y + 1], nx).value, st) + Future(m, st, y + 1, nx)
  {
  }

  /** With no HP or gold adjustment (HP ratio at least 0.5, gold at most
      250): elite 5, rest 2, shop 1, monster -0.5, event 0.5, treasure 2,
      every other room type 0. */
  lemma BaseScores(st: Stats, x: int, y: int, ch: seq<int>)
    requires st.hpRatio >= 0.5 && st.gold <= 250
    ensures ScoreNode(Node(x, y, RoomElite, ch), st) == 5.0
    ensures ScoreNode(Node(x, y, RoomRest, ch), st) == 2.0
    ensures ScoreNode(Node(x, y, RoomShop, ch), st) == 1.0
    ensures ScoreNode(Node(x, y, RoomMonster, ch), st) == -0.5
    ensures ScoreNode(Node(x, y, RoomEvent, ch), st) == 0.5
    ensures ScoreNode(Node(x, y, RoomTreasure, ch), st) == 2.0
    ensures forall room :: !(0 <= room <= 5) ==> ScoreNode(Node(x, y, room, ch), st) == 0.0
  {
  }

  /** Panic mode (HP ratio below 0.3) and cautious mode (below 0.5); event
      and treasure are unaffected; gold above 250 makes the shop worth 3 more. */
  lemma AdjustedScores(st: Stats, x: int, y: int, ch: seq<int>)
    ensures st.hpRatio < 0.3 ==>
      && ScoreNode(Node(x, y, RoomElite, ch), st) == -5.0
      && ScoreNode(Node(x, y, RoomRest, ch), st) == 8.0
      && ScoreNode(Node(x, y, RoomMonster, ch), st) == -2.0
      && ScoreNode(Node(x, y, RoomShop, ch), st) == (if st.gold > 250 then 6.0 else 3.0)
    ensures 0.3 <= st.hpRatio < 0.5 ==>
      && ScoreNode(Node(x, y, RoomElite, ch), st) == 0.0
      && ScoreNode(Node(x, y, RoomRest, ch), st) == 4.0
      && ScoreNode(Node(x, y, RoomMonster, ch), st) == -0.5
      && ScoreNode(Node(x, y, RoomShop, ch), st) == (if st.gold > 250 then 4.0 else 1.0)
    ensures ScoreNode(Node(x, y, RoomEvent, ch), st) == 0.5
    ensures ScoreNode(Node(x, y, RoomTreasure, ch), st) == 2.0
  {
  }

  /** The elite weight never decreases as the HP ratio grows: -5, 0, 5. */
  lemma EliteMonotone(a: Stats, b: Stats, node: Node)
    requires node.roomType == RoomElite && a.hpRatio <= b.hpRatio
    ensures ScoreNode(node, a) <= ScoreNode(node, b)
  {
  }

  /** On the last floor, or when the current node is not on its floor,
      there is no candidate: the source then returns a bare 0 instead of a
      pair. */
  lemma NoCandidateCases(m: seq<seq<Node>>, curX: int, curY: int)
    requires WellFormed(m) && curY >= 0
    requires curY >= MaxFloor || FirstWithX(m[curY], curX).None?
    ensures Candidates(m, curX, curY) == []
  {
  }
}
