/** Sharing a namespace's quotas among the nodes of a virtual cluster. */
module Quota {
  import opened Basics
  import opened Text

  /** A Kubernetes ResourceList, every quantity already in the scale its resource is counted in. */
  type Amounts = map<string, int>

  function Get(m: Amounts, k: string): int {
    if k in m then m[k] else 0
  }

  function Sum(names: seq<string>, m: Amounts): int {
    if names == [] then 0 else Get(m, names[0]) + Sum(names[1..], m)
  }

  // ---------------------------------------------------------------------------------------------
  // Water filling of one resource
  // ---------------------------------------------------------------------------------------------

  /** What is left of a quota, the room left on every eligible node, and the nodes still served. */
  datatype Pool = Pool(left: int, room: Amounts, live: seq<string>)

  ghost predicate Roomy(names: seq<string>, room: Amounts) {
    forall v :: v in names ==> v in room
  }

  /** What a node with room `room` takes of the even share `q` when `r` units of the remainder are left. */
  function Take(q: int, r: int, room: int): int {
    Min(if r > 0 then q + 1 else q, room)
  }

  function Spend(r: int): int {
    if r > 0 then r - 1 else r
  }

  /** One node served: its take leaves the pool, and it stays live while it has room. */
  function Serve(v: string, q: int, r: int, p: Pool): Pool
    requires v in p.room
  {
    var take := Take(q, r, p.room[v]);
    Pool(p.left - take, p.room[v := p.room[v] - take],
         if p.room[v] - take > 0 then p.live + [v] else p.live)
  }

  /** The nodes from position `i` on are served in order, `r` units of the remainder still being left. */
  function Pass(names: seq<string>, i: nat, q: int, r: int, p: Pool): Pool
    requires i <= |names| && Roomy(names, p.room)
    decreases |names| - i
  {
    if i == |names| then p else Pass(names, i + 1, q, Spend(r), Serve(names[i], q, r, p))
  }

  /** What the k-th served node is offered: the first `r` get one unit more than the others. */
  function Offer(q: int, r: int, k: int): int {
    if k < r then q + 1 else q
  }

  lemma AscendingDistinct(names: seq<string>, i: nat, j: nat)
    requires Ascending(names) && i < |names| && j < |names| && i != j
    ensures names[i] != names[j]
  {
    BeforeIrreflexive(names[i]);
  }

  lemma {:induction false} PassRoom(names: seq<string>, i: nat, q: int, r: nat, p: Pool)
    requires i <= |names| && Roomy(names, p.room) && Ascending(names)
    ensures Pass(names, i, q, r, p).room.Keys == p.room.Keys
    ensures forall v :: v in p.room && v !in names ==> Pass(names, i, q, r, p).room[v] == p.room[v]
    ensures forall k :: 0 <= k < i ==> Pass(names, i, q, r, p).room[names[k]] == p.room[names[k]]
    ensures forall k :: i <= k < |names| ==>
              Pass(names, i, q, r, p).room[names[k]] == p.room[names[k]] - Min(Offer(q, r, k - i), p.room[names[k]])
    decreases |names| - i
  {
    if i < |names| {
      var next := Serve(names[i], q, r, p);
      PassRoom(names, i + 1, q, Spend(r), next);
      forall k | 0 <= k < |names| && k != i ensures next.room[names[k]] == p.room[names[k]] {
        AscendingDistinct(names, i, k);
      }
    }
  }

  /** The nodes a pass keeps: the served ones that still have room, in the same order. */
  function Keep(names: seq<string>, i: nat, room: Amounts): seq<string>
    requires i <= |names| && Roomy(names, room)
    decreases |names| - i
  {
    if i == |names| then []
    else if room[names[i]] > 0 then [names[i]] + Keep(names, i + 1, room)
    else Keep(names, i + 1, room)
  }

  lemma {:induction false} PassKeeps(names: seq<string>, i: nat, q: int, r: nat, p: Pool)
    requires i <= |names| && Roomy(names, p.room) && Ascending(names)
    ensures Roomy(names, Pass(names, i, q, r, p).room)
    ensures Pass(names, i, q, r, p).live == p.live + Keep(names, i, Pass(names, i, q, r, p).room)
    decreases |names| - i
  {
    if i < |names| {
      var next := Serve(names[i], q, r, p);
      var end := Pass(names, i + 1, q, Spend(r), next);
      PassKeeps(names, i + 1, q, Spend(r), next);
      EarlierRoomStays(names, i, q, Spend(r), next);
      KeepUnfolds(names, i, p.live, next.live, end.room);
      assert Pass(names, i, q, r, p) == end;
    }
  }

  lemma EarlierRoomStays(names: seq<string>, i: nat, q: int, r: nat, p: Pool)
    requires i < |names| && Roomy(names, p.room) && Ascending(names)
    ensures names[i] in p.room && names[i] in Pass(names, i + 1, q, r, p).room
    ensures Pass(names, i + 1, q, r, p).room[names[i]] == p.room[names[i]]
  {
    PassRoom(names, i + 1, q, r, p);
  }

  lemma KeepUnfolds(names: seq<string>, i: nat, live: seq<string>, live': seq<string>, room: Amounts)
    requires i < |names| && Roomy(names, room)
    requires live' == if room[names[i]] > 0 then live + [names[i]] else live
    ensures live' + Keep(names, i + 1, room) == live + Keep(names, i, room)
  {
  }

  lemma {:induction false} KeepProperties(names: seq<string>, i: nat, room: Amounts)
    requires i <= |names| && Roomy(names, room) && Ascending(names)
    ensures forall v :: v in Keep(names, i, room) <==> v in names[i..] && room[v] > 0
    ensures Ascending(Keep(names, i, room)) && |Keep(names, i, room)| <= |names| - i
    ensures forall k :: i <= k < |names| && room[names[k]] <= 0 ==> |Keep(names, i, room)| < |names| - i
    decreases |names| - i
  {
    if i < |names| {
      KeepProperties(names, i + 1, room);
      assert names[i..] == [names[i]] + names[i + 1..];
      assert forall v :: v in Keep(names, i + 1, room) ==> Before(names[i], v);
    }
  }

  lemma {:induction false} SumAgrees(names: seq<string>, m: Amounts, m': Amounts)
    requires forall v :: v in names ==> Get(m, v) == Get(m', v)
    ensures Sum(names, m) == Sum(names, m')
  {
    if names != [] { SumAgrees(names[1..], m, m'); }
  }

  lemma {:induction false} SumUpdate(names: seq<string>, m: Amounts, v: string, x: int)
    requires Ascending(names) && v in names
    ensures Sum(names, m[v := x]) == Sum(names, m) - Get(m, v) + x
  {
    HeadNotInTail(names);
    if v == names[0] {
      SumAgrees(names[1..], m, m[v := x]);
    } else {
      SumUpdate(names[1..], m, v, x);
    }
  }

  lemma HeadNotInTail(names: seq<string>)
    requires Ascending(names) && names != []
    ensures names[0] !in names[1..]
    ensures Ascending(names[1..])
  {
    BeforeIrreflexive(names[0]);
  }

  /** No unit is lost: what leaves the pool is what the room shrinks by. */
  lemma {:induction false} PassBalances(names: seq<string>, i: nat, q: int, r: int, p: Pool, all: seq<string>)
    requires i <= |names| && Roomy(names, p.room) && Ascending(all)
    requires forall v :: v in names ==> v in all
    ensures p.left - Pass(names, i, q, r, p).left == Sum(all, p.room) - Sum(all, Pass(names, i, q, r, p).room)
    decreases |names| - i
  {
    if i < |names| {
      SumUpdate(all, p.room, names[i], p.room[names[i]] - Take(q, r, p.room[names[i]]));
      PassBalances(names, i + 1, q, Spend(r), Serve(names[i], q, r, p), all);
    }
  }

  /** A pass never overdraws, and draws its offers exactly when every node has room for its own. */
  lemma {:induction false} PassDraws(names: seq<string>, i: nat, q: int, r: nat, p: Pool)
    requires i <= |names| && Roomy(names, p.room) && Ascending(names) && r <= |names| - i
    ensures Pass(names, i, q, r, p).left >= p.left - q * (|names| - i) - r
    ensures (forall k :: i <= k < |names| ==> p.room[names[k]] >= Offer(q, r, k - i)) ==>
              Pass(names, i, q, r, p).left == p.left - q * (|names| - i) - r
    decreases |names| - i
  {
    if i < |names| {
      var next := Serve(names[i], q, r, p);
      PassDraws(names, i + 1, q, Spend(r), next);
      OneMore(q, |names| - i - 1);
      forall k | i < k < |names| ensures next.room[names[k]] == p.room[names[k]] && Offer(q, Spend(r), k - i - 1) == Offer(q, r, k - i) {
        AscendingDistinct(names, i, k);
      }
    }
  }

  lemma OneMore(q: int, n: int)
    ensures q * (n + 1) == q * n + q
  {
  }

  /** The pool after one distribution cycle. */
  function Cycle(p: Pool): Pool
    requires Roomy(p.live, p.room) && p.live != []
  {
    Pass(p.live, 0, p.left / |p.live|, p.left % |p.live|, p.(live := []))
  }

  ghost predicate Ready(p: Pool) {
    Ascending(p.live) && Roomy(p.live, p.room)
  }

  /** A cycle keeps the nodes that still have room, in order. */
  lemma CycleKeeps(p: Pool)
    requires Ready(p) && p.live != []
    ensures Roomy(p.live, Cycle(p).room) && Cycle(p).live == Keep(p.live, 0, Cycle(p).room)
    ensures Ready(Cycle(p)) && |Cycle(p).live| <= |p.live|
  {
    PassKeeps(p.live, 0, p.left / |p.live|, p.left % |p.live|, p.(live := []));
    var c := Cycle(p);
    KeepProperties(p.live, 0, c.room);
    assert forall v :: v in c.live ==> v in p.live;
  }

  /** A cycle never overdraws, and spends all when every node has room for its offer. */
  lemma CycleDraws(p: Pool)
    requires Ready(p) && p.left > 0 && p.live != []
    ensures Cycle(p).left >= 0
    ensures Cycle(p).left == 0 || exists k :: 0 <= k < |p.live| && p.room[p.live[k]] < Offer(p.left / |p.live|, p.left % |p.live|, k)
  {
    var n := |p.live|;
    assert p.left / n * n + p.left % n == p.left;
    PassDraws(p.live, 0, p.left / n, p.left % n, p.(live := []));
  }

  /** Every cycle brings the remaining quota to zero or drops a node that had less room than its share. */
  lemma CycleProgress(p: Pool)
    requires Ready(p) && p.left > 0 && p.live != []
    ensures Ready(Cycle(p)) && 0 <= Cycle(p).left && |Cycle(p).live| <= |p.live|
    ensures Cycle(p).left == 0 || |Cycle(p).live| < |p.live|
    ensures Cycle(p).left == 0 || exists k :: 0 <= k < |p.live| && p.live[k] !in Cycle(p).live
                                    && p.room[p.live[k]] < Offer(p.left / |p.live|, p.left % |p.live|, k)
  {
    var n, c := |p.live|, Cycle(p);
    var q, r := p.left / n, p.left % n;
    CycleKeeps(p);
    CycleDraws(p);
    if c.left != 0 {
      var k :| 0 <= k < n && p.room[p.live[k]] < Offer(q, r, k);
      PassRoom(p.live, 0, q, r, p.(live := []));
      KeepProperties(p.live, 0, c.room);
      assert c.room[p.live[k]] == 0 && p.live[k] in p.live;
    }
  }

  /** The whole distribution: cycles until the quota is spent or no node has room. */
  ghost function Drain(p: Pool): Pool
    requires Ready(p)
    decreases |p.live|, p.left > 0
  {
    if p.left > 0 && p.live != [] then
      CycleProgress(p);
      Drain(Cycle(p))
    else p
  }

  ghost function Cycles(p: Pool): nat
    requires Ready(p)
    decreases |p.live|, p.left > 0
  {
    if p.left > 0 && p.live != [] then
      CycleProgress(p);
      1 + Cycles(Cycle(p))
    else 0
  }

  lemma {:induction false} CyclesBounded(p: Pool)
    requires Ready(p)
    ensures Cycles(p) <= |p.live|
    decreases |p.live|, p.left > 0
  {
    if p.left > 0 && p.live != [] {
      CycleProgress(p);
      CyclesBounded(Cycle(p));
    }
  }

  /** What one cycle does to the room of a node: full offer or everything it has. */
  lemma CycleRoom(p: Pool, k: nat)
    requires Ready(p) && p.live != [] && k < |p.live|
    ensures Roomy(p.live, Cycle(p).room)
    ensures Cycle(p).room[p.live[k]] ==
              p.room[p.live[k]] - Min(Offer(p.left / |p.live|, p.left % |p.live|, k), p.room[p.live[k]])
    ensures p.live[k] in Cycle(p).live <==> Cycle(p).room[p.live[k]] > 0
  {
    PassRoom(p.live, 0, p.left / |p.live|, p.left % |p.live|, p.(live := []));
    PassKeeps(p.live, 0, p.left / |p.live|, p.left % |p.live|, p.(live := []));
    KeepProperties(p.live, 0, Cycle(p).room);
    assert p.live[k] in p.live;
  }

  lemma CycleFrame(p: Pool)
    requires Ready(p) && p.live != []
    ensures Cycle(p).room.Keys == p.room.Keys
    ensures forall v :: v in p.room && v !in p.live ==> Cycle(p).room[v] == p.room[v]
    ensures forall v :: v in Cycle(p).live ==> v in p.live
  {
    PassRoom(p.live, 0, p.left / |p.live|, p.left % |p.live|, p.(live := []));
    PassKeeps(p.live, 0, p.left / |p.live|, p.left % |p.live|, p.(live := []));
    KeepProperties(p.live, 0, Cycle(p).room);
  }

  lemma {:induction false} DrainFrame(p: Pool)
    requires Ready(p)
    ensures Drain(p).room.Keys == p.room.Keys
    ensures forall v :: v in p.room && v !in p.live ==> Drain(p).room[v] == p.room[v]
    decreases |p.live|, p.left > 0
  {
    if p.left > 0 && p.live != [] {
      CycleProgress(p);
      CycleFrame(p);
      DrainFrame(Cycle(p));
    }
  }

  /** A cycle leaves a node room between zero and what it had, and a negative capacity at zero. */
  lemma CycleTakes(p: Pool, v: string)
    requires Ready(p) && p.left > 0 && v in p.live
    ensures v in Cycle(p).room && Cycle(p).room[v] >= 0
    ensures if p.room[v] >= 0 then Cycle(p).room[v] <= p.room[v] else Cycle(p).room[v] == 0
    ensures v in Cycle(p).live <==> Cycle(p).room[v] > 0
  {
    var k :| 0 <= k < |p.live| && p.live[k] == v;
    CycleRoom(p, k);
    QuotientNonNegative(p.left, |p.live|);
  }

  lemma QuotientNonNegative(a: int, n: int)
    requires a >= 0 && n > 0
    ensures a / n >= 0
  {
  }

  /** A node ends with room between zero and what it had; a node with a negative capacity ends at zero. */
  lemma {:induction false} DrainRoom(p: Pool, v: string)
    requires Ready(p) && v in p.live
    ensures v in Drain(p).room
    ensures p.room[v] >= 0 ==> 0 <= Drain(p).room[v] <= p.room[v]
    ensures p.room[v] < 0 && p.left > 0 ==> Drain(p).room[v] == 0
    decreases |p.live|, p.left > 0
  {
    DrainFrame(p);
    if p.left > 0 && p.live != [] {
      CycleProgress(p);
      CycleTakes(p, v);
      DrainFrame(Cycle(p));
      if v in Cycle(p).live { DrainRoom(Cycle(p), v); }
    }
  }

  /** The distribution stops with the quota spent or with no room left on any node. */
  lemma {:induction false} DrainSettles(p: Pool)
    requires Ready(p) && p.left > 0
    ensures Drain(p).left >= 0 && Roomy(p.live, Drain(p).room)
    ensures Drain(p).left == 0 || forall v :: v in p.live ==> Drain(p).room[v] == 0
    decreases |p.live|, p.left > 0
  {
    DrainFrame(p);
    if p.live != [] {
      CycleProgress(p);
      CycleFrame(p);
      var c := Cycle(p);
      DrainFrame(c);
      if c.left > 0 { DrainSettles(c); }
      forall v | v in p.live && Drain(p).left != 0 ensures Drain(p).room[v] == 0 {
        CycleTakes(p, v);
      }
    }
  }

  lemma {:induction false} DrainBalances(p: Pool, names: seq<string>)
    requires Ready(p) && Ascending(names) && Roomy(names, p.room)
    requires forall v :: v in p.live ==> v in names
    ensures p.left - Drain(p).left == Sum(names, p.room) - Sum(names, Drain(p).room)
    decreases |p.live|, p.left > 0
  {
    if p.left > 0 && p.live != [] {
      CycleProgress(p);
      CycleFrame(p);
      PassBalances(p.live, 0, p.left / |p.live|, p.left % |p.live|, p.(live := []), names);
      DrainBalances(Cycle(p), names);
    }
  }

  // ---------------------------------------------------------------------------------------------
  // What the distribution promises
  // ---------------------------------------------------------------------------------------------

  /** What a distribution gave to a node. */
  ghost function Given(p: Pool, v: string): int
    requires Ready(p) && v in p.live
  {
    DrainFrame(p);
    p.room[v] - Drain(p).room[v]
  }

  /** Conservation for capacities of any sign: exactly min(quota, total capacity) is handed out. */
  lemma Conservation(p: Pool)
    requires Ready(p) && p.left > 0
    ensures Sum(p.live, p.room) - Sum(p.live, Drain(p).room) == Min(p.left, Sum(p.live, p.room))
  {
    DrainBalances(p, p.live);
    DrainSettles(p);
    DrainFrame(p);
    if Drain(p).left == 0 {
      forall v | v in p.live ensures Get(Drain(p).room, v) >= 0 { DrainRoom(p, v); }
      SumNonNegative(p.live, Drain(p).room);
    } else {
      SumAgrees(p.live, Drain(p).room, map[]);
      SumEmpty(p.live);
    }
  }

  lemma {:induction false} SumNonNegative(names: seq<string>, m: Amounts)
    requires forall v :: v in names ==> Get(m, v) >= 0
    ensures Sum(names, m) >= 0
  {
    if names != [] { SumNonNegative(names[1..], m); }
  }

  lemma {:induction false} SumEmpty(names: seq<string>)
    ensures Sum(names, map[]) == 0
  {
    if names != [] { SumEmpty(names[1..]); }
  }

  /** A node that ends below its capacity received its full offer in every cycle, so nobody got ahead
      of it by more than one unit a cycle, and nobody listed after it got ahead at all. */
  lemma {:induction false} Fairness(p: Pool, i: nat, j: nat)
    requires Ready(p) && i < |p.live| && j < |p.live|
    requires p.live[i] in Drain(p).room && Drain(p).room[p.live[i]] > 0
    ensures Given(p, p.live[j]) <= Given(p, p.live[i]) + Cycles(p)
    ensures i < j ==> Given(p, p.live[j]) <= Given(p, p.live[i])
    decreases |p.live|, p.left > 0
  {
    var vi, vj := p.live[i], p.live[j];
    if p.left > 0 {
      CycleProgress(p);
      CycleFrame(p);
      CycleRoom(p, i);
      CycleRoom(p, j);
      var c := Cycle(p);
      DrainFrame(c);
      CycleTakes(p, vi);
      assert vi in c.live;
      var i' :| 0 <= i' < |c.live| && c.live[i'] == vi;
      if vj in c.live {
        var j' :| 0 <= j' < |c.live| && c.live[j'] == vj;
        Fairness(c, i', j');
        if i < j {
          BeforeOrder(c.live, i', j');
        }
      } else {
        DrainRoom(c, vi);
      }
    }
  }

  /** In an ascending list, the order of the names is the order of their positions. */
  lemma BeforeOrder(names: seq<string>, i: nat, j: nat)
    requires Ascending(names) && i < |names| && j < |names| && Before(names[i], names[j])
    ensures i < j
  {
    if i == j {
      BeforeIrreflexive(names[i]);
    } else if j < i {
      BeforeTransitive(names[i], names[j], names[i]);
      BeforeIrreflexive(names[i]);
    }
  }

  ghost function Place(names: seq<string>, v: string): (k: nat)
    requires v in names
    ensures k < |names| && names[k] == v
  {
    var k :| 0 <= k < |names| && names[k] == v;
    k
  }

  /** In how many cycles the remainder ends between the two nodes, while both are served. */
  ghost function Separations(p: Pool, a: string, b: string): nat
    requires Ready(p) && a in p.live && b in p.live
    decreases |p.live|, p.left > 0
  {
    if p.left <= 0 then 0
    else
      CycleProgress(p);
      (if Place(p.live, a) < p.left % |p.live| <= Place(p.live, b) then 1 else 0)
      + if a in Cycle(p).live && b in Cycle(p).live then Separations(Cycle(p), a, b) else 0
  }

  /** Of two nodes that are never capped, the alphabetically earlier one gets exactly one unit more for each cycle whose
      remainder separates them. */
  lemma {:induction false} ExactGap(p: Pool, a: string, b: string)
    requires Ready(p) && a in p.live && b in p.live && Before(a, b)
    requires a in Drain(p).room && Drain(p).room[a] > 0 && b in Drain(p).room && Drain(p).room[b] > 0
    ensures Given(p, a) - Given(p, b) == Separations(p, a, b)
    decreases |p.live|, p.left > 0
  {
    if p.left > 0 {
      var i, j, c := Place(p.live, a), Place(p.live, b), Cycle(p);
      CycleProgress(p);
      CycleFrame(p);
      CycleRoom(p, i);
      CycleRoom(p, j);
      BeforeOrder(p.live, i, j);
      CycleTakes(p, a);
      CycleTakes(p, b);
      DrainFrame(c);
      assert a in c.live && b in c.live;
      ExactGap(c, a, b);
    }
  }

  /** Every node has room for what it is offered in the next cycle. */
  ghost predicate Covered(p: Pool)
    requires Ready(p) && p.live != []
  {
    forall k {:trigger p.live[k]} :: 0 <= k < |p.live| ==> Offer(p.left / |p.live|, p.left % |p.live|, k) <= p.room[p.live[k]]
  }

  lemma CoveredEnds(p: Pool)
    requires Ready(p) && p.left > 0 && p.live != [] && Covered(p)
    ensures Ready(Cycle(p)) && Cycle(p).left == 0
  {
    CycleProgress(p);
  }

  lemma EndsInOneCycle(p: Pool)
    requires Ready(p) && p.left > 0 && p.live != [] && Ready(Cycle(p)) && Cycle(p).left == 0
    ensures Cycles(p) == 1 && Drain(p) == Cycle(p)
  {
    var end := Cycle(p);
    assert Drain(end) == end && Cycles(end) == 0;
  }

  /** If every capacity covers its offer, one cycle is enough, and every node gets just its offer. */
  lemma OneCycleSuffices(p: Pool, k: nat)
    requires Ready(p) && p.left > 0 && k < |p.live| && Covered(p)
    ensures Cycles(p) == 1 && Given(p, p.live[k]) == Offer(p.left / |p.live|, p.left % |p.live|, k)
  {
    CoveredEnds(p);
    EndsInOneCycle(p);
    CycleRoom(p, k);
  }

  /** The allowance of one unit per cycle is needed: 7 units over capacities 9, 9 and 1 give 4, 2 and 1. */
  lemma GapOfOneIsNotEnough()
    ensures var p := Pool(7, map["a" := 9, "b" := 9, "c" := 1], ["a", "b", "c"]);
            Ready(p) && Given(p, "a") == 4 && Given(p, "b") == 2 && Given(p, "c") == 1 && Cycles(p) == 2
  {
    var p := Pool(7, map["a" := 9, "b" := 9, "c" := 1], ["a", "b", "c"]);
    assert "a"[0] < "b"[0] < "c"[0];
    FirstCycle(p);
    var c := Pool(1, map["a" := 6, "b" := 7, "c" := 0], ["a", "b"]);
    SecondCycle(c);
    assert Drain(Cycle(c)) == Cycle(c) && Cycles(Cycle(c)) == 0;
    assert Drain(c) == Cycle(c) && Cycles(c) == 1;
  }

  lemma FirstCycle(p: Pool)
    requires p == Pool(7, map["a" := 9, "b" := 9, "c" := 1], ["a", "b", "c"])
    ensures Cycle(p) == Pool(1, map["a" := 6, "b" := 7, "c" := 0], ["a", "b"])
  {
  }

  lemma SecondCycle(p: Pool)
    requires p == Pool(1, map["a" := 6, "b" := 7, "c" := 0], ["a", "b"])
    ensures Cycle(p) == Pool(0, map["a" := 5, "b" := 7, "c" := 0], ["a", "b"])
  {
  }

  // ---------------------------------------------------------------------------------------------
  // distributeQuotas
  // ---------------------------------------------------------------------------------------------

  type NodeLists = map<string, Amounts>

  predicate Eligible(host: NodeLists, virt: NodeLists, r: string, v: string) {
    v in virt && v in host && r in host[v]
  }

  function EligibleNodes(host: NodeLists, virt: NodeLists, r: string): set<string> {
    set v | v in virt && Eligible(host, virt, r, v)
  }

  function Capacities(host: NodeLists, virt: NodeLists, r: string): Amounts {
    map v | v in EligibleNodes(host, virt, r) :: host[v][r]
  }

  /** The pool one resource is distributed from. */
  ghost function Start(host: NodeLists, virt: NodeLists, r: string, total: int): (p: Pool)
    ensures Ready(p)
    ensures forall v :: v in p.live <==> Eligible(host, virt, r, v)
  {
    Pool(total, Capacities(host, virt, r), Listing(EligibleNodes(host, virt, r)))
  }

  /** What the distribution of `r` takes for node `v`; nothing for a node without the resource. */
  ghost function Share(host: NodeLists, virt: NodeLists, r: string, total: int, v: string): int {
    if Eligible(host, virt, r, v) then Given(Start(host, virt, r, total), v) else 0
  }

  /** Only a positive share is recorded, on top of what the list already holds. */
  function AddShare(list: Amounts, r: string, amount: int): Amounts {
    if amount > 0 then list[r := Get(list, r) + amount] else list
  }

  /** Node lists after the resources outside the quota have been copied from the host. */
  function Filled(host: NodeLists, virt: NodeLists, quotas: Amounts, v: string): Amounts
    requires v in virt
  {
    if v in host then virt[v] + Unquoted(host[v], quotas) else virt[v]
  }

  ghost predicate Settled(host: NodeLists, virt: NodeLists, quotas: Amounts, v: string, list: Amounts)
    requires v in virt
  {
    && (forall r {:trigger Recorded(Filled(host, virt, quotas, v), list, r, Share(host, virt, r, quotas[r], v))} ::
          r in quotas ==> Recorded(Filled(host, virt, quotas, v), list, r, Share(host, virt, r, quotas[r], v)))
    && (forall r {:trigger SameAt(Filled(host, virt, quotas, v), list, r)} ::
          r !in quotas ==> SameAt(Filled(host, virt, quotas, v), list, r))
  }

  ghost predicate SameAt(a: Amounts, b: Amounts, r: string) {
    (r in a <==> r in b) && (r in a ==> a[r] == b[r])
  }

  lemma SameEverywhere(a: Amounts, b: Amounts)
    requires forall r :: SameAt(a, b, r)
    ensures a == b
  {
    forall r ensures (r in a <==> r in b) && (r in a ==> a[r] == b[r]) { assert SameAt(a, b, r); }
  }

  ghost predicate Recorded(before: Amounts, after: Amounts, r: string, amount: int) {
    SameAt(AddShare(before, r, amount), after, r)
  }

  /** The result is determined resource by resource and node by node, whatever order Go walks its maps in. */
  ghost predicate Distributed(host: NodeLists, virt: NodeLists, quotas: Amounts, m: NodeLists) {
    m.Keys == virt.Keys && forall v {:trigger Settled(host, virt, quotas, v, m[v])} :: v in virt ==> Settled(host, virt, quotas, v, m[v])
  }

  lemma DistributionUnique(host: NodeLists, virt: NodeLists, quotas: Amounts, m: NodeLists, m': NodeLists)
    requires Distributed(host, virt, quotas, m) && Distributed(host, virt, quotas, m')
    ensures m == m'
  {
    forall v | v in virt ensures m[v] == m'[v] {
      assert Settled(host, virt, quotas, v, m[v]) && Settled(host, virt, quotas, v, m'[v]);
      forall r ensures SameAt(m[v], m'[v], r) {
        if r in quotas {
          assert Recorded(Filled(host, virt, quotas, v), m[v], r, Share(host, virt, r, quotas[r], v));
          assert Recorded(Filled(host, virt, quotas, v), m'[v], r, Share(host, virt, r, quotas[r], v));
        } else {
          assert SameAt(Filled(host, virt, quotas, v), m[v], r) && SameAt(Filled(host, virt, quotas, v), m'[v], r);
        }
      }
      SameEverywhere(m[v], m'[v]);
    }
  }

  /** A resource without a quota is what the host has of it, or else what the node's list had. */
  lemma OutsideTheQuota(host: NodeLists, virt: NodeLists, quotas: Amounts, lists: NodeLists, v: string, r: string)
    requires Distributed(host, virt, quotas, lists) && v in virt && r !in quotas
    ensures v in lists
    ensures if v in host && r in host[v] then r in lists[v] && lists[v][r] == host[v][r]
            else (r in lists[v] <==> r in virt[v]) && (r in virt[v] ==> lists[v][r] == virt[v][r])
  {
    assert Settled(host, virt, quotas, v, lists[v]);
    assert SameAt(Filled(host, virt, quotas, v), lists[v], r);
  }

  /** A resource with a quota is what the node's list had, plus a share that is never taken back; only a node whose host
      has the resource gets one. */
  lemma InsideTheQuota(host: NodeLists, virt: NodeLists, quotas: Amounts, lists: NodeLists, v: string, r: string)
    requires Distributed(host, virt, quotas, lists) && v in virt && r in quotas
    ensures v in lists
    ensures Get(lists[v], r) == Get(virt[v], r) + Max(0, Share(host, virt, r, quotas[r], v))
    ensures r in lists[v] <==> r in virt[v] || Share(host, virt, r, quotas[r], v) > 0
    ensures !(v in host && r in host[v]) ==> Share(host, virt, r, quotas[r], v) == 0
  {
    assert Settled(host, virt, quotas, v, lists[v]);
    assert Recorded(Filled(host, virt, quotas, v), lists[v], r, Share(host, virt, r, quotas[r], v));
  }

  /** The lists once every node's takes so far have been recorded for `r`. */
  function Noted(r: string, cap: Amounts, room: Amounts, base: NodeLists): NodeLists {
    map v | v in base :: if v in cap && v in room then AddShare(base[v], r, cap[v] - room[v]) else base[v]
  }

  function Note(lists: NodeLists, v: string, r: string, take: int): NodeLists
    requires v in lists
  {
    if take > 0 then lists[v := lists[v][r := Get(lists[v], r) + take]] else lists
  }

  lemma NoteIsNoted(r: string, cap: Amounts, room: Amounts, base: NodeLists, v: string, take: int)
    requires v in room && v in cap && v in base
    requires room[v] <= cap[v] && (take < 0 ==> room[v] == cap[v])
    ensures Note(Noted(r, cap, room, base), v, r, take) == Noted(r, cap, room[v := room[v] - take], base)
  {
    var taken, lists, lists' := cap[v] - room[v], Noted(r, cap, room, base), Noted(r, cap, room[v := room[v] - take], base);
    assert lists[v] == AddShare(base[v], r, taken) && lists'[v] == AddShare(base[v], r, taken + take);
    if take > 0 {
      assert lists[v][r := Get(lists[v], r) + take] == lists'[v];
    }
    assert forall u :: u in base && u != v ==> lists[u] == lists'[u];
    assert Note(lists, v, r, take) == lists';
  }

  /** The nodes from `i` on have taken something of their capacity or, if it is not positive, nothing yet. */
  ghost predicate Pending(live: seq<string>, i: nat, room: Amounts, cap: Amounts) {
    forall k :: i <= k < |live| ==> live[k] in room && live[k] in cap && room[live[k]] <= cap[live[k]]
                                    && (room[live[k]] <= 0 ==> room[live[k]] == cap[live[k]])
  }

  lemma PendingShrinks(live: seq<string>, i: nat, room: Amounts, cap: Amounts, x: int)
    requires Ascending(live) && i < |live| && Pending(live, i, room, cap)
    ensures Pending(live, i + 1, room[live[i] := x], cap)
  {
    forall k | i < k < |live| ensures live[k] != live[i] { AscendingDistinct(live, i, k); }
  }

  /** The inner loop of a cycle: every live node is served in turn, updating in place the quota, the room of
      the nodes, the list of those kept, and the resource lists. */
  method ServeNodes(live: seq<string>, quantityPerNode: int, remainder: nat, r: string,
                    total: int, room: Amounts, lists: NodeLists, ghost cap: Amounts, ghost base: NodeLists)
    returns (total': int, room': Amounts, lists': NodeLists, kept: seq<string>)
    requires Ready(Pool(total, room, live)) && quantityPerNode >= 0
    requires cap.Keys <= base.Keys && lists == Noted(r, cap, room, base) && Pending(live, 0, room, cap)
    ensures Pool(total', room', kept) == Pass(live, 0, quantityPerNode, remainder, Pool(total, room, []))
    ensures lists' == Noted(r, cap, room', base)
  {
    var extra := remainder;
    total', room', lists', kept := total, room, lists, [];
    ghost var p := Pool(total, room, []);
    ghost var end := Pass(live, 0, quantityPerNode, remainder, p);
    for i := 0 to |live|
      invariant total' == p.left && room' == p.room && kept == p.live
      invariant Roomy(live, p.room)
      invariant lists' == Noted(r, cap, room', base) && Pending(live, i, room', cap)
      invariant Pass(live, i, quantityPerNode, extra, p) == end
    {
      var v := live[i];
      var nodeQuantity := Take(quantityPerNode, extra, room'[v]);
      NoteIsNoted(r, cap, room', base, v, nodeQuantity);
      PendingShrinks(live, i, room', cap, room'[v] - nodeQuantity);
      lists' := Note(lists', v, r, nodeQuantity);
      p := Serve(v, quantityPerNode, extra, p);
      extra := Spend(extra);
      total' := total' - nodeQuantity;
      room' := room'[v := room'[v] - nodeQuantity];
      kept := if room'[v] > 0 then kept + [v] else kept;
    }
  }

  /** One cycle keeps the bookkeeping in step, so that the next one may rely on it. */
  lemma CycleKeepsBounds(p: Pool, cap: Amounts)
    requires Ready(p) && p.left > 0 && p.live != [] && p.room.Keys == cap.Keys
    requires Pending(p.live, 0, p.room, cap)
    ensures Ready(Cycle(p)) && Cycle(p).room.Keys == cap.Keys
    ensures Pending(Cycle(p).live, 0, Cycle(p).room, cap)
    ensures |Cycle(p).live| <= |p.live| && (|Cycle(p).live| == |p.live| ==> Cycle(p).left <= 0)
  {
    CycleProgress(p);
    CycleFrame(p);
    var c := Cycle(p);
    forall k | 0 <= k < |c.live| ensures 0 < c.room[c.live[k]] <= cap[c.live[k]] {
      assert c.live[k] in c.live;
      CycleTakes(p, c.live[k]);
      var j :| 0 <= j < |p.live| && p.live[j] == c.live[k];
    }
  }

  /** The nodes that have the resource, appended in whatever order Go walks the map, with their capacity. */
  method CollectEligible(host: NodeLists, virt: NodeLists, r: string) returns (eligible: seq<string>, hostCap: Amounts)
    ensures forall i, j :: 0 <= i < j < |eligible| ==> eligible[i] != eligible[j]
    ensures (set v | v in eligible) == EligibleNodes(host, virt, r)
    ensures hostCap == Capacities(host, virt, r)
  {
    hostCap, eligible := map[], [];
    var unseen := virt.Keys;
    while unseen != {}
      invariant unseen <= virt.Keys
      invariant forall i, j :: 0 <= i < j < |eligible| ==> eligible[i] != eligible[j]
      invariant forall v :: v in eligible <==> Eligible(host, virt, r, v) && v !in unseen
      invariant hostCap == map v | v in EligibleNodes(host, virt, r) && v !in unseen :: host[v][r]
    {
      var vn :| vn in unseen;
      unseen := unseen - {vn};
      if vn in host && r in host[vn] {
        hostCap := hostCap[vn := host[vn][r]];
        eligible := eligible + [vn];
      }
    }
  }

  /** The distribution cycles: the loop ends with the pool drained and every take on its node's list. */
  method FillLists(eligible: seq<string>, r: string, total: int, hostCap: Amounts, lists: NodeLists)
    returns (lists': NodeLists)
    requires Ready(Pool(total, hostCap, eligible)) && hostCap.Keys <= lists.Keys
    requires forall v :: v in eligible ==> v in hostCap
    ensures lists' == Noted(r, hostCap, Drain(Pool(total, hostCap, eligible)).room, lists)
  {
    var left, room, live := total, hostCap, eligible;
    lists' := lists;
    while left > 0 && live != []
      invariant Ready(Pool(left, room, live)) && Drain(Pool(left, room, live)) == Drain(Pool(total, hostCap, eligible))
      invariant lists' == Noted(r, hostCap, room, lists) && Pending(live, 0, room, hostCap) && room.Keys == hostCap.Keys
      decreases |live|, left > 0
    {
      CycleKeepsBounds(Pool(left, room, live), hostCap);
      var nodeNum := |live|;
      QuotientNonNegative(left, nodeNum);
      left, room, lists', live := ServeNodes(live, left / nodeNum, left % nodeNum, r, left, room, lists', hostCap, lists);
    }
  }

  /** The loop over one quota resource: it only touches that resource, and adds to each list what the
      node was given, whatever order the nodes are visited in. */
  method DistributeResource(host: NodeLists, virt: NodeLists, r: string, total: int, lists: NodeLists)
    returns (lists': NodeLists)
    requires lists.Keys == virt.Keys
    ensures lists'.Keys == virt.Keys
    ensures forall v :: v in virt ==> lists'[v] == AddShare(lists[v], r, Share(host, virt, r, total, v))
  {
    var found, hostCap := CollectEligible(host, virt, r);
    var eligible := SortNames(found);
    ghost var start := Start(host, virt, r, total);
    assert start.room == hostCap && start.live == eligible && start.left == total;
    lists' := FillLists(eligible, r, total, hostCap, lists);
    NotedIsShared(host, virt, r, total, lists, lists');
  }

  lemma NotedIsShared(host: NodeLists, virt: NodeLists, r: string, total: int, lists: NodeLists, lists': NodeLists)
    requires lists.Keys == virt.Keys
    requires var p := Start(host, virt, r, total); lists' == Noted(r, p.room, Drain(p).room, lists)
    ensures forall v :: v in virt ==> lists'[v] == AddShare(lists[v], r, Share(host, virt, r, total, v))
  {
    var p := Start(host, virt, r, total);
    DrainFrame(p);
    forall v | v in virt ensures lists'[v] == AddShare(lists[v], r, Share(host, virt, r, total, v)) {
      if Eligible(host, virt, r, v) {
        assert v in p.live && Given(p, v) == p.room[v] - Drain(p).room[v];
      }
    }
  }

  /** The host resources outside the quota are copied over what the list holds. */
  function Unquoted(hostList: Amounts, quotas: Amounts): Amounts {
    map r | r in hostList && r !in quotas :: hostList[r]
  }

  method CopyUnquoted(list: Amounts, hostList: Amounts, quotas: Amounts) returns (list': Amounts)
    ensures list' == list + Unquoted(hostList, quotas)
  {
    list' := list;
    var names := hostList.Keys;
    ghost var extra := Unquoted(hostList, quotas);
    while names != {}
      invariant names <= hostList.Keys
      invariant forall r :: r in extra && r !in names ==> r in list' && list'[r] == extra[r]
      invariant forall r :: r !in extra || r in names ==> SameAt(list, list', r)
    {
      var resourceName :| resourceName in names;
      names := names - {resourceName};
      if resourceName !in quotas {
        list' := list'[resourceName := hostList[resourceName]];
      }
    }
    forall r ensures SameAt(list', list + extra, r) {
      assert r !in extra ==> SameAt(list, list', r);
    }
    SameEverywhere(list', list + extra);
  }

  /** distributeQuotas: the resources outside the quota are copied, the others are shared out. */
  method DistributeQuotas(host: NodeLists, virt: NodeLists, quotas: Amounts) returns (lists: NodeLists)
    ensures Distributed(host, virt, quotas, lists)
  {
    lists := virt;
    var nodes := virt.Keys;
    while nodes != {}
      invariant nodes <= virt.Keys == lists.Keys
      invariant forall v :: v in nodes ==> lists[v] == virt[v]
      invariant forall v :: v in virt && v !in nodes ==> lists[v] == Filled(host, virt, quotas, v)
    {
      var vn :| vn in nodes;
      nodes := nodes - {vn};
      if vn in host {
        var list := CopyUnquoted(lists[vn], host[vn], quotas);
        lists := lists[vn := list];
      }
    }
    lists := ShareQuotas(host, virt, quotas, lists);
  }

  method ShareQuotas(host: NodeLists, virt: NodeLists, quotas: Amounts, filled: NodeLists) returns (lists: NodeLists)
    requires filled.Keys == virt.Keys && forall v :: v in virt ==> filled[v] == Filled(host, virt, quotas, v)
    ensures Distributed(host, virt, quotas, lists)
  {
    lists := filled;
    var pending := quotas.Keys;
    ghost var done: set<string> := {};
    while pending != {}
      invariant done + pending == quotas.Keys && done !! pending && lists.Keys == virt.Keys
      invariant forall v :: v in virt ==> SharedOut(host, virt, quotas, v, done, filled[v], lists[v])
    {
      var resourceName :| resourceName in pending;
      pending := pending - {resourceName};
      ghost var before := lists;
      lists := DistributeResource(host, virt, resourceName, quotas[resourceName], lists);
      ShareRound(host, virt, quotas, done, resourceName, filled, before, lists);
      done := done + {resourceName};
    }
    AllShared(host, virt, quotas, filled, lists);
  }

  lemma ShareRound(host: NodeLists, virt: NodeLists, quotas: Amounts, done: set<string>, r: string,
                   base: NodeLists, lists: NodeLists, lists': NodeLists)
    requires base.Keys == lists.Keys == lists'.Keys == virt.Keys
    requires done <= quotas.Keys && r in quotas && r !in done
    requires forall v :: v in virt ==> SharedOut(host, virt, quotas, v, done, base[v], lists[v])
    requires forall v :: v in virt ==> lists'[v] == AddShare(lists[v], r, Share(host, virt, r, quotas[r], v))
    ensures forall v :: v in virt ==> SharedOut(host, virt, quotas, v, done + {r}, base[v], lists'[v])
  {
    forall v | v in virt ensures SharedOut(host, virt, quotas, v, done + {r}, base[v], lists'[v]) {
      ShareOneMore(host, virt, quotas, v, done, r, base[v], lists[v], lists'[v]);
    }
  }

  lemma AllShared(host: NodeLists, virt: NodeLists, quotas: Amounts, filled: NodeLists, lists: NodeLists)
    requires filled.Keys == lists.Keys == virt.Keys
    requires forall v :: v in virt ==> filled[v] == Filled(host, virt, quotas, v)
    requires forall v :: v in virt ==> SharedOut(host, virt, quotas, v, quotas.Keys, filled[v], lists[v])
    ensures Distributed(host, virt, quotas, lists)
  {
  }

  /** The resources in `done` have been recorded, every other entry is as it was. */
  ghost predicate SharedOut(host: NodeLists, virt: NodeLists, quotas: Amounts, v: string, done: set<string>, base: Amounts, list: Amounts)
    requires done <= quotas.Keys
  {
    && (forall r :: r in done ==> Recorded(base, list, r, Share(host, virt, r, quotas[r], v)))
    && (forall r :: r !in done ==> SameAt(base, list, r))
  }

  lemma ShareOneMore(host: NodeLists, virt: NodeLists, quotas: Amounts, v: string, done: set<string>, r: string,
                     base: Amounts, list: Amounts, list': Amounts)
    requires done <= quotas.Keys && r in quotas && r !in done
    requires SharedOut(host, virt, quotas, v, done, base, list)
    requires list' == AddShare(list, r, Share(host, virt, r, quotas[r], v))
    ensures SharedOut(host, virt, quotas, v, done + {r}, base, list')
  {
  }
}
