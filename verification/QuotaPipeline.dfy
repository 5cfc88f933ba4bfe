/** From the ResourceQuotas of a namespace to what a virtual node advertises. */
module QuotaPipeline {
  import opened Basics
  import opened Text
  import opened Quota

  // ---------------------------------------------------------------------------------------------
  // The returned map
  // ---------------------------------------------------------------------------------------------

  /** What every node's list holds of one resource, an absent entry counting as zero. */
  ghost function Column(lists: NodeLists, r: string): Amounts {
    map v | v in lists :: Get(lists[v], r)
  }

  ghost function Total(m: Amounts): int {
    Sum(Listing(m.Keys), m)
  }

  /** Capacity below zero, which the allocator hands on to the other nodes as extra quota. */
  ghost function Deficit(m: Amounts): Amounts {
    map v | v in m :: Max(0, -m[v])
  }

  ghost function Surplus(m: Amounts): Amounts {
    map v | v in m :: Max(0, m[v])
  }

  /** Node by node, shares and leftovers account for capacity plus deficit, which is the surplus. */
  ghost predicate Accounts(names: seq<string>, column: Amounts, end: Amounts, caps: Amounts) {
    forall v {:trigger Get(column, v), Get(end, v)} :: v in names ==>
      v in caps && Get(column, v) + Get(end, v) == caps[v] + Max(0, -caps[v])
  }

  lemma {:induction false} SumsMatch(names: seq<string>, column: Amounts, end: Amounts, caps: Amounts)
    requires Accounts(names, column, end, caps)
    ensures Sum(names, column) + Sum(names, end) == Sum(names, Surplus(caps))
    ensures Sum(names, caps) + Sum(names, Deficit(caps)) == Sum(names, Surplus(caps))
  {
    if names != [] {
      assert names[0] in names;
      SumsMatch(names[1..], column, end, caps);
    }
  }

  lemma {:induction false} SumOfPart(names: seq<string>, part: seq<string>, m: Amounts)
    requires Ascending(names) && Ascending(part)
    requires forall v :: v in part ==> v in names
    requires forall v :: v in names && v !in part ==> Get(m, v) == 0
    ensures Sum(names, m) == Sum(part, m)
  {
    if part == [] {
      SumAgrees(names, m, map[]);
      SumEmpty(names);
    } else {
      assert part[0] in names;
      HeadNotInTail(names);
      if names[0] in part {
        assert part[0] in part;
        HeadIsLeast(names, part);
        HeadNotInTail(part);
        forall v | v in part[1..] ensures v in names[1..] { assert v in part; }
        forall v | v in names[1..] && v !in part[1..] ensures Get(m, v) == 0 { assert v in names; }
        SumOfPart(names[1..], part[1..], m);
      } else {
        SumOfPart(names[1..], part, m);
      }
    }
  }

  /** What a node's list holds of a quota resource that it did not hold before. */
  lemma RecordedShare(host: NodeLists, virt: NodeLists, quotas: Amounts, lists: NodeLists, r: string, v: string)
    requires Distributed(host, virt, quotas, lists) && r in quotas && v in virt && r !in virt[v]
    ensures Get(lists[v], r) == Max(0, Share(host, virt, r, quotas[r], v))
    ensures r in lists[v] <==> Share(host, virt, r, quotas[r], v) > 0
  {
    InsideTheQuota(host, virt, quotas, lists, v, r);
  }

  /** A share, with the node's own deficit added back, is never negative. */
  lemma ShareAndDeficit(host: NodeLists, virt: NodeLists, r: string, total: int, v: string)
    requires Eligible(host, virt, r, v)
    ensures total <= 0 ==> Share(host, virt, r, total, v) == 0
    ensures total > 0 ==> Max(0, Share(host, virt, r, total, v)) == Share(host, virt, r, total, v) + Max(0, -host[v][r])
    ensures Max(0, Share(host, virt, r, total, v)) <= Max(0, host[v][r])
  {
    DrainRoom(Start(host, virt, r, total), v);
  }

  /** Conservation in the returned map, for capacities of either sign: what the nodes hold of a resource
      adds up to the quota plus all negative capacity, or to all positive capacity if that is less. */
  lemma SharesConserved(host: NodeLists, virt: NodeLists, quotas: Amounts, lists: NodeLists, r: string, caps: Amounts)
    requires Distributed(host, virt, quotas, lists) && r in quotas
    requires forall v :: v in virt ==> r !in virt[v]
    requires forall v :: v in caps <==> v in virt && v in host && r in host[v]
    requires forall v :: v in caps ==> caps[v] == host[v][r]
    ensures Total(Column(lists, r)) ==
              if quotas[r] <= 0 then 0 else Min(quotas[r] + Total(Deficit(caps)), Total(Surplus(caps)))
  {
    assert caps == Capacities(host, virt, r);
    HeldTotal(host, virt, quotas, lists, r);
    CapacityTotals(host, virt, r);
  }

  lemma HeldTotal(host: NodeLists, virt: NodeLists, quotas: Amounts, lists: NodeLists, r: string)
    requires Distributed(host, virt, quotas, lists) && r in quotas
    requires forall v :: v in virt ==> r !in virt[v]
    ensures var part, caps := Listing(EligibleNodes(host, virt, r)), Capacities(host, virt, r);
            Total(Column(lists, r)) ==
              if quotas[r] <= 0 then 0 else Min(quotas[r] + Sum(part, Deficit(caps)), Sum(part, Surplus(caps)))
  {
    var column := Column(lists, r);
    ColumnHoldsShares(host, virt, quotas, lists, r);
    ColumnTotal(host, virt, r, quotas[r], column);
    if quotas[r] <= 0 {
      NothingShared(host, virt, r, quotas[r], column);
    } else {
      EligibleSharesConserved(host, virt, r, quotas[r], column);
    }
  }

  lemma CapacityTotals(host: NodeLists, virt: NodeLists, r: string)
    ensures var part, caps := Listing(EligibleNodes(host, virt, r)), Capacities(host, virt, r);
            Total(Deficit(caps)) == Sum(part, Deficit(caps)) && Total(Surplus(caps)) == Sum(part, Surplus(caps))
  {
    var caps := Capacities(host, virt, r);
    assert Deficit(caps).Keys == EligibleNodes(host, virt, r) == Surplus(caps).Keys;
  }

  ghost predicate HoldsShares(host: NodeLists, virt: NodeLists, r: string, total: int, column: Amounts) {
    column.Keys == virt.Keys
    && forall v {:trigger Share(host, virt, r, total, v)} :: v in virt ==>
         Get(column, v) == Max(0, Share(host, virt, r, total, v))
  }

  lemma ColumnHoldsShares(host: NodeLists, virt: NodeLists, quotas: Amounts, lists: NodeLists, r: string)
    requires Distributed(host, virt, quotas, lists) && r in quotas
    requires forall v :: v in virt ==> r !in virt[v]
    ensures HoldsShares(host, virt, r, quotas[r], Column(lists, r))
  {
    forall v | v in virt ensures Get(Column(lists, r), v) == Max(0, Share(host, virt, r, quotas[r], v)) {
      RecordedShare(host, virt, quotas, lists, r, v);
    }
  }

  lemma ColumnTotal(host: NodeLists, virt: NodeLists, r: string, total: int, column: Amounts)
    requires HoldsShares(host, virt, r, total, column)
    ensures Total(column) == Sum(Listing(EligibleNodes(host, virt, r)), column)
  {
    forall v | v in virt && v !in EligibleNodes(host, virt, r) ensures Get(column, v) == 0 {
      assert Share(host, virt, r, total, v) == 0;
    }
    SumOfPart(Listing(virt.Keys), Listing(EligibleNodes(host, virt, r)), column);
  }

  lemma NothingShared(host: NodeLists, virt: NodeLists, r: string, total: int, column: Amounts)
    requires HoldsShares(host, virt, r, total, column) && total <= 0
    ensures Sum(Listing(EligibleNodes(host, virt, r)), column) == 0
  {
    var part := Listing(EligibleNodes(host, virt, r));
    forall v | v in part ensures Get(column, v) == Get(map[], v) { ShareAndDeficit(host, virt, r, total, v); }
    SumAgrees(part, column, map[]);
    SumEmpty(part);
  }

  lemma EligibleSharesConserved(host: NodeLists, virt: NodeLists, r: string, total: int, column: Amounts)
    requires HoldsShares(host, virt, r, total, column) && total > 0
    ensures var part, caps := Listing(EligibleNodes(host, virt, r)), Capacities(host, virt, r);
            Sum(part, column) == Min(total + Sum(part, Deficit(caps)), Sum(part, Surplus(caps)))
  {
    var p := Start(host, virt, r, total);
    PositiveSharesAccount(host, virt, r, total, column);
    PositiveTotal(p, column, total, Listing(EligibleNodes(host, virt, r)), Capacities(host, virt, r));
  }

  lemma PositiveTotal(p: Pool, column: Amounts, total: int, part: seq<string>, caps: Amounts)
    requires Ready(p) && p == Pool(total, caps, part) && total > 0 && Accounts(p.live, column, Drain(p).room, p.room)
    ensures Sum(part, column) == Min(total + Sum(part, Deficit(caps)), Sum(part, Surplus(caps)))
  {
    DrainBalance(p, column);
  }

  lemma DrainBalance(p: Pool, column: Amounts)
    requires Ready(p) && p.left > 0 && Accounts(p.live, column, Drain(p).room, p.room)
    ensures Sum(p.live, column) == Min(p.left + Sum(p.live, Deficit(p.room)), Sum(p.live, Surplus(p.room)))
  {
    Conservation(p);
    Balance(p.live, p.left, column, Drain(p).room, p.room);
  }

  lemma Balance(part: seq<string>, total: int, column: Amounts, end: Amounts, caps: Amounts)
    requires Accounts(part, column, end, caps)
    requires Sum(part, caps) - Sum(part, end) == Min(total, Sum(part, caps))
    ensures Sum(part, column) == Min(total + Sum(part, Deficit(caps)), Sum(part, Surplus(caps)))
  {
    SumsMatch(part, column, end, caps);
  }

  lemma PositiveSharesAccount(host: NodeLists, virt: NodeLists, r: string, total: int, column: Amounts)
    requires HoldsShares(host, virt, r, total, column) && total > 0
    ensures var p := Start(host, virt, r, total); Accounts(p.live, column, Drain(p).room, p.room)
  {
    var p := Start(host, virt, r, total);
    var end := Drain(p).room;
    DrainFrame(p);
    forall v | v in p.live ensures Get(column, v) + Get(end, v) == p.room[v] + Max(0, -p.room[v]) {
      ShareAndDeficit(host, virt, r, total, v);
    }
  }

  /** The plain form: with non-negative capacities exactly min(quota, total capacity) is handed out. */
  lemma SharesSumToQuotaOrCapacity(host: NodeLists, virt: NodeLists, quotas: Amounts, lists: NodeLists, r: string, caps: Amounts)
    requires Distributed(host, virt, quotas, lists) && r in quotas
    requires forall v :: v in virt ==> r !in virt[v]
    requires forall v :: v in caps <==> v in virt && v in host && r in host[v]
    requires forall v :: v in caps ==> caps[v] == host[v][r] >= 0
    ensures Total(Column(lists, r)) == Max(0, Min(quotas[r], Total(caps)))
  {
    SharesConserved(host, virt, quotas, lists, r, caps);
    NoDeficit(caps);
  }

  lemma NoDeficit(caps: Amounts)
    requires forall v :: v in caps ==> caps[v] >= 0
    ensures Total(Deficit(caps)) == 0 && Total(Surplus(caps)) == Total(caps) && Total(caps) >= 0
  {
    var part := Listing(caps.Keys);
    assert Deficit(caps).Keys == caps.Keys == Surplus(caps).Keys;
    SumAgrees(part, Deficit(caps), map[]);
    SumEmpty(part);
    SumAgrees(part, Surplus(caps), caps);
    SumNonNegative(part, caps);
  }

  /** No node is promised more than its host has, and a node without the resource is promised none. */
  lemma SharesWithinCapacity(host: NodeLists, virt: NodeLists, quotas: Amounts, lists: NodeLists, r: string, v: string)
    requires Distributed(host, virt, quotas, lists) && r in quotas && v in virt && r !in virt[v]
    ensures if v in host && r in host[v] then 0 <= Get(lists[v], r) <= Max(0, host[v][r]) else r !in lists[v]
  {
    RecordedShare(host, virt, quotas, lists, r, v);
    if Eligible(host, virt, r, v) { ShareAndDeficit(host, virt, r, quotas[r], v); }
  }

  /** Max-min fairness up to rounding: a node held below its capacity is at most one unit a cycle behind
      any other node, and behind no node that follows it in the alphabet. */
  lemma SharesFair(host: NodeLists, virt: NodeLists, quotas: Amounts, lists: NodeLists, r: string, a: string, b: string)
    requires Distributed(host, virt, quotas, lists) && r in quotas
    requires a in virt && a in host && r in host[a] && r !in virt[a]
    requires b in virt && b in host && r in host[b] && r !in virt[b]
    requires Get(lists[a], r) < host[a][r]
    ensures Get(lists[b], r) <= Get(lists[a], r) + Cycles(Start(host, virt, r, quotas[r]))
    ensures Get(lists[b], r) <= Get(lists[a], r) + |EligibleNodes(host, virt, r)|
    ensures Before(a, b) ==> Get(lists[b], r) <= Get(lists[a], r)
  {
    var p := Start(host, virt, r, quotas[r]);
    RecordedShare(host, virt, quotas, lists, r, a);
    RecordedShare(host, virt, quotas, lists, r, b);
    ShareAndDeficit(host, virt, r, quotas[r], a);
    ShareAndDeficit(host, virt, r, quotas[r], b);
    DrainFrame(p);
    var i :| 0 <= i < |p.live| && p.live[i] == a;
    var j :| 0 <= j < |p.live| && p.live[j] == b;
    Fairness(p, i, j);
    CyclesBounded(p);
    ListingSize(EligibleNodes(host, virt, r));
    if Before(a, b) { BeforeOrder(p.live, i, j); }
  }

  lemma {:induction false} ListingSize(names: set<string>)
    ensures |Listing(names)| == |names|
  {
    AscendingSize(Listing(names), names);
  }

  lemma {:induction false} AscendingSize(s: seq<string>, names: set<string>)
    requires Lists(s, names)
    ensures |s| == |names|
  {
    if s == [] {
      assert names == {};
    } else {
      HeadNotInTail(s);
      AscendingSize(s[1..], names - {s[0]});
    }
  }

  // ---------------------------------------------------------------------------------------------
  // mergeQuotas
  // ---------------------------------------------------------------------------------------------

  /** `m` is at least as restrictive as `l`; a resource missing from a list is unlimited there. */
  predicate Restricts(m: Amounts, l: Amounts) {
    forall k :: k in l ==> k in m && m[k] <= l[k]
  }

  /** The least restrictive list that is at least as restrictive as every one of `lists`. */
  ghost predicate IsMeet(lists: seq<Amounts>, m: Amounts) {
    && (forall l :: l in lists ==> Restricts(m, l))
    && (forall m' :: (forall l :: l in lists ==> Restricts(m', l)) ==> Restricts(m', m))
  }

  ghost predicate Drawn(lists: seq<Amounts>, k: string, x: int) {
    exists l :: l in lists && k in l && l[k] == x
  }

  method MergeQuotas(lists: seq<Amounts>) returns (merged: Amounts)
    ensures IsMeet(lists, merged)
  {
    merged := map[];
    for i := 0 to |lists|
      invariant forall l :: l in lists[..i] ==> Restricts(merged, l)
      invariant forall k :: k in merged ==> Drawn(lists, k, merged[k])
    {
      var list := lists[i];
      var names := list.Keys;
      while names != {}
        invariant names <= list.Keys
        invariant forall l :: l in lists[..i] ==> Restricts(merged, l)
        invariant forall k :: k in list && k !in names ==> k in merged && merged[k] <= list[k]
        invariant forall k :: k in merged ==> Drawn(lists, k, merged[k])
      {
        var resName :| resName in names;
        names := names - {resName};
        if resName !in merged || list[resName] < merged[resName] {
          assert Drawn(lists, resName, list[resName]);
          merged := merged[resName := list[resName]];
        }
      }
      assert lists[..i + 1] == lists[..i] + [list];
    }
    forall m' | forall l :: l in lists ==> Restricts(m', l) ensures Restricts(m', merged) {
      forall k | k in merged ensures k in m' && m'[k] <= merged[k] {
        assert Drawn(lists, k, merged[k]);
      }
    }
  }

  /** Neither the order nor the repetition of the lists matters. */
  lemma MergeOrderIrrelevant(lists: seq<Amounts>, lists': seq<Amounts>, m: Amounts, m': Amounts)
    requires forall l :: l in lists <==> l in lists'
    requires IsMeet(lists, m) && IsMeet(lists', m')
    ensures m == m'
  {
    assert Restricts(m, m') && Restricts(m', m);
    assert m.Keys == m'.Keys;
  }

  // ---------------------------------------------------------------------------------------------
  // filterQuotas
  // ---------------------------------------------------------------------------------------------

  const CORE_RESOURCES := {"cpu", "memory", "storage", "ephemeral-storage",
                           "requests.cpu", "requests.memory", "requests.storage", "requests.ephemeral-storage"}

  function Strip(name: string): string {
    TrimPrefix(TrimPrefix(name, "requests."), "limits.")
  }

  /** In the names themselves: requests and limits of a resource become the resource. */
  lemma StripsOnePrefix(x: string)
    requires !HasPrefix(x, "limits.") && !HasPrefix(x, "requests.")
    ensures Strip("requests." + x) == x && Strip("limits." + x) == x && Strip(x) == x
    ensures Strip("requests.limits." + x) == x && Strip("limits.requests." + x) == "requests." + x
  {
    PrefixIsTrimmed("requests.", x);
    PrefixIsTrimmed("limits.", x);
    OtherPrefixStays("limits." + x, "requests.");
    StripsTwo(x);
  }

  lemma StripsTwo(x: string)
    requires !HasPrefix(x, "limits.") && !HasPrefix(x, "requests.")
    ensures Strip("requests.limits." + x) == x && Strip("limits.requests." + x) == "requests." + x
  {
    PrefixIsTrimmed("requests.", "limits." + x);
    PrefixIsTrimmed("limits.", "requests." + x);
    PrefixIsTrimmed("limits.", x);
    OtherPrefixStays("limits.requests." + x, "requests.");
    assert "requests." + "limits." == "requests.limits." && "limits." + "requests." == "limits.requests.";
    Regrouped("requests.", "limits.", x);
    Regrouped("limits.", "requests.", x);
  }

  lemma Regrouped(a: string, b: string, c: string)
    ensures a + b + c == a + (b + c)
  {
  }

  lemma OtherPrefixStays(s: string, prefix: string)
    requires s != "" && prefix != "" && s[0] != prefix[0]
    ensures TrimPrefix(s, prefix) == s
  {
  }

  lemma PrefixIsTrimmed(prefix: string, x: string)
    ensures TrimPrefix(prefix + x, prefix) == x
  {
  }

  /** Exactly these names are dropped; `limits.cpu` and `limits.memory` are not. */
  lemma CoreResourcesAre(k: string)
    ensures k in CORE_RESOURCES <==>
      || k == "cpu" || k == "memory" || k == "storage" || k == "ephemeral-storage"
      || k == "requests.cpu" || k == "requests.memory" || k == "requests.storage" || k == "requests.ephemeral-storage"
  {
  }

  ghost predicate Enumerates(order: seq<string>, names: set<string>) {
    (forall i, j :: 0 <= i < j < |order| ==> order[i] != order[j]) && forall k :: k in order <==> k in names
  }

  /** The filtered list when Go visits the resources in the given order: of colliding names the last one wins. */
  function FilterInOrder(resources: Amounts, order: seq<string>): Amounts
    requires forall k :: k in order ==> k in resources
  {
    if order == [] then map[]
    else
      var k, before := order[|order| - 1], FilterInOrder(resources, order[..|order| - 1]);
      if k in CORE_RESOURCES then before else before[Strip(k) := resources[k]]
  }

  method FilterQuotas(resources: Amounts) returns (filtered: Amounts)
    ensures exists order :: Enumerates(order, resources.Keys) && filtered == FilterInOrder(resources, order)
  {
    filtered := map[];
    ghost var order: seq<string> := [];
    var names := resources.Keys;
    while names != {}
      invariant names <= resources.Keys && Enumerates(order, resources.Keys - names)
      invariant filtered == FilterInOrder(resources, order)
    {
      var resourceName :| resourceName in names;
      names := names - {resourceName};
      assert (order + [resourceName])[..|order|] == order;
      order := order + [resourceName];
      if resourceName !in CORE_RESOURCES {
        filtered := filtered[Strip(resourceName) := resources[resourceName]];
      }
    }
  }

  /** No two resources that survive the filter under one name have different quotas. */
  predicate NoConflict(resources: Amounts) {
    forall k, k' :: (k in resources && k' in resources && k !in CORE_RESOURCES && k' !in CORE_RESOURCES
                     && Strip(k) == Strip(k')) ==> resources[k] == resources[k']
  }

  ghost predicate Source(resources: Amounts, f: string, k: string) {
    k in resources && k !in CORE_RESOURCES && Strip(k) == f
  }

  lemma {:induction false} FilteredValues(resources: Amounts, order: seq<string>)
    requires forall k :: k in order ==> k in resources
    ensures forall k :: k in order && k !in CORE_RESOURCES ==> Strip(k) in FilterInOrder(resources, order)
    ensures forall f :: f in FilterInOrder(resources, order) ==>
              exists k :: k in order && Source(resources, f, k) && resources[k] == FilterInOrder(resources, order)[f]
  {
    if order != [] {
      var n := |order| - 1;
      var before := FilterInOrder(resources, order[..n]);
      FilteredValues(resources, order[..n]);
      forall f | f in FilterInOrder(resources, order)
        ensures exists k :: k in order && Source(resources, f, k) && resources[k] == FilterInOrder(resources, order)[f]
      {
        if order[n] in CORE_RESOURCES || f != Strip(order[n]) {
          var k :| k in order[..n] && Source(resources, f, k) && resources[k] == before[f];
          assert k in order;
        } else {
          assert Source(resources, f, order[n]);
        }
      }
      forall k | k in order && k !in CORE_RESOURCES ensures Strip(k) in FilterInOrder(resources, order) {
        assert k == order[n] || k in order[..n];
      }
    }
  }

  /** Go's map order shows through filterQuotas exactly when stripping the prefixes makes two different quotas collide. */
  lemma FilterDeterministic(resources: Amounts)
    ensures NoConflict(resources) <==>
            forall o, o' :: Enumerates(o, resources.Keys) && Enumerates(o', resources.Keys) ==>
              FilterInOrder(resources, o) == FilterInOrder(resources, o')
  {
    if NoConflict(resources) {
      forall o, o' | Enumerates(o, resources.Keys) && Enumerates(o', resources.Keys)
        ensures FilterInOrder(resources, o) == FilterInOrder(resources, o')
      {
        SameFilter(resources, o, o');
      }
    } else {
      var k, k' :| k in resources && k' in resources && k !in CORE_RESOURCES && k' !in CORE_RESOURCES
                   && Strip(k) == Strip(k') && resources[k] != resources[k'];
      LastWins(resources, k);
      LastWins(resources, k');
    }
  }

  lemma SameFilter(resources: Amounts, o: seq<string>, o': seq<string>)
    requires NoConflict(resources) && Enumerates(o, resources.Keys) && Enumerates(o', resources.Keys)
    ensures FilterInOrder(resources, o) == FilterInOrder(resources, o')
  {
    FilterAgrees(resources, o, o');
    FilterAgrees(resources, o', o);
    var m, m' := FilterInOrder(resources, o), FilterInOrder(resources, o');
    assert m.Keys == m'.Keys;
  }

  lemma FilterAgrees(resources: Amounts, o: seq<string>, o': seq<string>)
    requires NoConflict(resources) && Enumerates(o, resources.Keys) && Enumerates(o', resources.Keys)
    ensures forall f :: f in FilterInOrder(resources, o) ==>
              f in FilterInOrder(resources, o') && FilterInOrder(resources, o)[f] == FilterInOrder(resources, o')[f]
  {
    var m, m' := FilterInOrder(resources, o), FilterInOrder(resources, o');
    FilteredValues(resources, o);
    FilteredValues(resources, o');
    forall f | f in m ensures f in m' && m[f] == m'[f] {
      var k :| k in o && Source(resources, f, k) && resources[k] == m[f];
      assert k in o';
      var k' :| k' in o' && Source(resources, f, k') && resources[k'] == m'[f];
    }
  }

  /** Some visiting order ends with any given resource. */
  lemma LastWins(resources: Amounts, k: string)
    requires k in resources && k !in CORE_RESOURCES
    ensures exists o :: Enumerates(o, resources.Keys) && Strip(k) in FilterInOrder(resources, o)
                        && FilterInOrder(resources, o)[Strip(k)] == resources[k]
  {
    var before := Listing(resources.Keys - {k});
    forall i, j | 0 <= i < j < |before| ensures before[i] != before[j] { AscendingDistinct(before, i, j); }
    var o := before + [k];
    assert o[..|o| - 1] == before;
    assert Enumerates(o, resources.Keys);
    assert FilterInOrder(resources, o)[Strip(k)] == resources[k];
  }

  /** Every quota that survives the filter is respected by what stands under its name. */
  ghost predicate Tight(resources: Amounts, order: seq<string>)
    requires Enumerates(order, resources.Keys)
  {
    forall k :: k in resources && k !in CORE_RESOURCES ==>
      Strip(k) in FilterInOrder(resources, order) && FilterInOrder(resources, order)[Strip(k)] <= resources[k]
  }

  /** Of two colliding quotas the looser one wins in some order: all orders respect every quota exactly when no two
      different quotas collide. */
  lemma CollisionLosesQuota(resources: Amounts)
    ensures NoConflict(resources) <==> forall o :: Enumerates(o, resources.Keys) ==> Tight(resources, o)
  {
    if NoConflict(resources) {
      forall o | Enumerates(o, resources.Keys) ensures Tight(resources, o) { FilteredValues(resources, o); }
    } else {
      var k, k' :| k in resources && k' in resources && k !in CORE_RESOURCES && k' !in CORE_RESOURCES
                   && Strip(k) == Strip(k') && resources[k] < resources[k'];
      LastWins(resources, k');
      var o :| Enumerates(o, resources.Keys) && Strip(k') in FilterInOrder(resources, o)
               && FilterInOrder(resources, o)[Strip(k')] == resources[k'];
      assert !Tight(resources, o);
    }
  }

  // ---------------------------------------------------------------------------------------------
  // The whole pipeline
  // ---------------------------------------------------------------------------------------------

  /** One way in which the merged quota can be filtered and shared out, over nodes whose capacities are not negative. */
  ghost predicate Allotted(merged: Amounts, order: seq<string>, host: NodeLists, virt: NodeLists, m: NodeLists) {
    && Enumerates(order, merged.Keys) && Distributed(host, virt, FilterInOrder(merged, order), m)
    && (forall v :: v in virt ==> virt[v] == map[])
    && (forall v, r :: v in host && r in host[v] ==> host[v][r] >= 0)
  }

  /** In each of these ways the nodes' shares stay within every ResourceQuota of the namespace. */
  ghost predicate AlwaysWithin(lists: seq<Amounts>, merged: Amounts) {
    forall order, host, virt, m {:trigger Allotted(merged, order, host, virt, m)} :: Allotted(merged, order, host, virt, m) ==>
      forall l, k :: l in lists && k in l && k !in CORE_RESOURCES ==> Total(Column(m, Strip(k))) <= Max(0, l[k])
  }

  /** Quotas that end under one name allow the same; a quota below zero allows nothing. */
  predicate NoLooser(resources: Amounts) {
    forall k, k' :: (k in resources && k' in resources && k !in CORE_RESOURCES && k' !in CORE_RESOURCES
                     && Strip(k) == Strip(k')) ==> Max(0, resources[k]) == Max(0, resources[k'])
  }

  /** The merged value of a resource is that of one of the lists. */
  lemma MeetIsDrawn(lists: seq<Amounts>, m: Amounts, k: string)
    requires IsMeet(lists, m) && k in m
    ensures exists l :: l in lists && k in l && l[k] == m[k]
  {
    if forall l :: l in lists && k in l ==> l[k] != m[k] {
      var m' := m[k := m[k] + 1];
      assert !Restricts(m', m);
      forall l | l in lists ensures Restricts(m', l) { assert Restricts(m, l); }
    }
  }

  lemma WithinOneQuota(lists: seq<Amounts>, merged: Amounts, order: seq<string>, host: NodeLists, virt: NodeLists,
                       m: NodeLists, l: Amounts, k: string)
    requires IsMeet(lists, merged) && NoLooser(merged) && Allotted(merged, order, host, virt, m)
    requires l in lists && k in l && k !in CORE_RESOURCES
    ensures Total(Column(m, Strip(k))) <= Max(0, l[k])
  {
    var quotas, r := FilterInOrder(merged, order), Strip(k);
    assert Restricts(merged, l);
    FilteredValues(merged, order);
    var k' :| k' in order && Source(merged, r, k') && merged[k'] == quotas[r];
    SharesSumToQuotaOrCapacity(host, virt, quotas, m, r, Capacities(host, virt, r));
  }

  /** A single node with enough of a resource gets its whole quota. */
  lemma OneNodeGetsAll(merged: Amounts, order: seq<string>, f: string) returns (host: NodeLists, virt: NodeLists, m: NodeLists)
    requires Enumerates(order, merged.Keys) && f in FilterInOrder(merged, order) && FilterInOrder(merged, order)[f] > 0
    ensures Allotted(merged, order, host, virt, m)
    ensures Total(Column(m, f)) == FilterInOrder(merged, order)[f]
  {
    var quotas := FilterInOrder(merged, order);
    var q := quotas[f];
    host, virt := map["node" := map[f := q]], map["node" := map[]];
    m := map["node" := AddShare(map[], f, Share(host, virt, f, q, "node"))];
    OneNodeDistributed(host, virt, quotas, f, m);
    OneNodeColumn(host, virt, quotas, f, m);
  }

  lemma OneNodeDistributed(host: NodeLists, virt: NodeLists, quotas: Amounts, f: string, m: NodeLists)
    requires f in quotas && host == map["node" := map[f := quotas[f]]] && virt == map["node" := map[]]
    requires m == map["node" := AddShare(map[], f, Share(host, virt, f, quotas[f], "node"))]
    ensures Distributed(host, virt, quotas, m)
  {
    OneNodeSettled(host, virt, quotas, f, m["node"]);
  }

  lemma OneNodeColumn(host: NodeLists, virt: NodeLists, quotas: Amounts, f: string, m: NodeLists)
    requires f in quotas && quotas[f] > 0 && Distributed(host, virt, quotas, m)
    requires host == map["node" := map[f := quotas[f]]] && virt == map["node" := map[]]
    ensures Total(Column(m, f)) == quotas[f]
  {
    SharesSumToQuotaOrCapacity(host, virt, quotas, m, f, map["node" := quotas[f]]);
    OneNodeTotal(map["node" := quotas[f]], quotas[f]);
  }

  lemma OneNodeTotal(caps: Amounts, q: int)
    requires caps == map["node" := q]
    ensures Sum(Listing(caps.Keys), caps) == q
  {
    ListingUnique(Listing(caps.Keys), ["node"]);
    assert ["node"][1..] == [];
    assert Sum(["node"], caps) == q + Sum([], caps);
  }

  lemma OneNodeSettled(host: NodeLists, virt: NodeLists, quotas: Amounts, f: string, list: Amounts)
    requires f in quotas && host == map["node" := map[f := quotas[f]]] && virt == map["node" := map[]]
    requires list == AddShare(map[], f, Share(host, virt, f, quotas[f], "node"))
    ensures Settled(host, virt, quotas, "node", list)
  {
    var filled := Filled(host, virt, quotas, "node");
    assert filled == map[];
    forall r | r in quotas ensures Recorded(filled, list, r, Share(host, virt, r, quotas[r], "node")) {
      if r != f { assert !Eligible(host, virt, r, "node"); }
    }
  }

  /** The nodes' shares of every resource stay within every ResourceQuota of the namespace, in every order of the maps
      and on all nodes, exactly when no two resources that end under one name allow different amounts. */
  lemma SharesWithinEveryQuota(lists: seq<Amounts>, merged: Amounts)
    requires IsMeet(lists, merged)
    ensures AlwaysWithin(lists, merged) <==> NoLooser(merged)
  {
    if NoLooser(merged) {
      forall order, host, virt, m, l, k | Allotted(merged, order, host, virt, m) && l in lists && k in l && k !in CORE_RESOURCES
        ensures Total(Column(m, Strip(k))) <= Max(0, l[k])
      {
        WithinOneQuota(lists, merged, order, host, virt, m, l, k);
      }
    } else {
      var k, k' :| k in merged && k' in merged && k !in CORE_RESOURCES && k' !in CORE_RESOURCES
                   && Strip(k) == Strip(k') && Max(0, merged[k]) < Max(0, merged[k']);
      LastWins(merged, k');
      var o :| Enumerates(o, merged.Keys) && Strip(k') in FilterInOrder(merged, o)
               && FilterInOrder(merged, o)[Strip(k')] == merged[k'];
      var host, virt, m := OneNodeGetsAll(merged, o, Strip(k'));
      MeetIsDrawn(lists, merged, k);
      var l :| l in lists && k in l && l[k] == merged[k];
      assert Total(Column(m, Strip(k))) > Max(0, l[k]);
    }
  }

  /** In the names themselves: a quota on a resource, on its requests or on its limits is kept, if it is not a core one. */
  lemma QuotaLimits(lists: seq<Amounts>, merged: Amounts, order: seq<string>, host: NodeLists, virt: NodeLists, m: NodeLists,
                    l: Amounts, x: string, name: string)
    requires IsMeet(lists, merged) && NoLooser(merged) && Allotted(merged, order, host, virt, m)
    requires !HasPrefix(x, "limits.") && !HasPrefix(x, "requests.")
    requires name == x || name == "requests." + x || name == "limits." + x
    requires l in lists && name in l && name !in CORE_RESOURCES
    ensures Total(Column(m, x)) <= Max(0, l[name])
  {
    StripsOnePrefix(x);
    WithinOneQuota(lists, merged, order, host, virt, m, l, name);
  }

  /** updateNodeCapacity: the node's share overlays what its host reports. */
  method UpdateNodeCapacity(nodeAllocatable: Amounts, quotas: seq<Amounts>, virtualNodes: set<string>, hostNodes: NodeLists, node: string)
    returns (allocatable: Amounts, ghost merged: Amounts, ghost order: seq<string>, ghost shares: NodeLists)
    ensures quotas == [] || node !in virtualNodes ==> allocatable == nodeAllocatable
    // a resource that no quota is left for keeps the host's value
    ensures quotas != [] && node in virtualNodes && node in hostNodes ==>
      forall r :: r in hostNodes[node] && (forall k :: k in merged && k !in CORE_RESOURCES ==> Strip(k) != r) ==>
        r in allocatable && allocatable[r] == hostNodes[node][r]
    ensures quotas != [] ==>
              && IsMeet(quotas, merged) && Enumerates(order, merged.Keys)
              && Distributed(map v | v in hostNodes && v in virtualNodes :: hostNodes[v], map v | v in virtualNodes :: map[],
                             FilterInOrder(merged, order), shares)
              && allocatable == if node in shares then nodeAllocatable + shares[node] else nodeAllocatable
  {
    allocatable, merged, order, shares := nodeAllocatable, map[], [], map[];
    if |quotas| > 0 {
      var virtResourceMap: NodeLists := map v | v in virtualNodes :: map[];
      var hostResourceMap: NodeLists := map v | v in hostNodes && v in virtualNodes :: hostNodes[v];
      var mergedQuota := MergeQuotas(quotas);
      var filtered := FilterQuotas(mergedQuota);
      ghost var visited :| Enumerates(visited, mergedQuota.Keys) && filtered == FilterInOrder(mergedQuota, visited);
      var m := DistributeQuotas(hostResourceMap, virtResourceMap, filtered);
      merged, order, shares := mergedQuota, visited, m;
      if node in m {
        allocatable := allocatable + m[node];
        FilteredValues(mergedQuota, visited);
        forall r | node in hostNodes && r in hostNodes[node] && r !in filtered
          ensures r in allocatable && allocatable[r] == hostNodes[node][r]
        {
          Advertised(nodeAllocatable, virtualNodes, hostNodes, filtered, m, node, r);
        }
      }
    }
  }

  /** What a virtual node advertises, resource by resource: its host's value where there is no quota, its share where there
      is a positive one, and otherwise what the node's own host reports. `quotas` are the filtered ones. */
  lemma Advertised(nodeAllocatable: Amounts, virtualNodes: set<string>, hostNodes: NodeLists, quotas: Amounts, shares: NodeLists,
                   node: string, r: string)
    requires Distributed(map v | v in hostNodes && v in virtualNodes :: hostNodes[v], map v | v in virtualNodes :: map[], quotas, shares)
    requires node in virtualNodes
    ensures node in shares
    ensures var list := nodeAllocatable + shares[node];
      if r !in quotas && node in hostNodes && r in hostNodes[node] then r in list && list[r] == hostNodes[node][r]
      else if r in quotas && r in shares[node] then r in list && list[r] == shares[node][r] && list[r] > 0
      else (r in list <==> r in nodeAllocatable) && (r in nodeAllocatable ==> list[r] == nodeAllocatable[r])
  {
    var host: NodeLists := map v | v in hostNodes && v in virtualNodes :: hostNodes[v];
    var virt: NodeLists := map v | v in virtualNodes :: map[];
    if r in quotas { InsideTheQuota(host, virt, quotas, shares, node, r); }
    else { OutsideTheQuota(host, virt, quotas, shares, node, r); }
  }

  /** After the overlay a node advertises exactly its share, unless the share is zero while its host has some:
      then the host's value stays, however small the quota. */
  lemma OverlayAdvertisesShare(host: NodeLists, virt: NodeLists, quotas: Amounts, m: NodeLists, r: string, node: string)
    requires Distributed(host, virt, quotas, m) && r in quotas
    requires node in virt && virt[node] == map[] && node in host
    ensures (Get(host[node] + m[node], r) == Max(0, Share(host, virt, r, quotas[r], node))) <==>
            (Share(host, virt, r, quotas[r], node) > 0 || Get(host[node], r) == 0)
  {
    RecordedShare(host, virt, quotas, m, r, node);
  }
}
