/** How a cluster comes to know its kubelet port: the allocated port must reach the cluster's status, as the release
    compares the two. Over which runs it does, what an outdated read of the port map does to it, and what becomes of a
    cluster that is deleted before its port has been stored. */
module ClusterPorts {
  import opened Basics
  import opened ClusterLifecycle
  import opened ClusterLeaks
  import Ports

  /** This port is the one that the map has for the cluster. */
  predicate Knows(s: State, j: Key, port: int) {
    PortKeyOf(j) in s.ports.ports && s.ports.ports[PortKeyOf(j)] == port
  }

  // ---------------------------------------------------------------------------------------------
  // The two calls that learn the port
  // ---------------------------------------------------------------------------------------------

  /** The same copy but for the port, on the way to the bindings. */
  predicate Learned(w: Worker, w': Worker, port: int) {
    && w'.at == BindRead(KubeletNode, false) && w'.orig == w.orig && w'.copy.status.port == port
    && w'.copy.version == w.copy.version && SameMeta(w'.copy, w.copy)
    && w'.copy.status.phase == w.copy.status.phase && w'.copy.status.ready == w.copy.status.ready
  }

  /** An accepted allocation puts the port both into the map and on the worker's copy. */
  lemma AllocationTells(s: State, k: Key, o: Outcome, subjectOf: Key -> Subject)
    requires k in s.workers && s.workers[k].at.AllocWrite? && s.portsVersion == s.workers[k].at.seen && !o.refused && !o.lost
    ensures var t, port := Called(s, k, o, subjectOf), s.workers[k].at.next;
      Knows(t, k, port) && k in t.workers && Learned(s.workers[k], t.workers[k], port)
  {
  }

  /** A read that finds the key tells what is in the version that was read. */
  lemma ReadTells(s: State, k: Key, o: Outcome, subjectOf: Key -> Subject)
    requires k in s.workers && s.workers[k].at.AllocRead? && !o.refused
    requires PortKeyOf(k) in ServedPorts(s, o.back).ports.ports
    ensures var t := Called(s, k, o, subjectOf);
      k in t.workers && Learned(s.workers[k], t.workers[k], ServedPorts(s, o.back).ports.ports[PortKeyOf(k)])
  {
  }

  /** The allocation's read serves a version in which the cluster has a port that it does not have any more. */
  predicate Misled(s: State, k: Key, a: Action) {
    && a.Call? && k in s.workers && s.workers[k].at.AllocRead? && !a.outcome.refused
    && var read := ServedPorts(s, a.outcome.back).ports.ports;
       PortKeyOf(k) in read && !Knows(s, k, read[PortKeyOf(k)])
  }

  // ---------------------------------------------------------------------------------------------
  // What a worker knows of its port
  // ---------------------------------------------------------------------------------------------

  predicate PastAlloc(at: Pc) {
    at.BindRead? || at.BindWrite? || (at.SaveStatus? && at.error == NoError) || at.SaveSpec?
  }

  /** Past the allocation a mirroring cluster's worker knows the port. A current copy has the port of the stored status
      unless it knows better. */
  predicate Tells(s: State, j: Key, w: Worker) {
    && (w.at.AllocRead? || w.at.AllocWrite? ==> Mirrors(w.copy))
    && (Mirrors(w.copy) && PastAlloc(w.at) ==> Knows(s, j, w.copy.status.port))
    && (Current(s, j, w) ==>
          && (w.copy.status.port == s.clusters[j].status.port || (Provisions(w.at) && Mirrors(w.copy) && Knows(s, j, w.copy.status.port)))
          && (!w.at.SaveSpec? ==> w.orig == s.clusters[j].status))
  }

  predicate TellsPort(s: State, j: Key) {
    j in s.workers ==> Tells(s, j, s.workers[j])
  }

  /** Only the cluster's own calls touch its entry of the map. */
  lemma OthersLeaveEntry(s: State, k: Key, a: Action, subjectOf: Key -> Subject, j: Key)
    requires Inv(s, subjectOf) && (j != k || !a.Call?)
    ensures var t, key := Next(s, k, a, subjectOf), PortKeyOf(j);
      (key in t.ports.ports <==> key in s.ports.ports) && (key in s.ports.ports ==> t.ports.ports[key] == s.ports.ports[key])
  {
    if a.Call? && k in s.workers {
      CallPorts(s, k, a.outcome, subjectOf, PortKeyOf(j));
      if PortKeyOf(j) == PortKeyOf(k) { SameKey(j, k); }
    }
  }

  /** A call that writes neither the cluster nor the ports. */
  lemma QuietCallTells(s: State, k: Key, w: Worker, e: Effect, subjectOf: Key -> Subject)
    requires Tells(s, k, w) && e.next.Some? && (e.touch.Nothing? || e.touch.ReadPorts? || e.touch.ReadBinding? || e.touch.WriteBinding?)
    requires var w' := e.next.value;
      && w'.copy.version == w.copy.version && w'.copy.status.port == w.copy.status.port && w'.orig == w.orig
      && Mirrors(w'.copy) == Mirrors(w.copy) && !w.at.SaveSpec? && !w'.at.SaveSpec?
      && !w'.at.AllocWrite? && (w'.at.AllocRead? ==> Mirrors(w.copy))
      && (Mirrors(w.copy) && PastAlloc(w'.at) ==> PastAlloc(w.at)) && (Provisions(w.at) ==> Provisions(w'.at))
    ensures Tells(Performed(s, k, e), k, e.next.value)
  {
    TouchLeavesClusters(s, k, e.touch);
    assert Touched(s, k, e.touch).ports == s.ports;
  }

  lemma EarlyCallsTell(s: State, k: Key, w: Worker, o: Outcome, subjectOf: Key -> Subject)
    requires Tells(s, k, w) && w.at.Begin?
    ensures var e := AtBegin(s, k, w, o); e.next.Some? ==> Tells(Performed(s, k, e), k, e.next.value)
  {
    var e := AtBegin(s, k, w, o);
    if e.next.Some? { QuietCallTells(s, k, w, e, subjectOf); }
  }

  lemma AllocReadTellsWorker(s: State, k: Key, w: Worker, o: Outcome, subjectOf: Key -> Subject)
    requires Tells(s, k, w) && w.at.AllocRead? && k in s.workers && s.workers[k] == w && !Misled(s, k, Call(o))
    ensures var e := AtAllocRead(s, k, w, o); e.next.Some? ==> Tells(Performed(s, k, e), k, e.next.value)
  {
  }

  lemma AllocWriteTellsWorker(s: State, k: Key, w: Worker, o: Outcome, subjectOf: Key -> Subject)
    requires Tells(s, k, w) && w.at.AllocWrite? && WorkerOk(s, k, w, subjectOf)
    ensures var e := AtAllocWrite(s, k, w, o); e.next.Some? ==> Tells(Performed(s, k, e), k, e.next.value)
  {
  }

  lemma BindCallsTell(s: State, k: Key, w: Worker, o: Outcome, subjectOf: Key -> Subject)
    requires Tells(s, k, w) && (w.at.BindRead? || w.at.BindWrite?)
    ensures var e := EffectOf(s, k, w, o, subjectOf); e.next.Some? ==> Tells(Performed(s, k, e), k, e.next.value)
  {
    QuietCallTells(s, k, w, EffectOf(s, k, w, o, subjectOf), subjectOf);
  }

  lemma SaveStatusTells(s: State, k: Key, w: Worker, o: Outcome, subjectOf: Key -> Subject)
    requires Tells(s, k, w) && w.at.SaveStatus?
    ensures var e := AtSaveStatus(s, k, w, o); e.next.Some? ==> Tells(Performed(s, k, e), k, e.next.value)
  {
  }

  lemma FinalizationTells(s: State, k: Key, w: Worker, o: Outcome, subjectOf: Key -> Subject)
    requires Tells(s, k, w) && Finalizes(w.at)
    ensures var e := EffectOf(s, k, w, o, subjectOf); e.next.Some? ==> Tells(Performed(s, k, e), k, e.next.value)
  {
    var e := EffectOf(s, k, w, o, subjectOf);
    if e.next.Some? && !e.touch.WritePorts? { QuietCallTells(s, k, w, e, subjectOf); }
  }

  lemma CallTells(s: State, k: Key, o: Outcome, subjectOf: Key -> Subject)
    requires Inv(s, subjectOf) && TellsPort(s, k) && !Misled(s, k, Call(o))
    ensures TellsPort(Called(s, k, o, subjectOf), k)
  {
    if k in s.workers {
      var w := s.workers[k];
      assert WorkerOk(s, k, w, subjectOf);
      if w.at.Begin? { EarlyCallsTell(s, k, w, o, subjectOf); }
      else if w.at.AllocRead? { AllocReadTellsWorker(s, k, w, o, subjectOf); }
      else if w.at.AllocWrite? { AllocWriteTellsWorker(s, k, w, o, subjectOf); }
      else if w.at.BindRead? || w.at.BindWrite? { BindCallsTell(s, k, w, o, subjectOf); }
      else if w.at.SaveStatus? { SaveStatusTells(s, k, w, o, subjectOf); }
      else if Finalizes(w.at) { FinalizationTells(s, k, w, o, subjectOf); }
    }
  }

  lemma UserTells(s: State, k: Key, a: Action, subjectOf: Key -> Subject)
    requires Inv(s, subjectOf) && TellsPort(s, k) && !a.Call?
    ensures TellsPort(Next(s, k, a, subjectOf), k)
  {
    assert CacheOk(s, k);
    if k in s.workers { assert WorkerOk(s, k, s.workers[k], subjectOf); }
    if a.Start? { StartTells(s, k, a.age, subjectOf); }
  }

  lemma StartTells(s: State, k: Key, age: nat, subjectOf: Key -> Subject)
    requires Inv(s, subjectOf) && TellsPort(s, k)
    ensures TellsPort(Started(s, k, age), k)
  {
    assert CacheOk(s, k);
    var rest := Caught(Older(s, k), age);
    if rest != [] { assert rest[0] in Older(s, k) by { CaughtIsEnd(Older(s, k), age); } }
  }

  /** Every step keeps what a worker knows, except a read that misleads it. */
  lemma NextTells(s: State, k: Key, a: Action, subjectOf: Key -> Subject, j: Key)
    requires Inv(s, subjectOf) && TellsPort(s, j) && (j == k ==> !Misled(s, k, a))
    ensures TellsPort(Next(s, k, a, subjectOf), j)
  {
    if j != k {
      OthersStay(s, k, a, subjectOf, j);
      OthersLeaveEntry(s, k, a, subjectOf, j);
    } else if a.Call? {
      CallTells(s, k, a.outcome, subjectOf);
    } else {
      UserTells(s, k, a, subjectOf);
    }
  }

  /** A read misleads exactly when the worker then goes on to the bindings with a port that is not the map's. */
  lemma MisledExactly(s: State, k: Key, o: Outcome, subjectOf: Key -> Subject)
    requires k in s.workers && s.workers[k].at.AllocRead?
    ensures var t := Called(s, k, o, subjectOf);
      Misled(s, k, Call(o)) <==>
        k in t.workers && t.workers[k].at.BindRead? && !Knows(t, k, t.workers[k].copy.status.port)
  {
  }

  // ---------------------------------------------------------------------------------------------
  // What the cluster's status says of the port
  // ---------------------------------------------------------------------------------------------

  /** The stored status has the port that the map has. */
  predicate Matched(s: State, j: Key) {
    j in s.clusters && Knows(s, j, s.clusters[j].status.port)
  }

  /** The end of a successful reconciliation of a mirroring cluster: the port is stored, or was before. */
  lemma SavingTells(s: State, k: Key, o: Outcome, subjectOf: Key -> Subject)
    requires TellsPort(s, k) && k in s.workers && s.workers[k].at == SaveStatus(NoError)
    requires Mirrors(s.workers[k].copy) && Current(s, k, s.workers[k])
    requires !o.refused || UpdateStatus(s.workers[k].copy, NoError) == s.workers[k].orig
    ensures Matched(Called(s, k, o, subjectOf), k)
  {
  }

  /** A call that writes no new status leaves the stored one. */
  predicate KeepsStatus(s: State, k: Key, touch: Touch) {
    touch.WriteCluster? ==> k in s.clusters && touch.cluster.status == s.clusters[k].status
  }

  lemma StatusKept(s: State, k: Key, w: Worker, o: Outcome, subjectOf: Key -> Subject)
    requires WorkerOk(s, k, w, subjectOf) && !w.at.SaveStatus?
    ensures var touch := EffectOf(s, k, w, o, subjectOf).touch;
      KeepsStatus(s, k, touch) || (w.at.Begin? && Current(s, k, w) && touch.WriteCluster? &&
        touch.cluster.status.phase.Provisioning? && touch.cluster.status.port == w.copy.status.port)
  {
    match w.at
    case Begin =>
    case SaveSpec =>
    case RemoveFinalizer =>
    case _ =>
  }

  lemma TouchedStatus(s: State, k: Key, touch: Touch)
    requires k in Touched(s, k, touch).clusters
    ensures var c := Touched(s, k, touch).clusters[k];
      && (touch.WriteCluster? ==> c.status == touch.cluster.status)
      && (KeepsStatus(s, k, touch) ==> k in s.clusters && c.status == s.clusters[k].status)
  {
    if !touch.WriteCluster? && !touch.DropCluster? { TouchLeavesClusters(s, k, touch); }
  }

  /** A call stores the port that was stored, or the one that the map has. */
  lemma StoredPort(s: State, k: Key, w: Worker, o: Outcome, subjectOf: Key -> Subject)
    requires k in s.workers && w == s.workers[k] && WorkerOk(s, k, w, subjectOf) && Tells(s, k, w)
    requires k in Called(s, k, o, subjectOf).clusters
    ensures var port := Called(s, k, o, subjectOf).clusters[k].status.port;
      k in s.clusters && (port == s.clusters[k].status.port || Knows(s, k, port))
  {
    var touch := EffectOf(s, k, w, o, subjectOf).touch;
    TouchedStatus(s, k, touch);
    if !w.at.SaveStatus? { StatusKept(s, k, w, o, subjectOf); }
  }

  /** The phase that a reconciliation ends with is stored, whether it is written now or was there before. */
  lemma SavingReports(s: State, k: Key, o: Outcome, subjectOf: Key -> Subject)
    requires TellsPort(s, k) && k in s.workers && s.workers[k].at.SaveStatus? && !s.workers[k].copy.deleting
    requires Current(s, k, s.workers[k])
    requires !o.refused || UpdateStatus(s.workers[k].copy, s.workers[k].at.error) == s.workers[k].orig
    ensures var t, error := Called(s, k, o, subjectOf), s.workers[k].at.error;
      k in t.clusters && t.clusters[k].status.phase ==
        (match error case NoError => Ready case Validation => Pending case ServerNotReady => Provisioning case Other => Failed)
  {
  }

  lemma CallKeepsMatch(s: State, k: Key, o: Outcome, subjectOf: Key -> Subject)
    requires Inv(s, subjectOf) && TellsPort(s, k) && Matched(s, k) && k in s.workers
    ensures var t := Called(s, k, o, subjectOf); PortKeyOf(k) in t.ports.ports && k in t.clusters ==> Matched(t, k)
  {
    CallPorts(s, k, o, subjectOf, PortKeyOf(k));
    assert WorkerOk(s, k, s.workers[k], subjectOf);
    if k in Called(s, k, o, subjectOf).clusters { StoredPort(s, k, s.workers[k], o, subjectOf); }
  }

  /** Whatever happens, it does so for as long as the cluster is there and has the port. */
  lemma NextKeepsMatch(s: State, k: Key, a: Action, subjectOf: Key -> Subject, j: Key)
    requires Inv(s, subjectOf) && TellsPort(s, j) && Matched(s, j)
    ensures var t := Next(s, k, a, subjectOf); PortKeyOf(j) in t.ports.ports && j in t.clusters ==> Matched(t, j)
  {
    if j != k {
      OthersStay(s, k, a, subjectOf, j);
      OthersLeaveEntry(s, k, a, subjectOf, j);
    } else if a.Call? && k in s.workers {
      CallKeepsMatch(s, k, a.outcome, subjectOf);
    }
  }

  /** A Ready cluster that mirrors, and is not being deleted, has its port in its status. */
  predicate ReadyTells(s: State, j: Key) {
    j in s.clusters && s.clusters[j].status.phase.Ready? && Mirrors(s.clusters[j]) && !s.clusters[j].deleting ==> Matched(s, j)
  }

  /** An edit switches the cluster's use of a pool port on; until the next reconciliation it has none. */
  predicate SwitchesOn(s: State, k: Key, a: Action) {
    a.Edit? && k in s.clusters && !Mirrors(s.clusters[k]) && a.newMode == Shared && a.newMirror
  }

  /** Only the end of a successful reconciliation makes a cluster Ready. */
  lemma BecomesReady(s: State, k: Key, w: Worker, o: Outcome, subjectOf: Key -> Subject)
    requires k in s.workers && w == s.workers[k] && WorkerOk(s, k, w, subjectOf)
    requires var t := Called(s, k, o, subjectOf); k in t.clusters && t.clusters[k].status.phase.Ready?
    ensures var t := Called(s, k, o, subjectOf);
      || (w.at == SaveStatus(NoError) && Current(s, k, w) && t.clusters[k].status.port == w.copy.status.port && t.ports == s.ports)
      || (k in s.clusters && s.clusters[k].status == t.clusters[k].status)
  {
    var touch := EffectOf(s, k, w, o, subjectOf).touch;
    TouchedStatus(s, k, touch);
    if !w.at.SaveStatus? { StatusKept(s, k, w, o, subjectOf); }
  }

  /** A call changes neither whether the cluster mirrors nor whether it is being deleted. */
  lemma SameUse(s: State, k: Key, o: Outcome, subjectOf: Key -> Subject)
    requires Inv(s, subjectOf) && k in s.workers && k in Called(s, k, o, subjectOf).clusters
    ensures k in s.clusters && var c, d := s.clusters[k], Called(s, k, o, subjectOf).clusters[k];
      Mirrors(c) == Mirrors(d) && c.deleting == d.deleting
  {
    CallOk(s, k, o, subjectOf);
    var e := EffectOf(s, k, s.workers[k], o, subjectOf);
    if !e.touch.WriteCluster? && !e.touch.DropCluster? { TouchLeavesClusters(s, k, e.touch); }
  }

  lemma CallReady(s: State, k: Key, o: Outcome, subjectOf: Key -> Subject)
    requires Inv(s, subjectOf) && StatusInv(s) && TellsPort(s, k) && ReadyTells(s, k) && k in s.workers
    ensures ReadyTells(Called(s, k, o, subjectOf), k)
  {
    var w, t := s.workers[k], Called(s, k, o, subjectOf);
    if k in t.clusters && t.clusters[k].status.phase.Ready? && Mirrors(t.clusters[k]) && !t.clusters[k].deleting {
      assert WorkerOk(s, k, w, subjectOf);
      BecomesReady(s, k, w, o, subjectOf);
      SameUse(s, k, o, subjectOf);
      if s.clusters[k].status == t.clusters[k].status {
        PortKeptUntilDeletion(s, k, Call(o), subjectOf, k);
        CallKeepsMatch(s, k, o, subjectOf);
      }
    }
  }

  lemma NextKeepsReady(s: State, k: Key, a: Action, subjectOf: Key -> Subject, j: Key)
    requires Inv(s, subjectOf) && StatusInv(s) && TellsPort(s, j) && ReadyTells(s, j) && (j == k ==> !SwitchesOn(s, k, a))
    ensures ReadyTells(Next(s, k, a, subjectOf), j)
  {
    if j != k {
      OthersStay(s, k, a, subjectOf, j);
      OthersLeaveEntry(s, k, a, subjectOf, j);
    } else if a.Call? && k in s.workers {
      CallReady(s, k, a.outcome, subjectOf);
    }
  }

  // ---------------------------------------------------------------------------------------------
  // Whole runs
  // ---------------------------------------------------------------------------------------------

  /** No read misleads a reconciliation of this cluster. */
  ghost predicate InformedRun(s: State, run: seq<Event>, subjectOf: Key -> Subject, j: Key)
    decreases |run|
  {
    run != [] ==>
      && (run[0].key == j ==> !Misled(s, j, run[0].action))
      && InformedRun(Next(s, run[0].key, run[0].action, subjectOf), run[1..], subjectOf, j)
  }

  /** No edit switches this cluster's use of a pool port on. */
  ghost predicate SettledRun(s: State, run: seq<Event>, subjectOf: Key -> Subject, j: Key)
    decreases |run|
  {
    run != [] ==>
      && (run[0].key == j ==> !SwitchesOn(s, j, run[0].action))
      && SettledRun(Next(s, run[0].key, run[0].action, subjectOf), run[1..], subjectOf, j)
  }

  lemma {:induction false} RunTells(s: State, run: seq<Event>, subjectOf: Key -> Subject, j: Key)
    requires Inv(s, subjectOf) && TellsPort(s, j) && InformedRun(s, run, subjectOf, j)
    ensures TellsPort(After(s, run, subjectOf), j)
    decreases |run|
  {
    if run != [] {
      var e := run[0];
      NextKeeps(s, e.key, e.action, subjectOf);
      NextTells(s, e.key, e.action, subjectOf, j);
      RunTells(Next(s, e.key, e.action, subjectOf), run[1..], subjectOf, j);
    }
  }

  lemma {:induction false} RunKeepsReady(s: State, run: seq<Event>, subjectOf: Key -> Subject, j: Key)
    requires Inv(s, subjectOf) && StatusInv(s) && TellsPort(s, j) && ReadyTells(s, j)
    requires InformedRun(s, run, subjectOf, j) && SettledRun(s, run, subjectOf, j)
    ensures ReadyTells(After(s, run, subjectOf), j)
    decreases |run|
  {
    if run != [] {
      var e := run[0];
      NextKeeps(s, e.key, e.action, subjectOf);
      NextKeepsStatus(s, e.key, e.action, subjectOf);
      NextTells(s, e.key, e.action, subjectOf, j);
      NextKeepsReady(s, e.key, e.action, subjectOf, j);
      RunKeepsReady(Next(s, e.key, e.action, subjectOf), run[1..], subjectOf, j);
    }
  }

  /** From the installation on, over every run whose reads mislead no reconciliation of the cluster: past the allocation
      its worker has the map's port on its copy, and the end of a successful reconciliation stores it. */
  lemma AllocatedPortIsStored(s: State, run: seq<Event>, subjectOf: Key -> Subject, j: Key, o: Outcome)
    requires Initial(s) && InformedRun(s, run, subjectOf, j)
    ensures var t := After(s, run, subjectOf);
      j in t.workers && Mirrors(t.workers[j].copy) ==>
        var w := t.workers[j];
        && (w.at.BindRead? || w.at.BindWrite? || w.at == SaveStatus(NoError) ==> Knows(t, j, w.copy.status.port))
        && (w.at == SaveStatus(NoError) && Current(t, j, w) && !o.refused ==> Matched(Called(t, j, o, subjectOf), j))
  {
    InitialInv(s, subjectOf);
    RunTells(s, run, subjectOf, j);
    var t := After(s, run, subjectOf);
    if j in t.workers && t.workers[j].at == SaveStatus(NoError) && Mirrors(t.workers[j].copy) && Current(t, j, t.workers[j]) && !o.refused {
      SavingTells(t, j, o, subjectOf);
    }
  }

  /** If, moreover, nobody switches the use of a port on later: the status of a Ready cluster that mirrors, and is not being
      deleted, has the port that the map has. */
  lemma ReadyClusterHasItsPort(s: State, run: seq<Event>, subjectOf: Key -> Subject, j: Key)
    requires Initial(s) && InformedRun(s, run, subjectOf, j) && SettledRun(s, run, subjectOf, j)
    ensures var t := After(s, run, subjectOf);
      j in t.clusters && t.clusters[j].status.phase.Ready? && Mirrors(t.clusters[j]) && !t.clusters[j].deleting ==>
        PortKeyOf(j) in t.ports.ports && t.ports.ports[PortKeyOf(j)] == t.clusters[j].status.port
  {
    InitialInv(s, subjectOf);
    RunKeepsReady(s, run, subjectOf, j);
  }

  /** A Ready mirroring cluster of which this can be said. */
  ghost predicate Serves(s: State, run: seq<Event>, subjectOf: Key -> Subject, j: Key) {
    && InformedRun(s, run, subjectOf, j) && SettledRun(s, run, subjectOf, j)
    && var t := After(s, run, subjectOf);
       j in t.clusters && t.clusters[j].status.phase.Ready? && Mirrors(t.clusters[j]) && !t.clusters[j].deleting
  }

  /** No two of them show the same port, and every port they show is of the configured range. */
  lemma ReadyClustersShareNoPort(s: State, run: seq<Event>, subjectOf: Key -> Subject, i: Key, j: Key)
    requires Initial(s) && i != j && Serves(s, run, subjectOf, i) && Serves(s, run, subjectOf, j)
    ensures var t := After(s, run, subjectOf);
      t.clusters[i].status.port != t.clusters[j].status.port && t.ports.range.Holds(t.clusters[i].status.port)
  {
    InitialInv(s, subjectOf);
    RunKeeps(s, run, subjectOf);
    ReadyClusterHasItsPort(s, run, subjectOf, i);
    ReadyClusterHasItsPort(s, run, subjectOf, j);
    if PortKeyOf(i) == PortKeyOf(j) { SameKey(i, j); }
  }

  // ---------------------------------------------------------------------------------------------
  // Outdated reads
  // ---------------------------------------------------------------------------------------------

  /** The versions of the port map that can still be read say nothing else of this cluster than the present one. */
  ghost predicate OldPortsAgree(s: State, j: Key) {
    forall p :: p in s.olderPorts && PortKeyOf(j) in p.ports.ports ==> Knows(s, j, p.ports.ports[PortKeyOf(j)])
  }

  lemma NextKeepsAgreement(s: State, k: Key, a: Action, subjectOf: Key -> Subject, j: Key)
    requires Inv(s, subjectOf) && OldPortsAgree(s, j)
    requires PortKeyOf(j) in s.ports.ports ==> PortKeyOf(j) in Next(s, k, a, subjectOf).ports.ports
    ensures OldPortsAgree(Next(s, k, a, subjectOf), j)
  {
    if a.Call? && k in s.workers {
      CallPorts(s, k, a.outcome, subjectOf, PortKeyOf(j));
      TouchKeepsAgreement(s, k, EffectOf(s, k, s.workers[k], a.outcome, subjectOf).touch, j);
    }
  }

  lemma TouchKeepsAgreement(s: State, k: Key, touch: Touch, j: Key)
    requires OldPortsAgree(s, j)
    requires forall port :: Knows(s, j, port) ==> Knows(Touched(s, k, touch), j, port)
    ensures OldPortsAgree(Touched(s, k, touch), j)
  {
    var t := Touched(s, k, touch);
    if touch.ReadPorts? { CaughtIsEnd(s.olderPorts, touch.back); }
    forall p | p in t.olderPorts && PortKeyOf(j) in p.ports.ports ensures Knows(t, j, p.ports.ports[PortKeyOf(j)]) {
      assert p in s.olderPorts || p == OldPorts(s.portsVersion, s.ports);
    }
  }

  /** In the run the cluster's port is given back. */
  ghost predicate GivenBack(s: State, run: seq<Event>, subjectOf: Key -> Subject, j: Key)
    decreases |run|
  {
    && run != []
    && var t := Next(s, run[0].key, run[0].action, subjectOf);
       (PortKeyOf(j) in s.ports.ports && PortKeyOf(j) !in t.ports.ports) || GivenBack(t, run[1..], subjectOf, j)
  }

  lemma {:induction false} AgreesUntilGivenBack(s: State, run: seq<Event>, subjectOf: Key -> Subject, j: Key)
    requires Inv(s, subjectOf) && OldPortsAgree(s, j) && !GivenBack(s, run, subjectOf, j)
    ensures OldPortsAgree(After(s, run, subjectOf), j)
    decreases |run|
  {
    if run != [] {
      var e := run[0];
      NextKeeps(s, e.key, e.action, subjectOf);
      NextKeepsAgreement(s, e.key, e.action, subjectOf, j);
      AgreesUntilGivenBack(Next(s, e.key, e.action, subjectOf), run[1..], subjectOf, j);
    }
  }

  lemma AgreementMisleadsNobody(s: State, j: Key, a: Action)
    requires OldPortsAgree(s, j)
    ensures !Misled(s, j, a)
  {
    if a.Call? {
      var rest := Caught(s.olderPorts, a.outcome.back);
      CaughtIsEnd(s.olderPorts, a.outcome.back);
      assert forall p :: p in rest ==> p in s.olderPorts;
    }
  }

  /** Only a cluster whose name has had a port before, and given it back, can be misled. */
  lemma MisledOnlyAfterRelease(s: State, run: seq<Event>, subjectOf: Key -> Subject, j: Key, a: Action)
    requires Initial(s) && Misled(After(s, run, subjectOf), j, a)
    ensures GivenBack(s, run, subjectOf, j)
  {
    InitialInv(s, subjectOf);
    if !GivenBack(s, run, subjectOf, j) {
      AgreesUntilGivenBack(s, run, subjectOf, j);
      AgreementMisleadsNobody(After(s, run, subjectOf), j, a);
    }
  }

  /** Smooth calls take a reconciliation past one binding. */
  lemma PastOneBind(s: State, t: State, k: Key, w: Worker, role: Role, subjectOf: Key -> Subject) returns (u: State)
    requires Comes(s, t, k, w, BindRead(role, false), subjectOf) && role in t.bindings
    ensures Comes(s, u, k, w, NextBind(role, false, NoError), subjectOf)
  {
    u := CallReaches(s, t, k, Smooth(0), AtBindRead(t, k, t.workers[k], Smooth(0), subjectOf), subjectOf);
    if subjectOf(k) !in t.bindings[role].subjects { u := BindWritten(s, u, k, w, role, subjectOf); }
  }

  lemma BindWritten(s: State, t: State, k: Key, w: Worker, role: Role, subjectOf: Key -> Subject) returns (u: State)
    requires role in t.bindings
    requires Comes(s, t, k, w, BindWrite(role, false, t.bindings[role].subjects, t.bindings[role].version), subjectOf)
    ensures Comes(s, u, k, w, NextBind(role, false, NoError), subjectOf)
  {
    u := CallReaches(s, t, k, Smooth(0), AtBindWrite(t, k, t.workers[k], Smooth(0), subjectOf), subjectOf);
  }

  /** A cluster that has its finalizer and is on its way to be Ready, or is. */
  predicate Provisioned(s: State, k: Key) {
    HasFinalizer(s, k) && !s.clusters[k].deleting && !s.clusters[k].status.phase.Unset? && !s.clusters[k].status.phase.Unknown?
  }

  /** A reconciliation has read the port map and has this port on its copy. */
  lemma ReadLags(s: State, k: Key, back: nat, subjectOf: Key -> Subject) returns (u: State, w: Worker)
    requires Provisioned(s, k) && Mirrors(s.clusters[k]) && PortKeyOf(k) in ServedPorts(s, back).ports.ports
    ensures Comes(s, u, k, w, BindRead(KubeletNode, false), subjectOf) && w.orig == s.clusters[k].status
    ensures var port := ServedPorts(s, back).ports.ports[PortKeyOf(k)];
      w.copy == s.clusters[k].(status := s.clusters[k].status.(port := port))
  {
    ReachSelf(s, subjectOf);
    ReachStep(s, s, k, Crash, subjectOf);
    var t := Stop(s, k);
    ReachStep(s, t, k, Start(0), subjectOf);
    StartsFresh(t, k);
    t := Started(t, k, 0);
    var v := CallReaches(s, t, k, Smooth(0), AtBegin(t, k, t.workers[k], Smooth(0)), subjectOf);
    assert v == t.(workers := t.workers[k := t.workers[k].(at := AllocRead)]);
    assert ServedPorts(v, back) == ServedPorts(s, back);
    u := CallReaches(s, v, k, Smooth(back), AtAllocRead(v, k, v.workers[k], Smooth(back)), subjectOf);
    w := u.workers[k];
  }

  /** A lagging read may serve a version of the port map from before the name's last release. The cluster then becomes Ready
      with the port that it had then, whoever has that port now, and with none reserved for it. */
  lemma LaggingReadStoresAnOldPort(s: State, k: Key, back: nat, subjectOf: Key -> Subject)
    requires Provisioned(s, k) && Mirrors(s.clusters[k]) && forall role :: role in s.bindings
    requires PortKeyOf(k) !in s.ports.ports && PortKeyOf(k) in ServedPorts(s, back).ports.ports
    ensures exists t :: Reaches(s, t, subjectOf) && t.ports == s.ports &&
              k in t.clusters && t.clusters[k].status == Status(Ready, true, ServedPorts(s, back).ports.ports[PortKeyOf(k)])
  {
    var u, w := ReadLags(s, k, back, subjectOf);
    u := PastOneBind(s, u, k, w, KubeletNode, subjectOf);
    u := PastOneBind(s, u, k, w, PriorityClass, subjectOf);
    u := CallReaches(s, u, k, Smooth(0), AtSaveStatus(u, k, u.workers[k], Smooth(0)), subjectOf);
  }

  // ---------------------------------------------------------------------------------------------
  // Deletion before the port is stored
  // ---------------------------------------------------------------------------------------------

  /** The release is refused for this version of the cluster. */
  predicate Differs(s: State, j: Key, c: Cluster) {
    Mirrors(c) && PortKeyOf(j) in s.ports.ports && s.ports.ports[PortKeyOf(j)] != c.status.port
  }

  /** Every finalization of the cluster that is on its way, or may begin, ends at the release. */
  ghost predicate Blocked(s: State, j: Key) {
    && HasFinalizer(s, j) && s.clusters[j].deleting && Differs(s, j, s.clusters[j])
    && (forall c :: c in Older(s, j) && c.deleting ==> Differs(s, j, c))
    && (j in s.workers ==>
          var w := s.workers[j];
          && (w.copy.deleting ==> Differs(s, j, w.copy))
          && (w.at.FreeWrite? ==> w.at.seen != s.portsVersion))
  }

  /** What is known of the cluster's versions and its worker only depends on the map's entry. */
  lemma SameEntry(s: State, t: State, j: Key)
    requires PortKeyOf(j) in s.ports.ports && Knows(t, j, s.ports.ports[PortKeyOf(j)])
    ensures forall c :: Differs(t, j, c) <==> Differs(s, j, c)
  {
  }

  lemma CallKeepsBlock(s: State, k: Key, o: Outcome, subjectOf: Key -> Subject)
    requires Inv(s, subjectOf) && Blocked(s, k) && k in s.workers
    ensures Blocked(Called(s, k, o, subjectOf), k)
  {
    var w, t := s.workers[k], Called(s, k, o, subjectOf);
    var e := EffectOf(s, k, w, o, subjectOf);
    assert WorkerOk(s, k, w, subjectOf);
    CallOk(s, k, o, subjectOf);
    BlockedCall(s, k, w, o, subjectOf);
    CallPorts(s, k, o, subjectOf, PortKeyOf(k));
    SameEntry(s, t, k);
    TouchLeavesClusters(s, k, e.touch);
  }

  /** It writes neither the cluster nor the ports, and the worker does not get past the release. */
  predicate Harmless(s: State, w: Worker, e: Effect) {
    && !e.touch.WriteCluster? && !e.touch.DropCluster? && !e.touch.WritePorts?
    && (e.next.Some? ==>
          && e.next.value.copy.deleting == w.copy.deleting && Mirrors(e.next.value.copy) == Mirrors(w.copy)
          && (w.copy.deleting ==> e.next.value.copy.status.port == w.copy.status.port)
          && (e.next.value.at.FreeWrite? ==> e.next.value.at.seen != s.portsVersion))
  }

  lemma BlockedCall(s: State, k: Key, w: Worker, o: Outcome, subjectOf: Key -> Subject)
    requires Blocked(s, k) && k in s.workers && w == s.workers[k] && WorkerOk(s, k, w, subjectOf) && PortsOk(s)
    ensures Harmless(s, w, EffectOf(s, k, w, o, subjectOf))
  {
    if w.at.Begin? { BlockedBegin(s, k, w, o); }
    else if Provisions(w.at) { BlockedProvision(s, k, w, o, subjectOf); }
    else { BlockedFinalization(s, k, w, o, subjectOf); }
  }

  lemma BlockedBegin(s: State, k: Key, w: Worker, o: Outcome)
    requires HasFinalizer(s, k) && s.clusters[k].deleting && CopyOk(s, k, w) && w.at.Begin?
    ensures Harmless(s, w, AtBegin(s, k, w, o))
  {
  }

  /** A reconciliation of an older version. */
  lemma BlockedProvision(s: State, k: Key, w: Worker, o: Outcome, subjectOf: Key -> Subject)
    requires HasFinalizer(s, k) && s.clusters[k].deleting && Differs(s, k, s.clusters[k])
    requires WorkerOk(s, k, w, subjectOf) && Provisions(w.at)
    ensures Harmless(s, w, EffectOf(s, k, w, o, subjectOf))
  {
    assert !Current(s, k, w);
  }

  lemma BlockedFinalization(s: State, k: Key, w: Worker, o: Outcome, subjectOf: Key -> Subject)
    requires Differs(s, k, w.copy) && WorkerOk(s, k, w, subjectOf) && PortsOk(s) && Finalizes(w.at)
    requires w.at.FreeWrite? ==> w.at.seen != s.portsVersion
    ensures Harmless(s, w, EffectOf(s, k, w, o, subjectOf))
  {
    if w.at.FreeRead? { BlockedRelease(s, k, w, o); }
  }

  /** The release ends, or it goes on with an outdated version of the map. */
  lemma BlockedRelease(s: State, k: Key, w: Worker, o: Outcome)
    requires PortsOk(s) && Differs(s, k, w.copy) && w.at.FreeRead?
    ensures var e := AtFreeRead(s, k, w, o);
      e.next.Some? ==> e.next.value.copy == w.copy && e.next.value.at.FreeWrite? && e.next.value.at.seen < s.portsVersion
  {
    var rest := Caught(s.olderPorts, o.back);
    CaughtIsEnd(s.olderPorts, o.back);
    assert forall p :: p in rest ==> p in s.olderPorts;
  }

  lemma OtherKeepsBlock(s: State, k: Key, a: Action, subjectOf: Key -> Subject, j: Key)
    requires Inv(s, subjectOf) && Blocked(s, j) && j != k
    ensures Blocked(Next(s, k, a, subjectOf), j)
  {
    var t := Next(s, k, a, subjectOf);
    OthersStay(s, k, a, subjectOf, j);
    OthersLeaveEntry(s, k, a, subjectOf, j);
    SameEntry(s, t, j);
    if j in s.workers {
      assert WorkerOk(s, j, s.workers[j], subjectOf);
      PortsVersionGrows(s, k, a, subjectOf);
    }
  }

  lemma PortsVersionGrows(s: State, k: Key, a: Action, subjectOf: Key -> Subject)
    ensures var t := Next(s, k, a, subjectOf); t.portsVersion == s.portsVersion || t.portsVersion > s.rv
  {
    if a.Call? && k in s.workers {
      var touch := EffectOf(s, k, s.workers[k], a.outcome, subjectOf).touch;
      assert Touched(s, k, touch).portsVersion == s.portsVersion || Touched(s, k, touch).portsVersion > s.rv;
    }
  }

  lemma PutKeepsBlock(s: State, k: Key, c: Cluster)
    requires Blocked(s, k) && c.finalizer && c.deleting && Differs(s, k, c)
    ensures Blocked(Put(s, k, c), k)
  {
    SameEntry(s, Put(s, k, c), k);
  }

  lemma StartKeepsBlock(s: State, k: Key, age: nat)
    requires Blocked(s, k)
    ensures Blocked(Started(s, k, age), k)
  {
    CaughtIsEnd(Older(s, k), age);
    SameEntry(s, Started(s, k, age), k);
  }

  lemma UserKeepsBlock(s: State, k: Key, a: Action, subjectOf: Key -> Subject)
    requires Blocked(s, k) && !a.Call? && Steady(s, k, a, k)
    ensures Blocked(Next(s, k, a, subjectOf), k)
  {
    match a
    case Create(_, _, _) =>
    case Delete => PutKeepsBlock(s, k, s.clusters[k].(deleting := true));
    case Edit(mode, mirror, held) => PutKeepsBlock(s, k, s.clusters[k].(mode := mode, mirror := mirror, held := held));
    case Start(age) => StartKeepsBlock(s, k, age);
    case Crash => SameEntry(s, Stop(s, k), k);
    case Call(_) =>
  }

  lemma NextKeepsBlock(s: State, k: Key, a: Action, subjectOf: Key -> Subject, j: Key)
    requires Inv(s, subjectOf) && Blocked(s, j) && Steady(s, k, a, j)
    ensures Blocked(Next(s, k, a, subjectOf), j)
  {
    if j != k { OtherKeepsBlock(s, k, a, subjectOf, j); }
    else if !a.Call? { UserKeepsBlock(s, k, a, subjectOf); }
    else if k in s.workers { CallKeepsBlock(s, k, a.outcome, subjectOf); }
  }

  /** Over every run in which nobody switches it off, such a cluster stays. */
  lemma {:induction false} BlockedForGood(s: State, run: seq<Event>, subjectOf: Key -> Subject, j: Key)
    requires Inv(s, subjectOf) && Blocked(s, j) && SteadyRun(s, run, subjectOf, j)
    ensures Blocked(After(s, run, subjectOf), j)
    decreases |run|
  {
    if run != [] {
      var e := run[0];
      NextKeeps(s, e.key, e.action, subjectOf);
      NextKeepsBlock(s, e.key, e.action, subjectOf, j);
      BlockedForGood(Next(s, e.key, e.action, subjectOf), run[1..], subjectOf, j);
    }
  }

  /** A cluster that is deleted while its port is in the map but not in its status: whatever its worker was doing. */
  lemma DeletionBlocks(s: State, k: Key, subjectOf: Key -> Subject)
    requires Inv(s, subjectOf) && HasFinalizer(s, k) && !s.clusters[k].deleting && Differs(s, k, s.clusters[k])
    ensures Blocked(Deleted(s, k), k)
  {
    assert CacheOk(s, k);
    if k in s.workers { assert WorkerOk(s, k, s.workers[k], subjectOf); }
  }

  /** Some run in which nobody switches the cluster off takes the finalizer from it. */
  ghost predicate CanEnd(s: State, k: Key, subjectOf: Key -> Subject) {
    exists run :: SteadyRun(s, run, subjectOf, k) && !HasFinalizer(After(s, run, subjectOf), k)
  }

  lemma {:induction false} UneditedIsSteady(s: State, run: seq<Event>, subjectOf: Key -> Subject, j: Key)
    requires Unedited(run)
    ensures SteadyRun(s, run, subjectOf, j)
    decreases |run|
  {
    if run != [] {
      assert run[0] in run && forall e :: e in run[1..] ==> e in run;
      UneditedIsSteady(Next(s, run[0].key, run[0].action, subjectOf), run[1..], subjectOf, j);
    }
  }

  /** With matching ports the finalization can be finished. */
  lemma DeletionEnds(s: State, k: Key, subjectOf: Key -> Subject)
    requires HasFinalizer(s, k) && !s.clusters[k].deleting && (forall role :: role in s.bindings) && PortMatches(s, k, s.clusters[k])
    ensures CanEnd(Deleted(s, k), k, subjectOf)
  {
    var d := Deleted(s, k);
    ReachSelf(d, subjectOf);
    ReachStep(d, d, k, Crash, subjectOf);
    var v := Stop(d, k);
    var u, w := FinalizationBegins(v, k, subjectOf);
    u := PastOneBinding(v, u, k, w, KubeletNode, subjectOf);
    u := PastOneBinding(v, u, k, w, PriorityClass, subjectOf);
    u := FinalizationEnds(v, u, k, w, subjectOf);
    ReachTransitive(d, v, u, subjectOf);
    var run :| After(d, run, subjectOf) == u && Unedited(run);
    UneditedIsSteady(d, run, subjectOf, k);
  }

  /** The deletion of a cluster can be finished exactly if its status has its port at the moment of the deletion. */
  lemma DeletionEndsExactly(s: State, k: Key, subjectOf: Key -> Subject)
    requires Inv(s, subjectOf) && HasFinalizer(s, k) && !s.clusters[k].deleting && forall role :: role in s.bindings
    ensures CanEnd(Deleted(s, k), k, subjectOf) <==> PortMatches(s, k, s.clusters[k])
  {
    if PortMatches(s, k, s.clusters[k]) {
      DeletionEnds(s, k, subjectOf);
    } else {
      var d := Deleted(s, k);
      DeletionBlocks(s, k, subjectOf);
      NextKeeps(s, k, Delete, subjectOf);
      forall run | SteadyRun(d, run, subjectOf, k) ensures HasFinalizer(After(d, run, subjectOf), k) {
        BlockedForGood(d, run, subjectOf, k);
      }
    }
  }

  /** There is such a deletion after every installation whose range has a port that a new status does not have: the cluster
      is deleted after its port has been allocated, and before its status is stored. */
  lemma EarlyDeletionBlocks(s: State, k: Key, port: int, subjectOf: Key -> Subject)
    requires Initial(s) && s.ports.range.Holds(port) && port != 0
    ensures exists t :: Reaches(s, t, subjectOf) && Blocked(t, k)
  {
    InitialInv(s, subjectOf);
    ReachSelf(s, subjectOf);
    ReachStep(s, s, k, Create(Shared, true, false), subjectOf);
    var t := FirstRound(s, Created(s, k, Shared, true, false), k, true, subjectOf);
    t := SecondRound(s, t, k, true, subjectOf);
    var u := AllocationWritten(s, t, k, port, subjectOf);
    var run :| After(s, run, subjectOf) == u && Unedited(run);
    RunKeeps(s, run, subjectOf);
    DeletionBlocks(u, k, subjectOf);
    ReachStep(s, u, k, Delete, subjectOf);
  }

  lemma AllocationWritten(s: State, t: State, k: Key, port: int, subjectOf: Key -> Subject) returns (u: State)
    requires Grows(s, t, k, true, Provisioning, true, subjectOf) && s.ports == Ports.Initial(s.ports.range)
    requires s.ports.range.Holds(port) && port != 0
    ensures Reaches(s, u, subjectOf) && HasFinalizer(u, k) && !u.clusters[k].deleting && Differs(u, k, u.clusters[k])
  {
    var v := Begins(s, t, k, true, Provisioning, true, subjectOf);
    v := CallReaches(s, v, k, Smooth(0), AtBegin(v, k, v.workers[k], Smooth(0)), subjectOf);
    assert v.workers[k].at == AllocRead && v.clusters == t.clusters && v.ports == s.ports;
    var o := Smooth(0).(pick := port);
    v := CallReaches(s, v, k, o, AtAllocRead(v, k, v.workers[k], o), subjectOf);
    assert v.workers[k].at == AllocWrite(port, v.ports, v.portsVersion) && v.clusters == t.clusters;
    u := CallReaches(s, v, k, Smooth(0), AtAllocWrite(v, k, v.workers[k], Smooth(0)), subjectOf);
    assert u.clusters == t.clusters && Knows(u, k, port);
  }
}
