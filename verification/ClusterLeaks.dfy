/** What the machine of ClusterLifecycle keeps and what it leaves behind: in which single steps a cluster can lose sight of
    a port or of a subject, over which runs this does not happen, and runs in which it does. */
module ClusterLeaks {
  import opened Basics
  import opened Ports
  import opened ClusterLifecycle

  // ---------------------------------------------------------------------------------------------
  // The finalizer
  // ---------------------------------------------------------------------------------------------

  /** The step in which the finalizer goes. */
  predicate LetsGo(s: State, k: Key, a: Action) {
    && a.Call? && k in s.workers && s.workers[k].at.RemoveFinalizer?
    && s.workers[k].copy.finalizer && !a.outcome.refused && Current(s, k, s.workers[k])
  }

  lemma OwnFinalizer(s: State, k: Key, o: Outcome, subjectOf: Key -> Subject)
    requires Inv(s, subjectOf) && k in s.workers
    ensures LetsGo(s, k, Call(o)) ==> HasFinalizer(s, k)
    ensures HasFinalizer(s, k) ==> (HasFinalizer(Called(s, k, o, subjectOf), k) <==> !LetsGo(s, k, Call(o)))
  {
    CallOk(s, k, o, subjectOf);
  }

  /** Another cluster, its cache and its worker are the same. */
  predicate SameFor(s: State, t: State, j: Key) {
    && (j in t.clusters <==> j in s.clusters) && (j in s.clusters ==> t.clusters[j] == s.clusters[j]) && Older(t, j) == Older(s, j)
    && (j in t.workers <==> j in s.workers) && (j in s.workers ==> t.workers[j] == s.workers[j])
  }

  lemma TouchLeavesClusters(s: State, k: Key, touch: Touch)
    requires !touch.WriteCluster? && !touch.DropCluster?
    ensures var t := Touched(s, k, touch); t.clusters == s.clusters && t.older == s.older && t.workers == s.workers
  {
  }

  lemma TouchLeavesOthers(s: State, k: Key, touch: Touch, j: Key)
    requires j != k
    ensures SameFor(s, Touched(s, k, touch), j)
  {
    if touch.WriteCluster? || touch.DropCluster? { assert Older(s.(older := Aged(s, k)), j) == Older(s, j); }
    else { TouchLeavesClusters(s, k, touch); }
  }

  /** A step of one cluster leaves the other clusters, their caches and their workers alone. */
  lemma OthersStay(s: State, k: Key, a: Action, subjectOf: Key -> Subject, j: Key)
    requires j != k
    ensures SameFor(s, Next(s, k, a, subjectOf), j)
  {
    if !a.Call? { QuietForOthers(s, k, a, subjectOf, j); }
    else if k in s.workers { TouchLeavesOthers(s, k, EffectOf(s, k, s.workers[k], a.outcome, subjectOf).touch, j); }
  }

  lemma QuietForOthers(s: State, k: Key, a: Action, subjectOf: Key -> Subject, j: Key)
    requires j != k && !a.Call?
    ensures SameFor(s, Next(s, k, a, subjectOf), j)
  {
    assert Older(s.(older := Aged(s, k)), j) == Older(s, j);
  }

  /** Only the last call of a finalization takes the finalizer, and only a reconciliation of the cluster adds it. */
  lemma FinalizerStays(s: State, k: Key, a: Action, subjectOf: Key -> Subject, j: Key)
    requires Inv(s, subjectOf)
    ensures var t := Next(s, k, a, subjectOf);
      && (LetsGo(s, k, a) ==> HasFinalizer(s, k))
      && (HasFinalizer(s, j) ==> (HasFinalizer(t, j) <==> !(j == k && LetsGo(s, k, a))))
      && (HasFinalizer(t, j) && j != k ==> HasFinalizer(s, j))
  {
    if a.Call? && k in s.workers { OwnFinalizer(s, k, a.outcome, subjectOf); }
    if j != k { OthersStay(s, k, a, subjectOf, j); }
  }

  // ---------------------------------------------------------------------------------------------
  // Ports
  // ---------------------------------------------------------------------------------------------

  /** The cluster's port, if it has one, has somebody to give it back. */
  predicate PortHeld(s: State, j: Key) {
    PortKeyOf(j) in s.ports.ports ==> HasFinalizer(s, j)
  }

  /** The finalizer goes from a cluster that was read as not mirroring, while the port map still has its key. */
  predicate Strands(s: State, k: Key, a: Action) {
    LetsGo(s, k, a) && !Mirrors(s.workers[k].copy) && PortKeyOf(k) in s.ports.ports
  }

  /** A call adds a key to the port map only by the allocation's write, and takes one away only by the release's. */
  lemma CallPorts(s: State, k: Key, o: Outcome, subjectOf: Key -> Subject, key: string)
    requires Inv(s, subjectOf) && k in s.workers
    ensures var t := Called(s, k, o, subjectOf);
      && (key in t.ports.ports && key !in s.ports.ports ==> s.workers[k].at.AllocWrite? && key == PortKeyOf(k))
      && (key in s.ports.ports && key !in t.ports.ports ==> s.workers[k].at.FreeWrite? && key == PortKeyOf(k))
      && (key in s.ports.ports && key in t.ports.ports ==> t.ports.ports[key] == s.ports.ports[key])
  {
    CallOk(s, k, o, subjectOf);
    TouchPorts(s, k, s.workers[k], EffectOf(s, k, s.workers[k], o, subjectOf).touch, subjectOf, key);
  }

  lemma TouchPorts(s: State, k: Key, w: Worker, touch: Touch, subjectOf: Key -> Subject, key: string)
    requires TouchOk(s, k, w, touch, subjectOf)
    ensures var t := Touched(s, k, touch);
      && (key in t.ports.ports && key !in s.ports.ports ==> w.at.AllocWrite? && key == PortKeyOf(k))
      && (key in s.ports.ports && key !in t.ports.ports ==> w.at.FreeWrite? && key == PortKeyOf(k))
      && (key in s.ports.ports && key in t.ports.ports ==> t.ports.ports[key] == s.ports.ports[key])
  {
  }

  /** A key only comes into the port map with the finalizer there. */
  lemma PortComes(s: State, k: Key, a: Action, subjectOf: Key -> Subject, j: Key)
    requires Inv(s, subjectOf) && PortKeyOf(j) !in s.ports.ports && PortKeyOf(j) in Next(s, k, a, subjectOf).ports.ports
    ensures j == k && a.Call? && k in s.workers && s.workers[k].at.AllocWrite? && HasFinalizer(s, j)
    ensures HasFinalizer(Next(s, k, a, subjectOf), j)
  {
    if a.Call? && k in s.workers {
      CallPorts(s, k, a.outcome, subjectOf, PortKeyOf(j));
      SameKey(j, k);
      assert WorkerOk(s, k, s.workers[k], subjectOf);
      FinalizerStays(s, k, a, subjectOf, j);
    }
  }

  /** A port loses its cluster in exactly one kind of step. */
  lemma StrandsExactly(s: State, k: Key, a: Action, subjectOf: Key -> Subject, j: Key)
    requires Inv(s, subjectOf) && PortHeld(s, j)
    ensures PortHeld(Next(s, k, a, subjectOf), j) <==> !(j == k && Strands(s, k, a))
  {
    var t := Next(s, k, a, subjectOf);
    FinalizerStays(s, k, a, subjectOf, j);
    if PortKeyOf(j) !in s.ports.ports {
      if PortKeyOf(j) in t.ports.ports { PortComes(s, k, a, subjectOf, j); }
    } else if LetsGo(s, k, a) {
      assert WorkerOk(s, k, s.workers[k], subjectOf);
      CallPorts(s, k, a.outcome, subjectOf, PortKeyOf(j));
    }
  }

  /** A port leaves the map only for the finalization of its own cluster, and while it stays it is the same port. */
  lemma PortKeptUntilDeletion(s: State, k: Key, a: Action, subjectOf: Key -> Subject, j: Key)
    requires Inv(s, subjectOf) && PortKeyOf(j) in s.ports.ports
    ensures var t := Next(s, k, a, subjectOf);
      if PortKeyOf(j) in t.ports.ports then t.ports.ports[PortKeyOf(j)] == s.ports.ports[PortKeyOf(j)]
      else j == k && a.Call? && k in s.workers && s.workers[k].at.FreeWrite? && s.workers[k].copy.deleting
           && (PortHeld(s, j) ==> s.clusters[j].deleting)
  {
    if a.Call? && k in s.workers {
      CallPorts(s, k, a.outcome, subjectOf, PortKeyOf(j));
      if s.workers[k].at.FreeWrite? && PortKeyOf(j) == PortKeyOf(k) {
        SameKey(j, k);
        assert WorkerOk(s, k, s.workers[k], subjectOf);
      }
    }
  }

  /** A step that does not switch the cluster's use of a pool port off. */
  predicate Steady(s: State, k: Key, a: Action, j: Key) {
    k == j && a.Edit? && k in s.clusters && Mirrors(s.clusters[k]) ==> a.newMode == Shared && a.newMirror
  }

  /** A cluster with a port mirrors, and so does one that has been read, or may be, as a live mirroring one. */
  ghost predicate Linked(s: State, j: Key) {
    && (PortKeyOf(j) in s.ports.ports && j in s.clusters ==> Mirrors(s.clusters[j]))
    && (forall c :: c in Older(s, j) && Live(c) && Mirrors(c) && HasFinalizer(s, j) ==> Mirrors(s.clusters[j]))
    && (j in s.workers ==>
          && (Live(s.workers[j].copy) && Mirrors(s.workers[j].copy) && HasFinalizer(s, j) ==> Mirrors(s.clusters[j]))
          && (s.workers[j].at.AllocRead? || s.workers[j].at.AllocWrite? ==> Mirrors(s.workers[j].copy)))
  }

  lemma LinkedNeverStrands(s: State, k: Key, a: Action, subjectOf: Key -> Subject, j: Key)
    requires Inv(s, subjectOf) && Linked(s, j)
    ensures !(j == k && Strands(s, k, a))
  {
    if k in s.workers { assert WorkerOk(s, k, s.workers[k], subjectOf); }
  }

  lemma OwnCallKeepsLink(s: State, k: Key, o: Outcome, subjectOf: Key -> Subject)
    requires Inv(s, subjectOf) && Linked(s, k) && k in s.workers
    ensures Linked(Called(s, k, o, subjectOf), k)
  {
    CallOk(s, k, o, subjectOf);
    assert CacheOk(s, k);
    CallPorts(s, k, o, subjectOf, PortKeyOf(k));
    PerformKeepsLink(s, k, s.workers[k], EffectOf(s, k, s.workers[k], o, subjectOf), subjectOf);
  }

  lemma PerformKeepsLink(s: State, k: Key, w: Worker, e: Effect, subjectOf: Key -> Subject)
    requires Linked(s, k) && CacheOk(s, k) && k in s.workers && w == s.workers[k]
    requires WorkerOk(s, k, w, subjectOf) && EffectOk(s, k, w, e, subjectOf)
    requires PortKeyOf(k) in Performed(s, k, e).ports.ports && PortKeyOf(k) !in s.ports.ports ==> w.at.AllocWrite?
    ensures Linked(Performed(s, k, e), k)
  {
    if !e.touch.WriteCluster? && !e.touch.DropCluster? { TouchLeavesClusters(s, k, e.touch); }
  }

  lemma OtherKeepsLink(s: State, k: Key, a: Action, subjectOf: Key -> Subject, j: Key)
    requires Inv(s, subjectOf) && Linked(s, j) && j != k
    ensures Linked(Next(s, k, a, subjectOf), j)
  {
    var t := Next(s, k, a, subjectOf);
    OthersStay(s, k, a, subjectOf, j);
    if PortKeyOf(j) in t.ports.ports && PortKeyOf(j) !in s.ports.ports { PortComes(s, k, a, subjectOf, j); }
  }

  lemma UserKeepsLink(s: State, k: Key, a: Action, subjectOf: Key -> Subject)
    requires Inv(s, subjectOf) && PortHeld(s, k) && Linked(s, k) && Steady(s, k, a, k) && (a.Create? || a.Delete? || a.Edit?)
    ensures Linked(Next(s, k, a, subjectOf), k)
  {
    assert CacheOk(s, k);
    var t := Next(s, k, a, subjectOf);
    assert HasFinalizer(s, k) <==> HasFinalizer(t, k) by { FinalizerStays(s, k, a, subjectOf, k); }
  }

  lemma StartKeepsLink(s: State, k: Key, age: nat)
    requires Linked(s, k)
    ensures Linked(Started(s, k, age), k)
  {
    assert forall c :: c in Caught(Older(s, k), age) ==> c in Older(s, k);
  }

  lemma NextKeepsLink(s: State, k: Key, a: Action, subjectOf: Key -> Subject, j: Key)
    requires Inv(s, subjectOf) && PortHeld(s, j) && Linked(s, j) && Steady(s, k, a, j)
    ensures Linked(Next(s, k, a, subjectOf), j)
  {
    if j != k {
      OtherKeepsLink(s, k, a, subjectOf, j);
    } else {
      match a
      case Create(_, _, _) => UserKeepsLink(s, k, a, subjectOf);
      case Delete => UserKeepsLink(s, k, a, subjectOf);
      case Edit(_, _, _) => UserKeepsLink(s, k, a, subjectOf);
      case Start(age) => StartKeepsLink(s, k, age);
      case Call(o) => if k in s.workers { OwnCallKeepsLink(s, k, o, subjectOf); }
      case Crash =>
    }
  }

  // ---------------------------------------------------------------------------------------------
  // Subjects
  // ---------------------------------------------------------------------------------------------

  /** The worker has successfully taken its subject out of the role's binding, or seen that it is not there. */
  predicate PastUnbind(at: Pc, role: Role) {
    match at
    case UnbindRead(r, failed) => !failed && role == KubeletNode && r == PriorityClass
    case UnbindWrite(r, failed, _, _) => !failed && role == KubeletNode && r == PriorityClass
    case _ => at.FreeRead? || at.FreeWrite? || PastFree(at)
  }

  predicate Bound(s: State, role: Role, x: Subject) {
    role in s.bindings && x in s.bindings[role].subjects
  }

  /** The subject, if it is bound, belongs to a cluster that has the finalizer. */
  ghost predicate SubjectHeld(s: State, role: Role, x: Subject, subjectOf: Key -> Subject) {
    Bound(s, role, x) ==> exists k :: HasFinalizer(s, k) && subjectOf(k) == x
  }

  /** The cluster has this subject, and no finalization of it has got past the binding. */
  predicate Answers(s: State, role: Role, k: Key, x: Subject, subjectOf: Key -> Subject) {
    HasFinalizer(s, k) && subjectOf(k) == x && !(k in s.workers && PastUnbind(s.workers[k].at, role))
  }

  ghost predicate SubjectOwned(s: State, role: Role, x: Subject, subjectOf: Key -> Subject) {
    Bound(s, role, x) ==> exists k :: Answers(s, role, k, x, subjectOf)
  }

  /** The finalizer goes while the binding still has the cluster's subject, which no other cluster answers for. */
  ghost predicate Abandons(s: State, k: Key, a: Action, role: Role, x: Subject, subjectOf: Key -> Subject) {
    && LetsGo(s, k, a) && subjectOf(k) == x && Bound(s, role, x)
    && forall j :: j != k && HasFinalizer(s, j) ==> subjectOf(j) != x
  }

  /** A finalization reads a version of the binding from before its cluster's subject came in, and so leaves it there. */
  predicate Misses(s: State, k: Key, a: Action, role: Role, subjectOf: Key -> Subject) {
    && a.Call? && k in s.workers && s.workers[k].at.UnbindRead? && s.workers[k].at.role == role && !a.outcome.refused
    && Bound(s, role, subjectOf(k)) && subjectOf(k) !in ServedBinding(s, role, a.outcome.back).subjects
  }

  lemma CallBinds(s: State, k: Key, o: Outcome, subjectOf: Key -> Subject, role: Role, x: Subject)
    requires Inv(s, subjectOf) && k in s.workers
    ensures var t := Called(s, k, o, subjectOf);
      && (Bound(t, role, x) && !Bound(s, role, x) ==> s.workers[k].at.BindWrite? && x == subjectOf(k))
      && (LetsGo(s, k, Call(o)) ==> t.bindings == s.bindings)
  {
    CallOk(s, k, o, subjectOf);
    TouchBinds(s, k, s.workers[k], EffectOf(s, k, s.workers[k], o, subjectOf).touch, subjectOf, role, x);
  }

  lemma TouchBinds(s: State, k: Key, w: Worker, touch: Touch, subjectOf: Key -> Subject, role: Role, x: Subject)
    requires TouchOk(s, k, w, touch, subjectOf)
    ensures var t := Touched(s, k, touch);
      && (Bound(t, role, x) && !Bound(s, role, x) ==> w.at.BindWrite? && x == subjectOf(k))
      && (!touch.WriteBinding? && !touch.ReadBinding? ==> t.bindings == s.bindings)
  {
  }

  /** A worker gets past a binding only when its subject is not there any more, unless it misses it. */
  lemma PassesUnbound(s: State, k: Key, w: Worker, o: Outcome, subjectOf: Key -> Subject, role: Role)
    requires k in s.workers && w == s.workers[k] && WorkerOk(s, k, w, subjectOf) && !PastUnbind(w.at, role)
    ensures var e := EffectOf(s, k, w, o, subjectOf);
      e.next.Some? && PastUnbind(e.next.value.at, role) ==>
        Misses(s, k, Call(o), role, subjectOf) || !Bound(Touched(s, k, e.touch), role, subjectOf(k))
  {
    if w.at.UnbindRead? {
      PassesByRead(s, k, w, o, subjectOf, role);
    } else if w.at.UnbindWrite? {
      PassesByWrite(s, k, w, o, subjectOf, role);
    } else {
      StaysBefore(s, k, w, o, subjectOf, role);
    }
  }

  lemma StaysBefore(s: State, k: Key, w: Worker, o: Outcome, subjectOf: Key -> Subject, role: Role)
    requires w.at.Begin? || Provisions(w.at)
    ensures var e := EffectOf(s, k, w, o, subjectOf); e.next.Some? ==> !PastUnbind(e.next.value.at, role)
  {
  }

  lemma PassesByRead(s: State, k: Key, w: Worker, o: Outcome, subjectOf: Key -> Subject, role: Role)
    requires k in s.workers && w == s.workers[k] && w.at.UnbindRead? && !PastUnbind(w.at, role)
    ensures var e := AtUnbindRead(s, k, w, o, subjectOf);
      e.next.Some? && PastUnbind(e.next.value.at, role) ==>
        Misses(s, k, Call(o), role, subjectOf) || !Bound(Touched(s, k, e.touch), role, subjectOf(k))
  {
  }

  lemma PassesByWrite(s: State, k: Key, w: Worker, o: Outcome, subjectOf: Key -> Subject, role: Role)
    requires k in s.workers && w == s.workers[k] && w.at.UnbindWrite? && !PastUnbind(w.at, role)
    ensures var e := AtUnbindWrite(s, k, w, o, subjectOf);
      e.next.Some? && PastUnbind(e.next.value.at, role) ==> !Bound(Touched(s, k, e.touch), role, subjectOf(k))
  {
  }

  lemma OwnAnswer(s: State, k: Key, a: Action, subjectOf: Key -> Subject, role: Role)
    requires Inv(s, subjectOf) && Answers(s, role, k, subjectOf(k), subjectOf) && !Misses(s, k, a, role, subjectOf)
    requires Bound(Next(s, k, a, subjectOf), role, subjectOf(k))
    ensures Answers(Next(s, k, a, subjectOf), role, k, subjectOf(k), subjectOf)
  {
    FinalizerStays(s, k, a, subjectOf, k);
    if a.Call? && k in s.workers {
      assert WorkerOk(s, k, s.workers[k], subjectOf);
      PassesUnbound(s, k, s.workers[k], a.outcome, subjectOf, role);
    }
  }

  lemma FreshAnswer(s: State, k: Key, a: Action, subjectOf: Key -> Subject, role: Role, x: Subject)
    requires Inv(s, subjectOf) && Bound(Next(s, k, a, subjectOf), role, x) && !Bound(s, role, x)
    ensures Answers(Next(s, k, a, subjectOf), role, k, x, subjectOf)
  {
    if a.Call? && k in s.workers {
      CallBinds(s, k, a.outcome, subjectOf, role, x);
      assert WorkerOk(s, k, s.workers[k], subjectOf);
      FinalizerStays(s, k, a, subjectOf, k);
      var e := AtBindWrite(s, k, s.workers[k], a.outcome, subjectOf);
      assert e.next.Some? ==> Provisions(e.next.value.at);
    }
  }

  /** A subject loses its cluster in exactly one kind of step. */
  lemma AbandonsExactly(s: State, k: Key, a: Action, subjectOf: Key -> Subject, role: Role, x: Subject)
    requires Inv(s, subjectOf) && SubjectHeld(s, role, x, subjectOf)
    ensures SubjectHeld(Next(s, k, a, subjectOf), role, x, subjectOf) <==> !Abandons(s, k, a, role, x, subjectOf)
  {
    var t := Next(s, k, a, subjectOf);
    if Abandons(s, k, a, role, x, subjectOf) {
      CallBinds(s, k, a.outcome, subjectOf, role, x);
      forall j | HasFinalizer(t, j) ensures subjectOf(j) != x { FinalizerStays(s, k, a, subjectOf, j); }
    } else if Bound(t, role, x) && !Bound(s, role, x) {
      FreshAnswer(s, k, a, subjectOf, role, x);
    } else if Bound(t, role, x) {
      var j :| HasFinalizer(s, j) && subjectOf(j) == x;
      if LetsGo(s, k, a) && j == k { j :| j != k && HasFinalizer(s, j) && subjectOf(j) == x; }
      FinalizerStays(s, k, a, subjectOf, j);
    }
  }

  /** As long as no finalization misses it, a bound subject has a cluster that answers for it. */
  lemma NextKeepsSubject(s: State, k: Key, a: Action, subjectOf: Key -> Subject, role: Role, x: Subject)
    requires Inv(s, subjectOf) && SubjectOwned(s, role, x, subjectOf)
    requires subjectOf(k) == x ==> !Misses(s, k, a, role, subjectOf)
    ensures SubjectOwned(Next(s, k, a, subjectOf), role, x, subjectOf)
  {
    var t := Next(s, k, a, subjectOf);
    if Bound(t, role, x) {
      if !Bound(s, role, x) {
        FreshAnswer(s, k, a, subjectOf, role, x);
      } else {
        var j :| Answers(s, role, j, x, subjectOf);
        if j == k {
          OwnAnswer(s, k, a, subjectOf, role);
        } else {
          OthersStay(s, k, a, subjectOf, j);
          assert Answers(t, role, j, x, subjectOf);
        }
      }
    }
  }

  // ---------------------------------------------------------------------------------------------
  // What the status says
  // ---------------------------------------------------------------------------------------------

  ghost predicate StatusInv(s: State) {
    (forall k :: k in s.clusters ==> StatusOk(s.clusters[k])) && forall k :: k in s.workers ==> ShowsDeletion(s.workers[k])
  }

  lemma PerformKeepsStatus(s: State, k: Key, w: Worker, e: Effect, subjectOf: Key -> Subject)
    requires StatusInv(s) && k in s.workers && w == s.workers[k] && EffectOk(s, k, w, e, subjectOf)
    ensures StatusInv(Performed(s, k, e))
  {
    var t := Touched(s, k, e.touch);
    if !e.touch.WriteCluster? && !e.touch.DropCluster? { TouchLeavesClusters(s, k, e.touch); }
    forall j | j in t.clusters ensures StatusOk(t.clusters[j]) { if j != k { TouchLeavesOthers(s, k, e.touch, j); } }
    forall j | j in t.workers && j != k ensures ShowsDeletion(t.workers[j]) { TouchLeavesOthers(s, k, e.touch, j); }
  }

  lemma QuietKeepsStatus(s: State, k: Key, a: Action, subjectOf: Key -> Subject)
    requires StatusInv(s) && !a.Call?
    ensures StatusInv(Next(s, k, a, subjectOf))
  {
    var t := Next(s, k, a, subjectOf);
    QuietStatusAt(s, k, a, subjectOf);
    forall j | j in t.clusters && j != k ensures StatusOk(t.clusters[j]) { QuietForOthers(s, k, a, subjectOf, j); }
    forall j | j in t.workers && j != k ensures ShowsDeletion(t.workers[j]) { QuietForOthers(s, k, a, subjectOf, j); }
  }

  lemma QuietStatusAt(s: State, k: Key, a: Action, subjectOf: Key -> Subject)
    requires StatusInv(s) && !a.Call?
    ensures var t := Next(s, k, a, subjectOf);
      (k in t.clusters ==> StatusOk(t.clusters[k])) && (k in t.workers ==> ShowsDeletion(t.workers[k]))
  {
    if a.Start? { StartStatusAt(s, k, a.age); }
  }

  lemma StartStatusAt(s: State, k: Key, age: nat)
    requires StatusInv(s)
    ensures Started(s, k, age).clusters == s.clusters && (k in Started(s, k, age).workers ==> ShowsDeletion(Started(s, k, age).workers[k]))
  {
  }

  lemma NextKeepsStatus(s: State, k: Key, a: Action, subjectOf: Key -> Subject)
    requires Inv(s, subjectOf) && StatusInv(s)
    ensures StatusInv(Next(s, k, a, subjectOf))
  {
    if !a.Call? {
      QuietKeepsStatus(s, k, a, subjectOf);
    } else if k in s.workers {
      CallOk(s, k, a.outcome, subjectOf);
      PerformKeepsStatus(s, k, s.workers[k], EffectOf(s, k, s.workers[k], a.outcome, subjectOf), subjectOf);
    }
  }

  // ---------------------------------------------------------------------------------------------
  // Whole runs
  // ---------------------------------------------------------------------------------------------

  datatype Event = Event(key: Key, action: Action)

  ghost function After(s: State, run: seq<Event>, subjectOf: Key -> Subject): State
    decreases |run|
  {
    if run == [] then s else After(Next(s, run[0].key, run[0].action, subjectOf), run[1..], subjectOf)
  }

  /** Nobody has created a cluster yet; the bindings are installed without subjects, if at all. */
  ghost predicate Initial(s: State) {
    && s.clusters == map[] && s.older == map[] && s.workers == map[]
    && s.ports == Ports.Initial(s.ports.range) && s.portsVersion <= s.rv && s.olderPorts == []
    && forall role :: role in s.bindings ==>
         s.bindings[role].version <= s.rv && s.bindings[role].subjects == [] && s.bindings[role].older == []
  }

  lemma InitialInv(s: State, subjectOf: Key -> Subject)
    requires Initial(s)
    ensures Inv(s, subjectOf) && StatusInv(s)
  {
  }

  /** No edit switches this cluster's use of a pool port off. */
  ghost predicate SteadyRun(s: State, run: seq<Event>, subjectOf: Key -> Subject, j: Key)
    decreases |run|
  {
    run != [] ==>
      && Steady(s, run[0].key, run[0].action, j)
      && SteadyRun(Next(s, run[0].key, run[0].action, subjectOf), run[1..], subjectOf, j)
  }

  /** No finalization misses this subject in the role's binding. */
  ghost predicate CaughtUpRun(s: State, run: seq<Event>, subjectOf: Key -> Subject, role: Role, x: Subject)
    decreases |run|
  {
    run != [] ==>
      && (subjectOf(run[0].key) == x ==> !Misses(s, run[0].key, run[0].action, role, subjectOf))
      && CaughtUpRun(Next(s, run[0].key, run[0].action, subjectOf), run[1..], subjectOf, role, x)
  }

  /** Over every run whatever: the port map stays consistent, no binding has a subject twice, every status is sound. */
  lemma {:induction false} RunKeeps(s: State, run: seq<Event>, subjectOf: Key -> Subject)
    requires Inv(s, subjectOf) && StatusInv(s)
    ensures Inv(After(s, run, subjectOf), subjectOf) && StatusInv(After(s, run, subjectOf))
    decreases |run|
  {
    if run != [] {
      var e := run[0];
      NextKeeps(s, e.key, e.action, subjectOf);
      NextKeepsStatus(s, e.key, e.action, subjectOf);
      RunKeeps(Next(s, e.key, e.action, subjectOf), run[1..], subjectOf);
    }
  }

  /** Over every run in which nobody switches this cluster off, whatever happens to the others: its port is not left
      behind. */
  lemma {:induction false} PortNeverLeaks(s: State, run: seq<Event>, subjectOf: Key -> Subject, j: Key)
    requires Inv(s, subjectOf) && PortHeld(s, j) && Linked(s, j) && SteadyRun(s, run, subjectOf, j)
    ensures PortHeld(After(s, run, subjectOf), j)
    decreases |run|
  {
    if run != [] {
      var e := run[0];
      LinkedNeverStrands(s, e.key, e.action, subjectOf, j);
      StrandsExactly(s, e.key, e.action, subjectOf, j);
      NextKeeps(s, e.key, e.action, subjectOf);
      NextKeepsLink(s, e.key, e.action, subjectOf, j);
      PortNeverLeaks(Next(s, e.key, e.action, subjectOf), run[1..], subjectOf, j);
    }
  }

  /** Over every run in which no finalization misses the subject: it is not left behind. */
  lemma {:induction false} SubjectNeverLeaks(s: State, run: seq<Event>, subjectOf: Key -> Subject, role: Role, x: Subject)
    requires Inv(s, subjectOf) && SubjectOwned(s, role, x, subjectOf) && CaughtUpRun(s, run, subjectOf, role, x)
    ensures SubjectHeld(After(s, run, subjectOf), role, x, subjectOf)
    decreases |run|
  {
    if run != [] {
      var e := run[0];
      NextKeeps(s, e.key, e.action, subjectOf);
      NextKeepsSubject(s, e.key, e.action, subjectOf, role, x);
      SubjectNeverLeaks(Next(s, e.key, e.action, subjectOf), run[1..], subjectOf, role, x);
    }
  }

  /** Every port belongs to a cluster that has the finalizer, unless that cluster has been switched off; every bound
      subject does, unless a finalization has missed it. */
  ghost predicate NoLeak(s: State, run: seq<Event>, t: State, subjectOf: Key -> Subject) {
    && Consistent(t.ports)
    && (forall key :: key in t.ports.ports ==>
          exists k: Key :: PortKeyOf(k) == key && (SteadyRun(s, run, subjectOf, k) ==> HasFinalizer(t, k)))
    && (forall role :: role in t.bindings ==> NoDuplicates(t.bindings[role].subjects))
    && (forall role, x {:trigger SubjectHeld(t, role, x, subjectOf)} ::
          CaughtUpRun(s, run, subjectOf, role, x) ==> SubjectHeld(t, role, x, subjectOf))
  }

  /** From the installation on, over every run whatever. */
  lemma NothingLeaks(s: State, run: seq<Event>, subjectOf: Key -> Subject)
    requires Initial(s)
    ensures NoLeak(s, run, After(s, run, subjectOf), subjectOf)
    ensures forall k :: k in After(s, run, subjectOf).clusters ==> StatusOk(After(s, run, subjectOf).clusters[k])
  {
    var t := After(s, run, subjectOf);
    InitialInv(s, subjectOf);
    RunKeeps(s, run, subjectOf);
    forall key | key in t.ports.ports
      ensures exists k: Key :: PortKeyOf(k) == key && (SteadyRun(s, run, subjectOf, k) ==> HasFinalizer(t, k))
    {
      var k: Key :| PortKeyOf(k) == key;
      if SteadyRun(s, run, subjectOf, k) { PortNeverLeaks(s, run, subjectOf, k); }
    }
    forall role | role in t.bindings ensures NoDuplicates(t.bindings[role].subjects) { assert BindingOk(t, role); }
    forall role, x | CaughtUpRun(s, run, subjectOf, role, x) ensures SubjectHeld(t, role, x, subjectOf) {
      SubjectNeverLeaks(s, run, subjectOf, role, x);
    }
  }

  /** A cluster that the controller has let go of holds no port if nobody has switched it off, and its subject stays only
      if a finalization has missed it, or if another cluster that is still there has the very same subject. */
  lemma GoneMeansReleased(s: State, run: seq<Event>, subjectOf: Key -> Subject, k: Key, role: Role)
    requires Initial(s) && !HasFinalizer(After(s, run, subjectOf), k)
    ensures var t := After(s, run, subjectOf);
      && (SteadyRun(s, run, subjectOf, k) ==> PortKeyOf(k) !in t.ports.ports)
      && (CaughtUpRun(s, run, subjectOf, role, subjectOf(k)) && Bound(t, role, subjectOf(k)) ==>
            exists j :: j != k && HasFinalizer(t, j) && subjectOf(j) == subjectOf(k))
  {
    InitialInv(s, subjectOf);
    if SteadyRun(s, run, subjectOf, k) { PortNeverLeaks(s, run, subjectOf, k); }
    if CaughtUpRun(s, run, subjectOf, role, subjectOf(k)) { SubjectNeverLeaks(s, run, subjectOf, role, subjectOf(k)); }
  }

  // ---------------------------------------------------------------------------------------------
  // Reaching a state
  // ---------------------------------------------------------------------------------------------

  lemma {:induction false} AfterAppend(s: State, run: seq<Event>, more: seq<Event>, subjectOf: Key -> Subject)
    ensures After(s, run + more, subjectOf) == After(After(s, run, subjectOf), more, subjectOf)
    decreases |run|
  {
    if run == [] {
      assert run + more == more;
    } else {
      assert (run + more)[1..] == run[1..] + more;
      AfterAppend(Next(s, run[0].key, run[0].action, subjectOf), run[1..], more, subjectOf);
    }
  }

  predicate Unedited(run: seq<Event>) {
    forall e :: e in run ==> !e.action.Edit?
  }

  /** Some run without edits ends there. */
  ghost predicate Reaches(s: State, t: State, subjectOf: Key -> Subject) {
    exists run :: After(s, run, subjectOf) == t && Unedited(run)
  }

  lemma ReachSelf(s: State, subjectOf: Key -> Subject)
    ensures Reaches(s, s, subjectOf)
  {
    assert After(s, [], subjectOf) == s;
  }

  lemma ReachStep(s: State, t: State, k: Key, a: Action, subjectOf: Key -> Subject)
    requires Reaches(s, t, subjectOf) && !a.Edit?
    ensures Reaches(s, Next(t, k, a, subjectOf), subjectOf)
  {
    var run :| After(s, run, subjectOf) == t && Unedited(run);
    var more := [Event(k, a)];
    assert more[1..] == [];
    assert After(t, more, subjectOf) == After(Next(t, k, a, subjectOf), [], subjectOf);
    AfterAppend(s, run, more, subjectOf);
    assert After(s, run + more, subjectOf) == Next(t, k, a, subjectOf) && Unedited(run + more);
  }

  lemma ReachTransitive(s: State, t: State, u: State, subjectOf: Key -> Subject)
    requires Reaches(s, t, subjectOf) && Reaches(t, u, subjectOf)
    ensures Reaches(s, u, subjectOf)
  {
    var run :| After(s, run, subjectOf) == t && Unedited(run);
    var more :| After(t, more, subjectOf) == u && Unedited(more);
    AfterAppend(s, run, more, subjectOf);
    assert After(s, run + more, subjectOf) == u && Unedited(run + more);
  }

  /** A call that goes well, with a read that is `back` versions old. */
  function Smooth(back: nat): Outcome {
    Outcome(false, false, NoError, 0, false, back)
  }

  lemma CallReaches(s: State, t: State, k: Key, o: Outcome, e: Effect, subjectOf: Key -> Subject) returns (u: State)
    requires Reaches(s, t, subjectOf) && k in t.workers && e == EffectOf(t, k, t.workers[k], o, subjectOf)
    ensures u == Performed(t, k, e) && Reaches(s, u, subjectOf)
  {
    ReachStep(s, t, k, Call(o), subjectOf);
    u := Called(t, k, o, subjectOf);
  }

  // ---------------------------------------------------------------------------------------------
  // How things are left behind
  // ---------------------------------------------------------------------------------------------

  /** A finalization that has come to `at` without writing to clusters or ports. */
  ghost predicate Comes(s: State, t: State, k: Key, w: Worker, at: Pc, subjectOf: Key -> Subject) {
    && Reaches(s, t, subjectOf) && k in t.workers && t.workers[k] == w.(at := at)
    && t.ports == s.ports && t.clusters == s.clusters && t.bindings.Keys == s.bindings.Keys
  }

  function AfterRole(w: Worker, role: Role): Pc {
    if role == KubeletNode then UnbindRead(PriorityClass, false) else if Mirrors(w.copy) then FreeRead else DropLease
  }

  /** Smooth calls take a finalization past one binding, whether the subject is in it or not. */
  lemma PastOneBinding(s: State, t: State, k: Key, w: Worker, role: Role, subjectOf: Key -> Subject) returns (u: State)
    requires Comes(s, t, k, w, UnbindRead(role, false), subjectOf) && role in t.bindings
    ensures Comes(s, u, k, w, AfterRole(w, role), subjectOf)
    ensures forall r :: r in t.bindings && r != role ==> u.bindings[r] == t.bindings[r]
  {
    if subjectOf(k) !in t.bindings[role].subjects {
      u := MissedBinding(s, t, k, w, role, 0, subjectOf);
    } else {
      u := CallReaches(s, t, k, Smooth(0), AtUnbindRead(t, k, t.workers[k], Smooth(0), subjectOf), subjectOf);
      u := UnbindWritten(s, u, k, w, role, subjectOf);
    }
  }

  lemma UnbindWritten(s: State, t: State, k: Key, w: Worker, role: Role, subjectOf: Key -> Subject) returns (u: State)
    requires role in t.bindings
    requires Comes(s, t, k, w, UnbindWrite(role, false, t.bindings[role].subjects, t.bindings[role].version), subjectOf)
    ensures Comes(s, u, k, w, AfterRole(w, role), subjectOf)
    ensures forall r :: r in t.bindings && r != role ==> u.bindings[r] == t.bindings[r]
  {
    u := CallReaches(s, t, k, Smooth(0), AtUnbindWrite(t, k, t.workers[k], Smooth(0), subjectOf), subjectOf);
  }

  /** One call takes it past a binding if that call reads a version without the subject. */
  lemma MissedBinding(s: State, t: State, k: Key, w: Worker, role: Role, back: nat, subjectOf: Key -> Subject) returns (u: State)
    requires Comes(s, t, k, w, UnbindRead(role, false), subjectOf) && role in t.bindings
    requires subjectOf(k) !in ServedBinding(t, role, back).subjects
    ensures Comes(s, u, k, w, AfterRole(w, role), subjectOf)
    ensures forall r :: r in t.bindings ==> u.bindings[r].subjects == t.bindings[r].subjects
    ensures forall r :: r in t.bindings && r != role ==> u.bindings[r] == t.bindings[r]
  {
    u := CallReaches(s, t, k, Smooth(back), AtUnbindRead(t, k, t.workers[k], Smooth(back), subjectOf), subjectOf);
  }

  /** The end of a finalization of a cluster that does not mirror, or whose status has the port that the map has. */
  lemma FinalizationEnds(s: State, t: State, k: Key, w: Worker, subjectOf: Key -> Subject) returns (u: State)
    requires Comes(s, t, k, w, if Mirrors(w.copy) then FreeRead else DropLease, subjectOf) && PortMatches(t, k, w.copy)
    requires w.copy.finalizer && Current(t, k, w)
    ensures Reaches(s, u, subjectOf) && !HasFinalizer(u, k) && u.bindings == t.bindings
    ensures if Mirrors(w.copy) then PortKeyOf(k) !in u.ports.ports else u.ports == t.ports
    ensures forall j :: j != k && HasFinalizer(u, j) ==> HasFinalizer(t, j)
  {
    u := t;
    if Mirrors(w.copy) {
      u := CallReaches(s, u, k, Smooth(0), AtFreeRead(u, k, u.workers[k], Smooth(0)), subjectOf);
      assert u.workers[k].at == FreeWrite(t.ports, t.portsVersion);
      u := CallReaches(s, u, k, Smooth(0), AtFreeWrite(u, k, u.workers[k], Smooth(0)), subjectOf);
      assert u.workers[k] == w.(at := DropLease) && u.clusters == t.clusters && u.bindings == t.bindings;
    }
    u := LastCalls(s, u, k, w, subjectOf);
  }

  /** Nothing keeps the port from being given back. */
  predicate PortMatches(s: State, k: Key, c: Cluster) {
    Mirrors(c) && PortKeyOf(k) in s.ports.ports ==> s.ports.ports[PortKeyOf(k)] == c.status.port
  }

  lemma LastCalls(s: State, t: State, k: Key, w: Worker, subjectOf: Key -> Subject) returns (u: State)
    requires Reaches(s, t, subjectOf) && k in t.workers && t.workers[k] == w.(at := DropLease)
    requires w.copy.finalizer && Current(t, k, w)
    ensures Reaches(s, u, subjectOf) && !HasFinalizer(u, k) && u.bindings == t.bindings && u.ports == t.ports
    ensures forall j :: j != k && HasFinalizer(u, j) ==> HasFinalizer(t, j)
  {
    var v := CallReaches(s, t, k, Smooth(0), AtDropLease(t.workers[k], Smooth(0)), subjectOf);
    assert v.workers[k] == w.(at := RemoveFinalizer);
    var e := AtRemoveFinalizer(v, k, v.workers[k], Smooth(0));
    u := CallReaches(s, v, k, Smooth(0), e, subjectOf);
    FinalizerRemoved(v, k, e);
  }

  lemma FinalizerRemoved(t: State, k: Key, e: Effect)
    requires e.next.None? && (e.touch == DropCluster || (e.touch.WriteCluster? && !e.touch.cluster.finalizer))
    ensures var u := Performed(t, k, e);
      && !HasFinalizer(u, k) && u.bindings == t.bindings && u.ports == t.ports
      && forall j :: j != k && HasFinalizer(u, j) ==> HasFinalizer(t, j)
  {
  }

  lemma StartsFresh(s: State, k: Key)
    requires k in s.clusters && k !in s.workers
    ensures Started(s, k, 0) ==
      s.(older := s.older[k := []], workers := s.workers[k := Worker(s.clusters[k], s.clusters[k].status, Begin)])
  {
  }

  /** A deleted cluster's finalization has begun, with an up-to-date copy. */
  lemma FinalizationBegins(s: State, k: Key, subjectOf: Key -> Subject) returns (u: State, w: Worker)
    requires HasFinalizer(s, k) && s.clusters[k].deleting && k !in s.workers
    ensures Comes(s, u, k, w, UnbindRead(KubeletNode, false), subjectOf) && u.bindings == s.bindings
    ensures w.copy == Terminated(s.clusters[k]) && Current(u, k, w)
  {
    ReachSelf(s, subjectOf);
    ReachStep(s, s, k, Start(0), subjectOf);
    StartsFresh(s, k);
    u, w := BeginsToFinalize(s, Started(s, k, 0), k, subjectOf);
  }

  lemma BeginsToFinalize(s: State, t: State, k: Key, subjectOf: Key -> Subject) returns (u: State, w: Worker)
    requires Reaches(s, t, subjectOf) && k in t.workers && t.workers[k].at.Begin? && t.workers[k].copy.deleting
    ensures Reaches(s, u, subjectOf) && u == t.(workers := t.workers[k := w.(at := UnbindRead(KubeletNode, false))])
    ensures w.copy == Terminated(t.workers[k].copy)
  {
    w := t.workers[k].(copy := Terminated(t.workers[k].copy));
    var e := Goes(w, UnbindRead(KubeletNode, false));
    assert AtBegin(t, k, t.workers[k], Smooth(0)) == e;
    u := CallReaches(s, t, k, Smooth(0), e, subjectOf);
  }

  /** Any cluster with the finalizer can be deleted, whatever its worker was doing. */
  lemma DeletionReaches(s: State, k: Key, subjectOf: Key -> Subject) returns (u: State)
    requires HasFinalizer(s, k)
    ensures Reaches(s, u, subjectOf) && u.bindings == s.bindings && u.ports == s.ports && k !in u.workers
    ensures HasFinalizer(u, k) && u.clusters[k] == s.clusters[k].(deleting := true, version := u.clusters[k].version)
    ensures forall j :: HasFinalizer(u, j) ==> HasFinalizer(s, j)
  {
    ReachSelf(s, subjectOf);
    ReachStep(s, s, k, Crash, subjectOf);
    ReachStep(s, Stop(s, k), k, Delete, subjectOf);
    u := Deleted(Stop(s, k), k);
  }

  /** The condition on edits is needed: from any state with both bindings installed, any cluster that holds a port can
      have its mirroring switched off and be deleted, and its finalization succeeds and leaves the port taken. */
  lemma SwitchingOffStrandsThePort(s: State, k: Key, subjectOf: Key -> Subject)
    requires HasFinalizer(s, k) && PortKeyOf(k) in s.ports.ports && forall role :: role in s.bindings
    ensures exists run :: !HasFinalizer(After(s, run, subjectOf), k) && After(s, run, subjectOf).ports == s.ports
  {
    var edit := Edit(s.clusters[k].mode, false, s.clusters[k].held);
    var t := Next(s, k, edit, subjectOf);
    var v := DeletionReaches(t, k, subjectOf);
    var u, w := FinalizationBegins(v, k, subjectOf);
    u := PastOneBinding(v, u, k, w, KubeletNode, subjectOf);
    u := PastOneBinding(v, u, k, w, PriorityClass, subjectOf);
    u := FinalizationEnds(v, u, k, w, subjectOf);
    ReachTransitive(t, v, u, subjectOf);
    var run :| After(t, run, subjectOf) == u && Unedited(run);
    var whole := [Event(k, edit)] + run;
    assert whole[1..] == run;
    assert !HasFinalizer(After(s, whole, subjectOf), k);
  }

  /** Some run leaves the subject in the binding, with nobody to answer for it. */
  ghost predicate CanAbandon(s: State, role: Role, x: Subject, subjectOf: Key -> Subject) {
    exists t :: Reaches(s, t, subjectOf) && !SubjectHeld(t, role, x, subjectOf)
  }

  /** The condition on reads is needed too: while the cache lags behind a cluster's own entry in a binding, the cluster
      can be deleted, its finalization passes the binding by, and the entry stays, with nobody to answer for it. */
  lemma LaggingReadLeavesTheSubject(s: State, k: Key, role: Role, back: nat, subjectOf: Key -> Subject)
    requires HasFinalizer(s, k) && PortMatches(s, k, s.clusters[k]) && forall r :: r in s.bindings
    requires Bound(s, role, subjectOf(k)) && subjectOf(k) !in ServedBinding(s, role, back).subjects
    requires forall j :: j != k && HasFinalizer(s, j) ==> subjectOf(j) != subjectOf(k)
    ensures CanAbandon(s, role, subjectOf(k), subjectOf)
  {
    var v := DeletionReaches(s, k, subjectOf);
    var u, w := FinalizationBegins(v, k, subjectOf);
    if role == KubeletNode {
      u := MissedBinding(v, u, k, w, KubeletNode, back, subjectOf);
      u := PastOneBinding(v, u, k, w, PriorityClass, subjectOf);
    } else {
      u := PastOneBinding(v, u, k, w, KubeletNode, subjectOf);
      u := MissedBinding(v, u, k, w, PriorityClass, back, subjectOf);
    }
    u := FinalizationEnds(v, u, k, w, subjectOf);
    ReachTransitive(s, v, u, subjectOf);
    assert Bound(u, role, subjectOf(k)) && !SubjectHeld(u, role, subjectOf(k), subjectOf);
  }

  /** A new cluster, in the order of its first reconciliations; it has no port yet. */
  ghost predicate Grows(s: State, t: State, k: Key, mirrors: bool, phase: Phase, finalizer: bool, subjectOf: Key -> Subject) {
    && Reaches(s, t, subjectOf) && t.bindings == s.bindings && t.ports == s.ports && t.workers == map[]
    && t.clusters.Keys == {k} && !t.clusters[k].deleting && Mirrors(t.clusters[k]) == mirrors && t.clusters[k].status.port == 0
    && t.clusters[k].status.phase == phase && t.clusters[k].finalizer == finalizer
  }

  lemma Begins(s: State, t: State, k: Key, mirrors: bool, phase: Phase, finalizer: bool, subjectOf: Key -> Subject) returns (u: State)
    requires Grows(s, t, k, mirrors, phase, finalizer, subjectOf)
    ensures Reaches(s, u, subjectOf) && u.bindings == s.bindings && u.ports == t.ports && u.clusters == t.clusters
    ensures u.workers == map[k := Worker(t.clusters[k], t.clusters[k].status, Begin)]
  {
    ReachStep(s, t, k, Start(0), subjectOf);
    u := Started(t, k, 0);
    StartsFresh(t, k);
    assert t.workers[k := Worker(t.clusters[k], t.clusters[k].status, Begin)] == map[k := Worker(t.clusters[k], t.clusters[k].status, Begin)];
  }

  lemma FirstRound(s: State, t: State, k: Key, mirrors: bool, subjectOf: Key -> Subject) returns (u: State)
    requires Grows(s, t, k, mirrors, Unset, false, subjectOf)
    ensures Grows(s, u, k, mirrors, Provisioning, false, subjectOf)
  {
    var v := Begins(s, t, k, mirrors, Unset, false, subjectOf);
    var c := t.clusters[k];
    var e := Effect(WriteCluster(c.(status := c.status.(phase := Provisioning, ready := false))), None);
    assert AtBegin(v, k, v.workers[k], Smooth(0)) == e;
    u := CallReaches(s, v, k, Smooth(0), e, subjectOf);
    Grown(s, v, u, k, e.touch.cluster, subjectOf);
  }

  lemma SecondRound(s: State, t: State, k: Key, mirrors: bool, subjectOf: Key -> Subject) returns (u: State)
    requires Grows(s, t, k, mirrors, Provisioning, false, subjectOf)
    ensures Grows(s, u, k, mirrors, Provisioning, true, subjectOf)
  {
    var v := Begins(s, t, k, mirrors, Provisioning, false, subjectOf);
    var e := Effect(WriteCluster(t.clusters[k].(finalizer := true)), None);
    assert AtBegin(v, k, v.workers[k], Smooth(0)) == e;
    u := CallReaches(s, v, k, Smooth(0), e, subjectOf);
    Grown(s, v, u, k, e.touch.cluster, subjectOf);
  }

  lemma Grown(s: State, t: State, u: State, k: Key, c: Cluster, subjectOf: Key -> Subject)
    requires Reaches(s, u, subjectOf) && u == Performed(t, k, Effect(WriteCluster(c), None))
    requires t.bindings == s.bindings && t.ports == s.ports && t.workers.Keys == {k} && t.clusters.Keys == {k} && !c.deleting && c.status.port == 0
    ensures Grows(s, u, k, Mirrors(c), c.status.phase, c.finalizer, subjectOf)
  {
    assert t.workers - {k} == map[];
  }

  /** The third one enters the subject into the first binding; the version before that can still be read. */
  lemma ThirdRound(s: State, t: State, k: Key, subjectOf: Key -> Subject) returns (u: State)
    requires Grows(s, t, k, false, Provisioning, true, subjectOf)
    requires KubeletNode in s.bindings && s.bindings[KubeletNode].subjects == [] && s.bindings[KubeletNode].older == []
    ensures Reaches(s, u, subjectOf) && u.clusters == t.clusters && u.bindings.Keys == s.bindings.Keys
    ensures Bound(u, KubeletNode, subjectOf(k)) && ServedBinding(u, KubeletNode, 1).subjects == []
  {
    var v := Begins(s, t, k, false, Provisioning, true, subjectOf);
    u := CallReaches(s, v, k, Smooth(0), AtBegin(v, k, v.workers[k], Smooth(0)), subjectOf);
    assert u == v.(workers := v.workers[k := v.workers[k].(at := BindRead(KubeletNode, false))]);
    u := Enters(s, u, k, subjectOf);
  }

  lemma Enters(s: State, t: State, k: Key, subjectOf: Key -> Subject) returns (u: State)
    requires Reaches(s, t, subjectOf) && k in t.workers && t.workers[k].at == BindRead(KubeletNode, false)
    requires KubeletNode in t.bindings && t.bindings[KubeletNode].subjects == [] && t.bindings[KubeletNode].older == []
    ensures Reaches(s, u, subjectOf) && u.clusters == t.clusters && u.bindings.Keys == t.bindings.Keys
    ensures Bound(u, KubeletNode, subjectOf(k)) && ServedBinding(u, KubeletNode, 1).subjects == []
  {
    var e := AtBindRead(t, k, t.workers[k], Smooth(0), subjectOf);
    var v := CallReaches(s, t, k, Smooth(0), e, subjectOf);
    ReadsFirst(t, k, t.workers[k], subjectOf);
    ReadIsIdle(t, k, KubeletNode);
    assert v == t.(workers := t.workers[k := e.next.value]);
    u := Entered(s, v, k, subjectOf);
  }

  lemma ReadIsIdle(t: State, k: Key, role: Role)
    requires role in t.bindings && t.bindings[role].older == []
    ensures Touched(t, k, ReadBinding(role, 0)) == t
  {
    var b := t.bindings[role];
    assert b.(older := []) == b;
    assert t.bindings[role := b] == t.bindings;
  }

  lemma ReadsFirst(t: State, k: Key, w: Worker, subjectOf: Key -> Subject)
    requires w.at == BindRead(KubeletNode, false)
    requires KubeletNode in t.bindings && t.bindings[KubeletNode].subjects == []
    ensures var at := BindWrite(KubeletNode, false, [], t.bindings[KubeletNode].version);
      AtBindRead(t, k, w, Smooth(0), subjectOf) == Effect(ReadBinding(KubeletNode, 0), Some(w.(at := at)))
  {
    assert ServedBinding(t, KubeletNode, 0) == OldBinding(t.bindings[KubeletNode].version, []);
  }

  lemma Entered(s: State, t: State, k: Key, subjectOf: Key -> Subject) returns (u: State)
    requires KubeletNode in t.bindings && t.bindings[KubeletNode].older == []
    requires Reaches(s, t, subjectOf) && k in t.workers && t.workers[k].at == BindWrite(KubeletNode, false, [], t.bindings[KubeletNode].version)
    requires t.bindings[KubeletNode].subjects == []
    ensures Reaches(s, u, subjectOf) && u.clusters == t.clusters && u.bindings.Keys == t.bindings.Keys
    ensures Bound(u, KubeletNode, subjectOf(k)) && ServedBinding(u, KubeletNode, 1).subjects == []
  {
    var e := AtBindWrite(t, k, t.workers[k], Smooth(0), subjectOf);
    u := CallReaches(s, t, k, Smooth(0), e, subjectOf);
    assert e.touch == WriteBinding(KubeletNode, [subjectOf(k)]);
    assert u.bindings[KubeletNode] == Binding(t.rv + 1, [subjectOf(k)], [OldBinding(t.bindings[KubeletNode].version, [])]);
  }

  /** So there is a run that abandons a subject from every installation with both bindings. */
  lemma LagAbandonsASubject(s: State, k: Key, subjectOf: Key -> Subject)
    requires Initial(s) && forall role :: role in s.bindings
    ensures CanAbandon(s, KubeletNode, subjectOf(k), subjectOf)
  {
    ReachSelf(s, subjectOf);
    ReachStep(s, s, k, Create(Virtual, false, false), subjectOf);
    var t := Created(s, k, Virtual, false, false);
    t := FirstRound(s, t, k, false, subjectOf);
    t := SecondRound(s, t, k, false, subjectOf);
    t := ThirdRound(s, t, k, subjectOf);
    LaggingReadLeavesTheSubject(t, k, KubeletNode, 1, subjectOf);
    var u :| Reaches(t, u, subjectOf) && !SubjectHeld(u, KubeletNode, subjectOf(k), subjectOf);
    ReachTransitive(s, t, u, subjectOf);
  }

  // ---------------------------------------------------------------------------------------------
  // What becomes of a stranded port
  // ---------------------------------------------------------------------------------------------

  /** The cluster is gone, and everything that can still be read of it is from after it was switched off. */
  ghost predicate Stranded(s: State, j: Key) {
    && PortKeyOf(j) in s.ports.ports && j !in s.clusters
    && (forall c :: c in Older(s, j) ==> c.deleting && !Mirrors(c))
    && (j in s.workers ==>
          var w := s.workers[j]; w.copy.deleting && !Mirrors(w.copy) && !w.at.FreeRead? && !w.at.FreeWrite?)
  }

  lemma StrandsForLong(s: State, k: Key, a: Action, subjectOf: Key -> Subject)
    requires Inv(s, subjectOf) && Strands(s, k, a) && !s.clusters[k].held
    ensures Stranded(Next(s, k, a, subjectOf), k)
  {
    assert WorkerOk(s, k, s.workers[k], subjectOf);
    CallPorts(s, k, a.outcome, subjectOf, PortKeyOf(k));
  }

  lemma StaysStranded(s: State, k: Key, a: Action, subjectOf: Key -> Subject, j: Key)
    requires Inv(s, subjectOf) && Stranded(s, j) && !(k == j && a.Create?)
    ensures var t := Next(s, k, a, subjectOf); Stranded(t, j) && t.ports.ports[PortKeyOf(j)] == s.ports.ports[PortKeyOf(j)]
  {
    PortKeptUntilDeletion(s, k, a, subjectOf, j);
    if k != j { OthersStay(s, k, a, subjectOf, j); } else if a.Call? && k in s.workers { GoneStaysGone(s, k, a.outcome, subjectOf); }
  }

  lemma GoneStaysGone(s: State, k: Key, o: Outcome, subjectOf: Key -> Subject)
    requires Inv(s, subjectOf) && k !in s.clusters && k in s.workers
    requires var w := s.workers[k]; w.copy.deleting && !Mirrors(w.copy) && !w.at.FreeRead? && !w.at.FreeWrite?
    ensures var t := Called(s, k, o, subjectOf);
      && k !in t.clusters && t.older == s.older
      && (k in t.workers ==> var w := t.workers[k]; w.copy.deleting && !Mirrors(w.copy) && !w.at.FreeRead? && !w.at.FreeWrite?)
  {
    CallOk(s, k, o, subjectOf);
    TouchLeavesClusters(s, k, EffectOf(s, k, s.workers[k], o, subjectOf).touch);
  }

  /** A stranded port stays, for no other cluster, until a cluster of the same namespace and name is created. */
  lemma {:induction false} StrandedPortStays(s: State, run: seq<Event>, subjectOf: Key -> Subject, j: Key)
    requires Inv(s, subjectOf) && Stranded(s, j) && forall e :: e in run ==> !(e.key == j && e.action.Create?)
    ensures var t, key := After(s, run, subjectOf), PortKeyOf(j);
      key in t.ports.ports && t.ports.ports[key] == s.ports.ports[key] && Consistent(t.ports)
    decreases |run|
  {
    if run != [] {
      var e := run[0];
      assert e in run && forall f :: f in run[1..] ==> f in run;
      StaysStranded(s, e.key, e.action, subjectOf, j);
      NextKeeps(s, e.key, e.action, subjectOf);
      StrandedPortStays(Next(s, e.key, e.action, subjectOf), run[1..], subjectOf, j);
    }
  }
}
