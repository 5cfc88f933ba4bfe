/** Reconciliations of different policies run at the same time, fail, and are repeated. What they do to the namespaces is
    some sequence of attempts, and every sequence that contains those of one reconciliation of each policy without an
    error leads to one state. */
module PolicyConvergence {
  import opened Basics
  import opened Policy
  import opened PolicyController

  // ---------------------------------------------------------------------------------------------
  // What is done stays done
  // ---------------------------------------------------------------------------------------------

  /** The write would change nothing. */
  predicate Done(st: Setting, n: string, ns: Namespace, w: Write)
    requires Made(st, ns, w)
  {
    Written(st, n, ns, w) == ns
  }

  lemma MadeStays(st: Setting, n: string, ns: Namespace, w: Write, v: Write)
    requires Made(st, ns, w) && Made(st, ns, v)
    ensures Made(st, Written(st, n, ns, v), w)
  {
    WriteKeepsGoal(st, n, ns, v);
  }

  lemma DoneAtOnce(st: Setting, n: string, ns: Namespace, w: Write)
    requires Made(st, ns, w)
    ensures Made(st, Written(st, n, ns, w), w) && Done(st, n, Written(st, n, ns, w), w)
  {
    MadeStays(st, n, ns, w, w);
    if w.SetLabels? { PodSecurityKeepsBinding(ns, st.policies[Binding(ns)].psa); }
    if w.Sweep? {
      var t := Written(st, n, ns, w);
      assert Swept(t.objects, Binding(ns), w.kind) == t.objects;
    }
  }

  lemma DoneStays(st: Setting, n: string, ns: Namespace, w: Write, v: Write)
    requires Made(st, ns, w) && Made(st, ns, v) && Done(st, n, ns, w)
    ensures Made(st, Written(st, n, ns, v), w) && Done(st, n, Written(st, n, ns, v), w)
  {
    MadeStays(st, n, ns, w, v);
    match w
    case PutObject(kind) => PutStays(st, n, ns, kind, v);
    case Sweep(kind) => SweepStays(st, n, ns, kind, v);
    case SetCluster(c) => ClusterStays(st, n, ns, w, v);
    case ClearCluster(c) => ClusterStays(st, n, ns, w, v);
    case SetLabels => if v.SetLabels? { PodSecurityKeepsBinding(ns, st.policies[Binding(ns)].psa); }
  }

  lemma PutStays(st: Setting, n: string, ns: Namespace, kind: Kind, v: Write)
    requires Made(st, ns, PutObject(kind)) && Made(st, ns, v) && Done(st, n, ns, PutObject(kind))
    requires Made(st, Written(st, n, ns, v), PutObject(kind))
    ensures Done(st, n, Written(st, n, ns, v), PutObject(kind))
  {
    var b := Binding(ns);
    var key, d := ObjectKey(kind, st.nameOf(b)), Desired(st, n, b, kind);
    WriteKeepsGoal(st, n, ns, v);
    assert Put(ns.objects, key, d) == ns.objects;
    match v
    case PutObject(other) =>
      PutAbsorbs(ns.objects, ObjectKey(other, st.nameOf(b)), Desired(st, n, b, other), key, d);
    case Sweep(other) =>
      assert Put(Swept(ns.objects, b, other), key, d) == Swept(ns.objects, b, other);
    case _ =>
  }

  lemma SweepStays(st: Setting, n: string, ns: Namespace, kind: Kind, v: Write)
    requires Made(st, ns, v) && Done(st, n, ns, Sweep(kind))
    ensures Done(st, n, Written(st, n, ns, v), Sweep(kind))
  {
    var b := Binding(ns);
    WriteKeepsGoal(st, n, ns, v);
    assert Swept(ns.objects, b, kind) == ns.objects;
    match v
    case PutObject(other) => PutKeepsSwept(ns.objects, b, kind, ObjectKey(other, st.nameOf(b)), Desired(st, n, b, other));
    case Sweep(other) => SweepsCommute(ns.objects, b, kind, other);
    case _ =>
  }

  lemma PutKeepsSwept(objects: Objects, b: string, kind: Kind, key: ObjectKey, d: Option<Object>)
    requires Swept(objects, b, kind) == objects && (d.Some? ==> !Foreign(d.value, b))
    ensures Swept(Put(objects, key, d), b, kind) == Put(objects, key, d)
  {
    forall k | k in objects && k.kind == kind ensures !Foreign(objects[k], b) { assert k in Swept(objects, b, kind); }
  }

  lemma SweepsCommute(objects: Objects, b: string, kind: Kind, other: Kind)
    requires Swept(objects, b, kind) == objects
    ensures Swept(Swept(objects, b, other), b, kind) == Swept(objects, b, other)
  {
    assert Swept(Swept(objects, b, other), b, kind) == Swept(Swept(objects, b, kind), b, other);
  }

  lemma ClusterStays(st: Setting, n: string, ns: Namespace, w: Write, v: Write)
    requires w.SetCluster? || w.ClearCluster?
    requires Made(st, ns, w) && Made(st, ns, v) && Done(st, n, ns, w) && Made(st, Written(st, n, ns, v), w)
    ensures Done(st, n, Written(st, n, ns, v), w)
  {
    WriteKeepsGoal(st, n, ns, v);
    var t, c := Written(st, n, ns, v), w.cluster;
    assert ns.clusters[c] == Written(st, n, ns, w).clusters[c];
    assert t.clusters[c] == ns.clusters[c];
    assert t.clusters[c := t.clusters[c]] == t.clusters;
  }

  lemma RunAt(st: Setting, w: World, all: seq<Attempt>, n: string)
    requires n in w
    ensures n in Run(st, w, all) && Progress(st, n, w[n], Run(st, w, all)[n])
  {
    RunProgresses(st, w, all);
  }

  /** What has been attempted with success is done, whatever has been written in between. */
  lemma {:induction false} TriedIsDone(st: Setting, w: World, all: seq<Attempt>, n: string, write: Write)
    requires n in w && Made(st, w[n], write) && Attempt(n, write) in all
    ensures n in Run(st, w, all) && Made(st, Run(st, w, all)[n], write) && Done(st, n, Run(st, w, all)[n], write)
  {
    var before, a := all[..|all| - 1], all[|all| - 1];
    RunAt(st, w, before, n);
    var ns := Run(st, w, before)[n];
    if a == Attempt(n, write) {
      DoneAtOnce(st, n, ns, write);
    } else {
      TriedIsDone(st, w, before, n, write);
      if a.ns == n && Made(st, ns, a.write) { DoneStays(st, n, ns, write, a.write); }
    }
  }

  // ---------------------------------------------------------------------------------------------
  // When all is done, the goal is reached
  // ---------------------------------------------------------------------------------------------

  lemma SweptIsSweptAll(st: Setting, n: string, ns: Namespace)
    requires Done(st, n, ns, Sweep(NetworkPolicy)) && Done(st, n, ns, Sweep(ResourceQuota)) && Done(st, n, ns, Sweep(LimitRange))
    ensures SweptAll(ns.objects, Binding(ns)) == ns.objects
  {
    SweepsAreSweptAll(ns.objects, Binding(ns));
  }

  lemma GovernedDone(st: Setting, n: string, ns: Namespace)
    requires Governed(st, ns)
    requires Done(st, n, ns, Sweep(NetworkPolicy)) && Done(st, n, ns, Sweep(ResourceQuota)) && Done(st, n, ns, Sweep(LimitRange))
    requires Done(st, n, ns, PutObject(NetworkPolicy)) && Done(st, n, ns, PutObject(ResourceQuota)) && Done(st, n, ns, PutObject(LimitRange))
    requires Done(st, n, ns, SetLabels) && forall c :: c in ns.clusters ==> Done(st, n, ns, SetCluster(c))
    ensures Goal(st, n, ns) == ns
  {
    SweptIsSweptAll(st, n, ns);
    var b := Binding(ns);
    forall c | c in ns.clusters ensures ns.clusters[c] == Some(AppliedOf(st, b)) { assert Done(st, n, ns, SetCluster(c)); }
    assert WithPolicy(ns.clusters, Some(AppliedOf(st, b))) == ns.clusters;
  }

  lemma TriedReachesGoal(st: Setting, w: World, all: seq<Attempt>, n: string)
    requires n in w && Governed(st, w[n]) && SweepTried(n, all) && ImposeTried(n, w[n], all)
    ensures n in Run(st, w, all) && Run(st, w, all)[n] == Goal(st, n, w[n])
  {
    RunAt(st, w, all, n);
    TriedIsDone(st, w, all, n, Sweep(NetworkPolicy));
    TriedIsDone(st, w, all, n, Sweep(ResourceQuota));
    TriedIsDone(st, w, all, n, Sweep(LimitRange));
    TriedIsDone(st, w, all, n, PutObject(NetworkPolicy));
    TriedIsDone(st, w, all, n, PutObject(ResourceQuota));
    TriedIsDone(st, w, all, n, PutObject(LimitRange));
    TriedIsDone(st, w, all, n, SetLabels);
    var ns := Run(st, w, all)[n];
    forall c | c in ns.clusters ensures Done(st, n, ns, SetCluster(c)) { TriedIsDone(st, w, all, n, SetCluster(c)); }
    GovernedDone(st, n, ns);
  }

  lemma SweptReachesGoal(st: Setting, w: World, all: seq<Attempt>, n: string)
    requires n in w && !Governed(st, w[n]) && SweepTried(n, all)
    ensures n in Run(st, w, all)
    ensures var goal, last := Goal(st, n, w[n]), Run(st, w, all)[n];
      last.objects == goal.objects && last.labels == goal.labels && last.clusters.Keys == goal.clusters.Keys
  {
    RunAt(st, w, all, n);
    TriedIsDone(st, w, all, n, Sweep(NetworkPolicy));
    TriedIsDone(st, w, all, n, Sweep(ResourceQuota));
    TriedIsDone(st, w, all, n, Sweep(LimitRange));
    SweptIsSweptAll(st, n, Run(st, w, all)[n]);
  }

  /** A cluster that no policy governs loses its policy exactly by a successful attempt at that, and never gets one. */
  lemma {:induction false} ClearedExactly(st: Setting, w: World, all: seq<Attempt>, n: string, c: string)
    requires n in w && !Governed(st, w[n]) && c in w[n].clusters
    ensures n in Run(st, w, all) && c in Run(st, w, all)[n].clusters
    ensures Run(st, w, all)[n].clusters[c] == if Attempt(n, ClearCluster(c)) in all then None else w[n].clusters[c]
  {
    if all != [] {
      var before, a := all[..|all| - 1], all[|all| - 1];
      ClearedExactly(st, w, before, n, c);
      RunAt(st, w, before, n);
      assert all == before + [a];
    }
  }

  // ---------------------------------------------------------------------------------------------
  // Convergence
  // ---------------------------------------------------------------------------------------------

  /** There are policies, and the attempts contain those of a reconciliation of each one that has returned no error. */
  ghost predicate Complete(st: Setting, w: World, all: seq<Attempt>) {
    st.policies != map[] && forall p :: p in st.policies ==> Covers(st, p, w, all)
  }

  /** A reconciliation that begins when some of the attempts have been made, and whose own are among them, whatever
      others come in between, counts for all of them. */
  lemma ReconciledWithin(st: Setting, policy: string, w: World, all: seq<Attempt>, i: nat, own: seq<Attempt>)
    requires i <= |all| && Covers(st, policy, Run(st, w, all[..i]), own) && forall a :: a in own ==> a in all
    ensures Covers(st, policy, w, all)
  {
    forall n | n in w ensures SweepTried(n, all) && (Binding(w[n]) == policy ==> ImposeTried(n, w[n], all)) {
      RunAt(st, w, all[..i], n);
      assert SweepTried(n, own);
    }
  }

  /** Once every policy has had a reconciliation without an error, in whatever order, at the same time as others, and with
      whatever other attempts, every namespace is at the goal that it had at the start; only the clusters of an ungoverned
      namespace may lag. */
  lemma Converges(st: Setting, w: World, all: seq<Attempt>, n: string)
    requires Complete(st, w, all) && n in w
    ensures Run(st, w, all).Keys == w.Keys
    ensures var goal, last := Goal(st, n, w[n]), Run(st, w, all)[n];
      && (Governed(st, w[n]) ==> last == goal)
      && last.objects == goal.objects && last.labels == goal.labels && last.clusters.Keys == goal.clusters.Keys
  {
    RunProgresses(st, w, all);
    var p :| p in st.policies && (Governed(st, w[n]) ==> p == Binding(w[n]));
    assert Covers(st, p, w, all) && SweepTried(n, all);
    if Governed(st, w[n]) { TriedReachesGoal(st, w, all, n); } else { SweptReachesGoal(st, w, all, n); }
  }

  /** Every cluster of the namespace that carries a policy has been cleared by a successful attempt. */
  ghost predicate ClearsAll(n: string, ns: Namespace, all: seq<Attempt>) {
    forall c :: c in ns.clusters && ns.clusters[c] != None ==> Attempt(n, ClearCluster(c)) in all
  }

  /** Then a namespace is at its goal exactly if a policy governs it or its clusters have been cleared. */
  lemma ConvergesExactly(st: Setting, w: World, all: seq<Attempt>, n: string)
    requires Complete(st, w, all) && n in w
    ensures n in Run(st, w, all)
    ensures Run(st, w, all)[n] == Goal(st, n, w[n]) <==> Governed(st, w[n]) || ClearsAll(n, w[n], all)
  {
    Converges(st, w, all, n);
    if !Governed(st, w[n]) {
      var last, goal := Run(st, w, all)[n], Goal(st, n, w[n]);
      forall c | c in w[n].clusters
        ensures last.clusters[c] == if Attempt(n, ClearCluster(c)) in all then None else w[n].clusters[c]
      {
        ClearedExactly(st, w, all, n, c);
      }
      if ClearsAll(n, w[n], all) {
        assert last.clusters == goal.clusters;
      } else {
        var c :| c in w[n].clusters && w[n].clusters[c] != None && Attempt(n, ClearCluster(c)) !in all;
        assert last.clusters[c] != goal.clusters[c];
      }
    }
  }

  /** Two such sequences, of any orders and overlaps, end in one state exactly if they have cleared the same clusters of
      ungoverned namespaces. */
  lemma OrderDoesNotMatter(st: Setting, w: World, all: seq<Attempt>, all': seq<Attempt>)
    requires Complete(st, w, all) && Complete(st, w, all')
    ensures Run(st, w, all) == Run(st, w, all') <==>
      forall n, c :: n in w && !Governed(st, w[n]) && c in w[n].clusters && w[n].clusters[c] != None ==>
        (Attempt(n, ClearCluster(c)) in all <==> Attempt(n, ClearCluster(c)) in all')
  {
    var r, r' := Run(st, w, all), Run(st, w, all');
    forall n | n in w
      ensures n in r && n in r'
      ensures r[n] == r'[n] <==> !Governed(st, w[n]) ==>
        forall c :: c in w[n].clusters && w[n].clusters[c] != None ==>
          (Attempt(n, ClearCluster(c)) in all <==> Attempt(n, ClearCluster(c)) in all')
    {
      SameEnd(st, w, all, all', n);
    }
    RunProgresses(st, w, all);
    RunProgresses(st, w, all');
    if forall n, c :: n in w && !Governed(st, w[n]) && c in w[n].clusters && w[n].clusters[c] != None ==>
      (Attempt(n, ClearCluster(c)) in all <==> Attempt(n, ClearCluster(c)) in all')
    {
      forall n | n in w ensures r[n] == r'[n] {}
      assert r == r';
    }
  }

  lemma SameEnd(st: Setting, w: World, all: seq<Attempt>, all': seq<Attempt>, n: string)
    requires Complete(st, w, all) && Complete(st, w, all') && n in w
    ensures n in Run(st, w, all) && n in Run(st, w, all')
    ensures Run(st, w, all)[n] == Run(st, w, all')[n] <==> !Governed(st, w[n]) ==>
      forall c :: c in w[n].clusters && w[n].clusters[c] != None ==>
        (Attempt(n, ClearCluster(c)) in all <==> Attempt(n, ClearCluster(c)) in all')
  {
    Converges(st, w, all, n);
    Converges(st, w, all', n);
    if !Governed(st, w[n]) {
      var last, last' := Run(st, w, all)[n], Run(st, w, all')[n];
      forall c | c in w[n].clusters
        ensures last.clusters[c] == if Attempt(n, ClearCluster(c)) in all then None else w[n].clusters[c]
        ensures last'.clusters[c] == if Attempt(n, ClearCluster(c)) in all' then None else w[n].clusters[c]
      {
        ClearedExactly(st, w, all, n, c);
        ClearedExactly(st, w, all', n, c);
      }
      if forall c :: c in w[n].clusters && w[n].clusters[c] != None ==>
        (Attempt(n, ClearCluster(c)) in all <==> Attempt(n, ClearCluster(c)) in all')
      {
        assert last.clusters == last'.clusters;
      }
    }
  }

  /** And once there, nothing that the controller does changes anything. */
  lemma FurtherReconciliationsAreIdle(st: Setting, w: World, all: seq<Attempt>)
    requires forall n :: n in w ==> w[n] == Goal(st, n, w[n])
    ensures Run(st, w, all) == w
  {
    RunProgresses(st, w, all);
    var last := Run(st, w, all);
    forall n | n in w ensures last[n] == w[n] { StaysAtGoal(st, n, w[n], last[n]); }
  }

  lemma StaysAtGoal(st: Setting, n: string, a: Namespace, b: Namespace)
    requires Progress(st, n, a, b) && a == Goal(st, n, a)
    ensures b == a
  {
    assert b.clusters == a.clusters;
  }

  // ---------------------------------------------------------------------------------------------
  // What the goal is
  // ---------------------------------------------------------------------------------------------

  /** A namespace bound to an existing policy holds exactly that policy's objects among the managed ones, every cluster
      carries the policy, and everything else is as before. */
  lemma GoalOfGoverned(st: Setting, nsName: string, ns: Namespace, kind: Kind, key: ObjectKey)
    requires Governed(st, ns) && Tidy(st, ns.objects)
    ensures var b, g := Binding(ns), Goal(st, nsName, ns);
      && Holds(st, nsName, b, kind, g.objects)
      && (key in g.objects && g.objects[key].managed ==> key.name == st.nameOf(b) && g.objects[key].policy == b)
      && (key.name != st.nameOf(b) ==> (key in g.objects <==> key in ns.objects && !ns.objects[key].managed))
      && (key.name != st.nameOf(b) && key in g.objects ==> g.objects[key] == ns.objects[key])
      && g.clusters.Keys == ns.clusters.Keys
      && (forall c :: c in g.clusters ==> g.clusters[c] == Some(AppliedPolicy(b, st.policies[b].applied)))
  {
    HoldsExactly(st, nsName, Binding(ns), kind, Goal(st, nsName, ns).objects);
  }

  /** The labels, as they are written, and where a namespace's policy is read from. */
  lemma LabelsAre(ns: Namespace)
    ensures ENFORCE == "pod-security.kubernetes.io/enforce" && ENFORCE_VERSION == "pod-security.kubernetes.io/enforce-version"
    ensures WARN == "pod-security.kubernetes.io/warn" && WARN_VERSION == "pod-security.kubernetes.io/warn-version"
    ensures Binding(ns) == if "policy.k3k.io/policy-name" in ns.labels then ns.labels["policy.k3k.io/policy-name"] else ""
  {
  }

  /** The pod security labels are the policy's, and the others are as before. */
  lemma GoalOfLabels(st: Setting, nsName: string, ns: Namespace, key: string)
    requires Governed(st, ns)
    ensures var psa, l := st.policies[Binding(ns)].psa, Goal(st, nsName, ns).labels;
      && (key in {ENFORCE, ENFORCE_VERSION} ==> (key in l <==> psa.Some?))
      && (key in {WARN, WARN_VERSION} ==> (key in l <==> psa.Some? && psa.value != "privileged"))
      && (key in {ENFORCE, WARN} && key in l ==> l[key] == psa.value)
      && (key in {ENFORCE_VERSION, WARN_VERSION} && key in l ==> l[key] == "latest")
      && (key !in {ENFORCE, ENFORCE_VERSION, WARN, WARN_VERSION} ==>
            (key in l <==> key in ns.labels) && (key in l ==> l[key] == ns.labels[key]))
  {
  }

  /** A namespace without a policy keeps no managed object; one bound to a policy that does not exist keeps exactly
      the objects of that policy. Clusters carry no policy; labels, also those for pod security, stay. */
  lemma GoalOfUngoverned(st: Setting, nsName: string, ns: Namespace, key: ObjectKey)
    requires !Governed(st, ns)
    ensures var b, g := Binding(ns), Goal(st, nsName, ns);
      && (key in g.objects <==> key in ns.objects && (!ns.objects[key].managed || (b != "" && ns.objects[key].policy == b)))
      && (key in g.objects ==> g.objects[key] == ns.objects[key])
      && g.labels == ns.labels && g.clusters.Keys == ns.clusters.Keys
      && (forall c :: c in g.clusters ==> g.clusters[c] == None)
  {
  }

  lemma {:induction false} RunAppend(st: Setting, w: World, first: seq<Attempt>, more: seq<Attempt>)
    ensures Run(st, w, first + more) == Run(st, Run(st, w, first), more)
  {
    if more == [] {
      assert first + more == first;
    } else {
      var before, a := more[..|more| - 1], more[|more| - 1];
      assert first + more == (first + before) + [a];
      RunOneMore(st, w, first + before, a);
      RunAppend(st, w, first, before);
    }
  }

  /** All of it together: however the reconciliations went, once every policy has had one without an error, a namespace
      bound to an existing policy holds exactly this policy's objects among the managed ones. Nothing about them need be
      assumed of a namespace that no policy has touched, since every write leaves them tidy. */
  lemma BoundNamespacesHoldTheirPolicy(st: Setting, w: World, all: seq<Attempt>, n: string, i: nat, kind: Kind, key: ObjectKey)
    requires Complete(st, w, all) && i <= |all| && n in w && Governed(st, w[n])
    requires n in Run(st, w, all[..i]) && Unmanaged(Run(st, w, all[..i])[n].objects)
    ensures n in Run(st, w, all)
    ensures var b, last := Binding(w[n]), Run(st, w, all)[n];
      && Holds(st, n, b, kind, last.objects)
      && (key in last.objects && last.objects[key].managed ==> key.name == st.nameOf(b) && last.objects[key].policy == b)
      && (forall c :: c in last.clusters ==> last.clusters[c] == Some(AppliedPolicy(b, st.policies[b].applied)))
  {
    Converges(st, w, all, n);
    RunAt(st, w, all, n);
    EndsTidy(st, w, all, n, i);
    var last := Run(st, w, all)[n];
    assert last == Goal(st, n, last);
    GoalOfGoverned(st, n, last, kind, key);
  }

  lemma EndsTidy(st: Setting, w: World, all: seq<Attempt>, n: string, i: nat)
    requires i <= |all| && n in w && n in Run(st, w, all[..i]) && Unmanaged(Run(st, w, all[..i])[n].objects)
    ensures n in Run(st, w, all) && Tidy(st, Run(st, w, all)[n].objects)
  {
    var mid := Run(st, w, all[..i]);
    RunAppend(st, w, all[..i], all[i..]);
    assert all[..i] + all[i..] == all;
    RunAt(st, mid, all[i..], n);
    assert Tidy(st, mid[n].objects);
  }

  ghost predicate Unmanaged(objects: Objects) {
    forall k :: k in objects ==> !objects[k].managed
  }
}
