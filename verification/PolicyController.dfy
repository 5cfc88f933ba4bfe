/** The policy controller's loops over namespaces and clusters, in whatever order they are listed, with any calls
    failing. */
module PolicyController {
  import opened Basics
  import opened Policy

  type World = map<string, Namespace>

  /** From `a` to `b` the goal has not moved, and what was as the goal wants it has stayed. */
  ghost predicate Progress(st: Setting, nsName: string, a: Namespace, b: Namespace) {
    Goal(st, nsName, b) == Goal(st, nsName, a) && Binding(b) == Binding(a) && Keeps(st, nsName, a, b)
  }

  ghost predicate WorldProgress(st: Setting, a: World, b: World) {
    a.Keys == b.Keys && forall n {:trigger Progress(st, n, a[n], b[n])} :: n in a ==> Progress(st, n, a[n], b[n])
  }

  lemma ProgressesOn(st: Setting, a: World, b: World, c: World)
    requires WorldProgress(st, a, b) && WorldProgress(st, b, c)
    ensures WorldProgress(st, a, c)
  {
    forall n | n in a ensures Progress(st, n, a[n], c[n]) {
      assert Progress(st, n, a[n], b[n]) && Progress(st, n, b[n], c[n]);
    }
  }

  lemma WriteProgresses(st: Setting, a: World, n: string, w: Write)
    requires n in a && Made(st, a[n], w)
    ensures WorldProgress(st, a, a[n := Written(st, n, a[n], w)])
  {
    var b := a[n := Written(st, n, a[n], w)];
    forall m | m in a ensures Progress(st, m, a[m], b[m]) {
      if m == n {
        WriteKeepsGoal(st, n, a[n], w);
        WriteKeepsSettled(st, n, a[n], w);
      }
    }
  }

  ghost predicate OthersStay(a: Objects, b: Objects, key: ObjectKey) {
    forall k :: k != key ==> (k in a <==> k in b) && (k in a ==> a[k] == b[k])
  }

  predicate SameShape(a: Namespace, b: Namespace) {
    Binding(b) == Binding(a) && b.clusters.Keys == a.clusters.Keys
  }

  // ---------------------------------------------------------------------------------------------
  // Failures, and what comes of them
  // ---------------------------------------------------------------------------------------------

  /** The calls of one reconciliation. `LookUp` is the call before the actual write of an object: the lookup before a
      deletion, or the creation that is answered with "already exists". */
  datatype ApiCall =
    | ListBound | ListNamespaces
    | LookUp(ns: string, kind: Kind) | WriteObject(ns: string, kind: Kind) | UpdateNamespace(ns: string)
    | GetPolicy(ns: string) | ListClusters(ns: string) | UpdateCluster(ns: string, cluster: string)
    | DeleteAll(ns: string, kind: Kind)

  /** Which calls fail, without effect. */
  type Failures = ApiCall -> bool

  predicate ObjectSucceeds(f: Failures, st: Setting, n: string, ns: Namespace, kind: Kind)
    requires Governed(st, ns)
  {
    var there, desired := ObjectKey(kind, st.nameOf(Binding(ns))) in ns.objects, Desired(st, n, Binding(ns), kind);
    if desired.None? && kind != NetworkPolicy then !f(LookUp(n, kind)) && (there ==> !f(WriteObject(n, kind)))
    else (desired.Some? && there ==> !f(LookUp(n, kind))) && !f(WriteObject(n, kind))
  }

  /** Every cluster that needs it is updated. */
  predicate ClustersSucceed(f: Failures, n: string, clusters: map<string, Option<AppliedPolicy>>, a: Option<AppliedPolicy>) {
    !f(ListClusters(n)) && forall c :: c in clusters && clusters[c] != a ==> !f(UpdateCluster(n, c))
  }

  /** The clusters after an attempt to give all of them the policy, or none: each that needs it is updated, unless the
      listing or its own update fails. */
  function ClustersAfter(f: Failures, n: string, clusters: map<string, Option<AppliedPolicy>>, a: Option<AppliedPolicy>)
    : map<string, Option<AppliedPolicy>>
  {
    map c | c in clusters :: if f(ListClusters(n)) || f(UpdateCluster(n, c)) then clusters[c] else a
  }

  predicate ObjectsSucceed(f: Failures, st: Setting, n: string, ns: Namespace)
    requires Governed(st, ns)
  {
    && ObjectSucceeds(f, st, n, ns, NetworkPolicy) && ObjectSucceeds(f, st, n, ns, ResourceQuota)
    && ObjectSucceeds(f, st, n, ns, LimitRange)
  }

  /** The loop over the clusters has these before it; the others have the target, unless their own update has failed. */
  ghost predicate Updated(f: Failures, n: string, start: map<string, Option<AppliedPolicy>>, now: map<string, Option<AppliedPolicy>>,
                          todo: set<string>, target: Option<AppliedPolicy>)
  {
    && now.Keys == start.Keys && todo <= start.Keys
    && forall c :: c in start ==> now[c] == if c in todo || f(UpdateCluster(n, c)) then start[c] else target
  }

  ghost predicate AllWell(f: Failures, n: string, start: map<string, Option<AppliedPolicy>>, todo: set<string>, target: Option<AppliedPolicy>) {
    forall c :: c in start && c !in todo && start[c] != target ==> !f(UpdateCluster(n, c))
  }

  lemma OneUpdated(f: Failures, n: string, start: map<string, Option<AppliedPolicy>>, now: map<string, Option<AppliedPolicy>>,
                   todo: set<string>, target: Option<AppliedPolicy>, c: string)
    requires Updated(f, n, start, now, todo, target) && c in todo
    ensures var ok := now[c] != target ==> !f(UpdateCluster(n, c));
      && Updated(f, n, start, if ok then now[c := target] else now, todo - {c}, target)
      && (AllWell(f, n, start, todo - {c}, target) <==> AllWell(f, n, start, todo, target) && ok)
  {
  }

  lemma LoopDone(f: Failures, n: string, start: map<string, Option<AppliedPolicy>>, now: map<string, Option<AppliedPolicy>>, target: Option<AppliedPolicy>)
    requires Updated(f, n, start, now, {}, target) && !f(ListClusters(n))
    ensures now == ClustersAfter(f, n, start, target) && (AllWell(f, n, start, {}, target) <==> ClustersSucceed(f, n, start, target))
  {
  }

  lemma AllUpdated(f: Failures, n: string, clusters: map<string, Option<AppliedPolicy>>, a: Option<AppliedPolicy>)
    requires ClustersSucceed(f, n, clusters, a)
    ensures ClustersAfter(f, n, clusters, a) == WithPolicy(clusters, a)
  {
  }

  /** Writing one kind of object does not change how another one goes. */
  lemma ObjectsIndependent(f: Failures, st: Setting, n: string, ns: Namespace, put: Kind, kind: Kind)
    requires Governed(st, ns) && put != kind
    ensures var b := Written(st, n, ns, PutObject(put));
      Governed(st, b) && Binding(b) == Binding(ns) && ObjectSucceeds(f, st, n, b, kind) == ObjectSucceeds(f, st, n, ns, kind)
  {
  }

  /** After the objects: the clusters, and then the labels. */
  predicate RestSucceeds(f: Failures, st: Setting, n: string, ns: Namespace)
    requires Governed(st, ns)
  {
    && ClustersSucceed(f, n, ns.clusters, Some(AppliedOf(st, Binding(ns))))
    && (PodSecurity(ns.labels, st.policies[Binding(ns)].psa) != ns.labels ==> !f(UpdateNamespace(n)))
  }

  predicate NamespaceSucceeds(f: Failures, st: Setting, n: string, ns: Namespace) {
    Governed(st, ns) && ObjectsSucceed(f, st, n, ns) && RestSucceeds(f, st, n, ns)
  }

  predicate SweepSucceeds(f: Failures, n: string) {
    !f(DeleteAll(n, NetworkPolicy)) && !f(DeleteAll(n, ResourceQuota)) && !f(DeleteAll(n, LimitRange))
  }

  /** What a reconciled policy leaves in a namespace bound to it, before the clean-up. */
  function Imposed(st: Setting, nsName: string, ns: Namespace): Namespace {
    var b := Binding(ns);
    if !Governed(st, ns) then ns
    else Namespace(PodSecurity(ns.labels, st.policies[b].psa), PutAll(st, nsName, ns.objects, b),
                   WithPolicy(ns.clusters, Some(AppliedOf(st, b))))
  }

  function ImposedBy(st: Setting, policy: string, nsName: string, ns: Namespace): Namespace {
    if Binding(ns) == policy then Imposed(st, nsName, ns) else ns
  }

  /** The clean-up of a namespace clears its clusters if it finds that no policy governs it. */
  predicate FindsUngoverned(f: Failures, st: Setting, n: string, ns: Namespace) {
    Binding(ns) == "" || (Binding(ns) !in st.policies && !f(GetPolicy(n)))
  }

  /** What the clean-up leaves if its deletions succeed. */
  function Cleaned(f: Failures, st: Setting, n: string, ns: Namespace): Namespace {
    Namespace(ns.labels, SweptAll(ns.objects, Binding(ns)),
              if FindsUngoverned(f, st, n, ns) then ClustersAfter(f, n, ns.clusters, None) else ns.clusters)
  }

  /** What a reconciliation leaves if it succeeds. */
  function Outcome(f: Failures, st: Setting, policy: string, n: string, ns: Namespace): Namespace {
    Cleaned(f, st, n, ImposedBy(st, policy, n, ns))
  }

  ghost predicate AllImpose(f: Failures, st: Setting, policy: string, w: World) {
    forall n {:trigger NamespaceSucceeds(f, st, n, w[n])} :: n in w && Binding(w[n]) == policy ==> NamespaceSucceeds(f, st, n, w[n])
  }

  ghost predicate ImposedEverywhere(st: Setting, policy: string, a: World, b: World) {
    b.Keys == a.Keys && forall n {:trigger ImposedBy(st, policy, n, a[n])} :: n in a ==> b[n] == ImposedBy(st, policy, n, a[n])
  }

  /** The calls whose failure is returned as an error all succeed. */
  ghost predicate Succeeds(f: Failures, st: Setting, policy: string, w: World)
    requires policy in st.policies && policy != ""
  {
    && !f(ListBound) && !f(ListNamespaces)
    && AllImpose(f, st, policy, w) && forall n :: n in w ==> SweepSucceeds(f, n)
  }

  // ---------------------------------------------------------------------------------------------
  // Attempts
  // ---------------------------------------------------------------------------------------------

  /** An attempt at a write that has gone well: it was written, or found to be there already. */
  datatype Attempt = Attempt(ns: string, write: Write)

  function Stepped(st: Setting, w: World, a: Attempt): World {
    if a.ns in w && Made(st, w[a.ns], a.write) then w[a.ns := Written(st, a.ns, w[a.ns], a.write)] else w
  }

  ghost function Run(st: Setting, w: World, attempts: seq<Attempt>): World {
    if attempts == [] then w else Stepped(st, Run(st, w, attempts[..|attempts| - 1]), attempts[|attempts| - 1])
  }

  lemma RunOneMore(st: Setting, w: World, attempts: seq<Attempt>, a: Attempt)
    ensures Run(st, w, attempts + [a]) == Stepped(st, Run(st, w, attempts), a)
  {
    assert (attempts + [a])[..|attempts|] == attempts;
  }

  lemma {:induction false} RunProgresses(st: Setting, w: World, attempts: seq<Attempt>)
    ensures WorldProgress(st, w, Run(st, w, attempts))
  {
    if attempts == [] {
      forall n | n in w ensures Progress(st, n, w[n], w[n]) {}
    } else {
      var before, a := Run(st, w, attempts[..|attempts| - 1]), attempts[|attempts| - 1];
      RunProgresses(st, w, attempts[..|attempts| - 1]);
      if a.ns in before && Made(st, before[a.ns], a.write) {
        WriteProgresses(st, before, a.ns, a.write);
        ProgressesOn(st, w, before, Stepped(st, before, a));
      }
    }
  }

  /** Everything that a policy wants of a namespace bound to it has been attempted with success. */
  ghost predicate ImposeTried(n: string, ns: Namespace, attempts: seq<Attempt>) {
    PutTried(n, attempts) && Attempt(n, SetLabels) in attempts && ClustersTried(n, ns, attempts)
  }

  ghost predicate PutTried(n: string, attempts: seq<Attempt>) {
    && Attempt(n, PutObject(NetworkPolicy)) in attempts && Attempt(n, PutObject(ResourceQuota)) in attempts
    && Attempt(n, PutObject(LimitRange)) in attempts
  }

  ghost predicate ClustersTried(n: string, ns: Namespace, attempts: seq<Attempt>) {
    forall c :: c in ns.clusters ==> Attempt(n, SetCluster(c)) in attempts
  }

  ghost predicate SweepTried(n: string, attempts: seq<Attempt>) {
    && Attempt(n, Sweep(NetworkPolicy)) in attempts && Attempt(n, Sweep(ResourceQuota)) in attempts
    && Attempt(n, Sweep(LimitRange)) in attempts
  }

  /** The clusters of a namespace that no policy governs have been cleared, but where a failure was only logged. */
  ghost predicate ClearTried(f: Failures, st: Setting, n: string, ns: Namespace, attempts: seq<Attempt>) {
    FindsUngoverned(f, st, n, ns) && !f(ListClusters(n)) ==>
      forall c :: c in ns.clusters && !f(UpdateCluster(n, c)) ==> Attempt(n, ClearCluster(c)) in attempts
  }

  function BoundTo(w: World, policy: string): set<string> {
    set n | n in w && Binding(w[n]) == policy
  }

  /** What a reconciliation without error has attempted: everything in the namespaces bound to its policy, and the
      deletions everywhere. */
  ghost predicate Covers(st: Setting, policy: string, w: World, attempts: seq<Attempt>) {
    forall n {:trigger SweepTried(n, attempts)} :: n in w ==>
      SweepTried(n, attempts) && (Binding(w[n]) == policy ==> ImposeTried(n, w[n], attempts))
  }

  predicate Grown(before: seq<Attempt>, after: seq<Attempt>) {
    before <= after
  }

  lemma StillTried(n: string, ns: Namespace, before: seq<Attempt>, after: seq<Attempt>)
    requires Grown(before, after)
    ensures ImposeTried(n, ns, before) ==> ImposeTried(n, ns, after)
    ensures SweepTried(n, before) ==> SweepTried(n, after)
    ensures ClustersTried(n, ns, before) ==> ClustersTried(n, ns, after)
  {
    assert forall a :: a in before ==> a in after;
  }

  lemma StillCleared(f: Failures, st: Setting, n: string, ns: Namespace, before: seq<Attempt>, after: seq<Attempt>)
    requires Grown(before, after) && ClearTried(f, st, n, ns, before)
    ensures ClearTried(f, st, n, ns, after)
  {
    assert forall a :: a in before ==> a in after;
  }

  class Controller {
    const st: Setting
    const f: Failures
    /** The namespaces when the reconciliation began, and what it has attempted since. */
    ghost var begin: World
    ghost var attempts: seq<Attempt>
    var namespaces: World

    /** All that has changed are these attempts. */
    ghost predicate Valid()
      reads this
    {
      namespaces == Run(st, begin, attempts)
    }

    constructor (st: Setting, f: Failures, namespaces: World)
      ensures Valid() && this.st == st && this.f == f && this.namespaces == namespaces && attempts == []
    {
      this.st, this.f, this.namespaces, begin, attempts := st, f, namespaces, namespaces, [];
    }

    /** One write; if the call fails, nothing is written. */
    method DoWrite(n: string, w: Write, call: ApiCall) returns (ok: bool)
      requires Valid() && n in namespaces && Made(st, namespaces[n], w)
      modifies `namespaces, `attempts
      ensures Valid() && ok == !f(call)
      ensures namespaces == if ok then old(namespaces)[n := Written(st, n, old(namespaces)[n], w)] else old(namespaces)
      ensures attempts == if ok then old(attempts) + [Attempt(n, w)] else old(attempts)
      ensures SameShape(old(namespaces)[n], namespaces[n])
    {
      ok := !f(call);
      WriteKeepsGoal(st, n, namespaces[n], w);
      if ok {
        RunOneMore(st, begin, attempts, Attempt(n, w));
        namespaces, attempts := namespaces[n := Written(st, n, namespaces[n], w)], attempts + [Attempt(n, w)];
      }
    }

    /** A write that is not needed. */
    ghost method Skip(n: string, w: Write)
      requires Valid() && n in namespaces && Made(st, namespaces[n], w) && Written(st, n, namespaces[n], w) == namespaces[n]
      modifies `attempts
      ensures Valid() && attempts == old(attempts) + [Attempt(n, w)]
    {
      RunOneMore(st, begin, attempts, Attempt(n, w));
      assert namespaces[n := namespaces[n]] == namespaces;
      attempts := attempts + [Attempt(n, w)];
    }

    /** The network policy, the quota or the limit range of a policy in a namespace bound to it. */
    method ReconcileObject(n: string, policy: string, kind: Kind) returns (ok: bool)
      requires Valid() && n in namespaces && Governed(st, namespaces[n]) && Binding(namespaces[n]) == policy
      modifies `namespaces, `attempts
      ensures Valid() && ok == ObjectSucceeds(f, st, n, old(namespaces)[n], kind)
      ensures namespaces == if ok then old(namespaces)[n := Written(st, n, old(namespaces)[n], PutObject(kind))] else old(namespaces)
      ensures ok ==> n in namespaces && Holds(st, n, policy, kind, namespaces[n].objects)
      ensures ok ==> OthersStay(old(namespaces)[n].objects, namespaces[n].objects, ObjectKey(kind, st.nameOf(policy)))
      ensures attempts == if ok then old(attempts) + [Attempt(n, PutObject(kind))] else old(attempts)
      ensures SameShape(old(namespaces)[n], namespaces[n])
    {
      var key, desired := ObjectKey(kind, st.nameOf(policy)), Desired(st, n, policy, kind);
      HoldsExactly(st, n, policy, kind, Put(namespaces[n].objects, key, desired));
      ok := true;
      if desired.None? && kind != NetworkPolicy {
        // looked up first, and deleted only if it is there
        if f(LookUp(n, kind)) { return false; }
        if key !in namespaces[n].objects {
          assert Put(namespaces[n].objects, key, desired) == namespaces[n].objects;
          assert namespaces == namespaces[n := namespaces[n]];
          Skip(n, PutObject(kind));
          return;
        }
      } else if desired.Some? && key in namespaces[n].objects {
        // the creation is answered with "already exists"
        if f(LookUp(n, kind)) { return false; }
      }
      ok := DoWrite(n, PutObject(kind), WriteObject(n, kind));
    }

    /** Gives one cluster the policy, or takes it away, unless it is so already. */
    method UpdateStatus(n: string, c: string, w: Write, target: Option<AppliedPolicy>) returns (ok: bool)
      requires Valid() && n in namespaces && c in namespaces[n].clusters && Made(st, namespaces[n], w)
      requires Written(st, n, namespaces[n], w) == namespaces[n].(clusters := namespaces[n].clusters[c := target])
      modifies `namespaces, `attempts
      ensures Valid() && n in namespaces && ok == (old(namespaces)[n].clusters[c] != target ==> !f(UpdateCluster(n, c)))
      ensures namespaces == old(namespaces)[n := namespaces[n]]
      ensures namespaces[n] == old(namespaces)[n].(clusters := namespaces[n].clusters)
      ensures namespaces[n].clusters == if ok then old(namespaces)[n].clusters[c := target] else old(namespaces)[n].clusters
      ensures attempts == if ok then old(attempts) + [Attempt(n, w)] else old(attempts)
    {
      ok := true;
      if namespaces[n].clusters[c] != target {
        ok := DoWrite(n, w, UpdateCluster(n, c));
      } else {
        assert namespaces[n].clusters[c := target] == namespaces[n].clusters;
        Skip(n, w);
      }
    }

    /** Every cluster of the namespace gets the policy; a failure with one does not keep it from the others. */
    method ReconcileClusters(n: string, policy: string) returns (ok: bool)
      requires Valid() && n in namespaces && Governed(st, namespaces[n]) && Binding(namespaces[n]) == policy
      modifies `namespaces, `attempts
      ensures Valid() && ok == ClustersSucceed(f, n, old(namespaces)[n].clusters, Some(AppliedOf(st, policy)))
      ensures n in namespaces && namespaces == old(namespaces)[n := namespaces[n]]
      ensures namespaces[n] ==
        old(namespaces)[n].(clusters := ClustersAfter(f, n, old(namespaces)[n].clusters, Some(AppliedOf(st, policy))))
      ensures Grown(old(attempts), attempts) && (ok ==> ClustersTried(n, old(namespaces)[n], attempts))
    {
      ok := !f(ListClusters(n));
      if !ok { return; }
      ghost var start, first := namespaces, attempts;
      var todo, target: Option<AppliedPolicy> := namespaces[n].clusters.Keys, Some(AppliedOf(st, policy));
      while todo != {}
        invariant Valid() && n in namespaces && namespaces == start[n := namespaces[n]] && Grown(first, attempts)
        invariant namespaces[n] == start[n].(clusters := namespaces[n].clusters)
        invariant Updated(f, n, start[n].clusters, namespaces[n].clusters, todo, target)
        invariant ok <==> AllWell(f, n, start[n].clusters, todo, target)
        invariant ok ==> forall c :: c in start[n].clusters && c !in todo ==> Attempt(n, SetCluster(c)) in attempts
        decreases todo
      {
        var c :| c in todo;
        OneUpdated(f, n, start[n].clusters, namespaces[n].clusters, todo, target, c);
        todo := todo - {c};
        var updated := UpdateStatus(n, c, SetCluster(c), target);
        ok := ok && updated;
      }
      LoopDone(f, n, start[n].clusters, namespaces[n].clusters, target);
    }

    /** Clears the policy of every cluster in a namespace that no policy governs. */
    method ClearPolicyFields(n: string) returns (ok: bool)
      requires Valid() && n in namespaces && !Governed(st, namespaces[n])
      modifies `namespaces, `attempts
      ensures Valid() && ok == ClustersSucceed(f, n, old(namespaces)[n].clusters, None)
      ensures n in namespaces && namespaces == old(namespaces)[n := namespaces[n]]
      ensures namespaces[n] == old(namespaces)[n].(clusters := ClustersAfter(f, n, old(namespaces)[n].clusters, None))
      ensures Grown(old(attempts), attempts)
      ensures !f(ListClusters(n)) ==>
        forall c :: c in old(namespaces)[n].clusters && !f(UpdateCluster(n, c)) ==> Attempt(n, ClearCluster(c)) in attempts
    {
      ok := !f(ListClusters(n));
      if !ok { return; }
      ghost var start, first := namespaces, attempts;
      var todo, target: Option<AppliedPolicy> := namespaces[n].clusters.Keys, None;
      while todo != {}
        invariant Valid() && n in namespaces && namespaces == start[n := namespaces[n]] && Grown(first, attempts)
        invariant namespaces[n] == start[n].(clusters := namespaces[n].clusters)
        invariant Updated(f, n, start[n].clusters, namespaces[n].clusters, todo, target)
        invariant ok <==> AllWell(f, n, start[n].clusters, todo, target)
        invariant forall c :: c in start[n].clusters && c !in todo && !f(UpdateCluster(n, c)) ==> Attempt(n, ClearCluster(c)) in attempts
        decreases todo
      {
        var c :| c in todo;
        OneUpdated(f, n, start[n].clusters, namespaces[n].clusters, todo, target, c);
        todo := todo - {c};
        var updated := UpdateStatus(n, c, ClearCluster(c), target);
        ok := ok && updated;
      }
      LoopDone(f, n, start[n].clusters, namespaces[n].clusters, target);
    }

    /** The objects of the policy, one kind after the other; the first failure ends it. */
    method ReconcileObjects(n: string, policy: string) returns (ok: bool)
      requires Valid() && n in namespaces && Governed(st, namespaces[n]) && Binding(namespaces[n]) == policy
      modifies `namespaces, `attempts
      ensures Valid() && ok == ObjectsSucceed(f, st, n, old(namespaces)[n])
      ensures n in namespaces && namespaces == old(namespaces)[n := namespaces[n]]
      ensures SameShape(old(namespaces)[n], namespaces[n]) && Grown(old(attempts), attempts)
      ensures ok ==> namespaces[n] == old(namespaces)[n].(objects := PutAll(st, n, old(namespaces)[n].objects, policy))
      ensures ok ==> PutTried(n, attempts)
    {
      ObjectsIndependent(f, st, n, namespaces[n], NetworkPolicy, ResourceQuota);
      ObjectsIndependent(f, st, n, namespaces[n], NetworkPolicy, LimitRange);
      ok := ReconcileObject(n, policy, NetworkPolicy);
      if !ok { return; }
      ObjectsIndependent(f, st, n, namespaces[n], ResourceQuota, LimitRange);
      ok := ReconcileObject(n, policy, ResourceQuota);
      if !ok { return; }
      ok := ReconcileObject(n, policy, LimitRange);
    }

    /** The pod security labels of a namespace bound to the policy. */
    method ReconcileLabels(n: string, policy: string) returns (ok: bool)
      requires Valid() && n in namespaces && Governed(st, namespaces[n]) && Binding(namespaces[n]) == policy
      modifies `namespaces, `attempts
      ensures Valid() && ok == (PodSecurity(old(namespaces)[n].labels, st.policies[policy].psa) != old(namespaces)[n].labels ==> !f(UpdateNamespace(n)))
      ensures n in namespaces && namespaces == old(namespaces)[n := namespaces[n]]
      ensures ok ==> namespaces[n] == old(namespaces)[n].(labels := PodSecurity(old(namespaces)[n].labels, st.policies[policy].psa))
      ensures attempts == if ok then old(attempts) + [Attempt(n, SetLabels)] else old(attempts)
    {
      ok := true;
      var labels := PodSecurity(namespaces[n].labels, st.policies[policy].psa);
      if labels != namespaces[n].labels { ok := DoWrite(n, SetLabels, UpdateNamespace(n)); } else { Skip(n, SetLabels); }
    }

    /** The clusters of a namespace bound to the policy, and then its labels. */
    method ReconcileRest(n: string, policy: string) returns (ok: bool)
      requires Valid() && n in namespaces && Governed(st, namespaces[n]) && Binding(namespaces[n]) == policy
      modifies `namespaces, `attempts
      ensures Valid() && ok == RestSucceeds(f, st, n, old(namespaces)[n])
      ensures n in namespaces && namespaces == old(namespaces)[n := namespaces[n]] && Grown(old(attempts), attempts)
      ensures ok ==> namespaces[n] == ImposedRest(st, policy, old(namespaces)[n])
      ensures ok ==> ClustersTried(n, old(namespaces)[n], attempts) && Attempt(n, SetLabels) in attempts
    {
      ghost var start := namespaces[n];
      ok := ReconcileClusters(n, policy);
      if !ok { return; }
      AllUpdated(f, n, start.clusters, Some(AppliedOf(st, policy)));
      ghost var placed := attempts;
      ok := ReconcileLabels(n, policy);
      if ok { StillTried(n, start, placed, attempts); }
    }

    /** Everything a policy wants of one namespace bound to it; the first failure ends it. */
    method ReconcileNamespace(n: string, policy: string) returns (ok: bool)
      requires Valid() && n in namespaces && Governed(st, namespaces[n]) && Binding(namespaces[n]) == policy
      modifies `namespaces, `attempts
      ensures Valid() && ok == NamespaceSucceeds(f, st, n, old(namespaces)[n])
      ensures n in namespaces && namespaces == old(namespaces)[n := namespaces[n]] && Grown(old(attempts), attempts)
      ensures ok ==> namespaces[n] == ImposedBy(st, policy, n, old(namespaces)[n])
      ensures ok ==> ImposeTried(n, old(namespaces)[n], attempts)
    {
      ghost var start := namespaces[n];
      ok := ReconcileObjects(n, policy);
      if !ok { return; }
      ghost var put, mid := attempts, namespaces[n];
      ObjectsBeforeRest(f, st, n, start, mid, policy);
      ok := ReconcileRest(n, policy);
      if ok { NamespaceTried(n, start, put, attempts); }
    }

    /** All namespaces bound to the policy. */
    method ReconcileMatchingNamespaces(policy: string) returns (ok: bool)
      requires Valid() && policy in st.policies && policy != ""
      modifies `namespaces, `attempts
      ensures Valid() && namespaces.Keys == old(namespaces).Keys && Grown(old(attempts), attempts)
      ensures ok <==> !f(ListBound) && AllImpose(f, st, policy, old(namespaces))
      ensures ok ==> ImposedEverywhere(st, policy, old(namespaces), namespaces)
      ensures ok ==> ImposeTriedFor(old(namespaces), BoundTo(old(namespaces), policy), attempts)
    {
      ghost var start, first := namespaces, attempts;
      if f(ListBound) { return false; }
      ok := true;
      var bound := BoundTo(namespaces, policy);
      var todo := bound;
      while todo != {}
        invariant Valid() && namespaces.Keys == start.Keys && ok && todo <= bound && Grown(first, attempts)
        invariant ImposedSoFar(f, st, policy, start, namespaces, todo) && Pending(policy, start, namespaces, todo)
        invariant ImposeTriedFor(start, bound - todo, attempts)
        decreases todo
      {
        var n :| n in todo;
        ghost var before, now := attempts, namespaces;
        ok := ReconcileNamespace(n, policy);
        if !ok {
          assert !NamespaceSucceeds(f, st, n, start[n]);
          return;
        }
        OneMoreImposed(f, st, policy, start, now, namespaces, todo, n);
        OneMoreTried(start, bound - todo, n, before, attempts);
        assert bound - (todo - {n}) == (bound - todo) + {n};
        todo := todo - {n};
      }
      AllImposed(f, st, policy, start, namespaces);
    }

    /** Objects of other policies go, everywhere; clusters that no policy governs are cleared. */
    method CleanupNamespaces() returns (ok: bool)
      requires Valid()
      modifies `namespaces, `attempts
      ensures Valid() && namespaces.Keys == old(namespaces).Keys && Grown(old(attempts), attempts)
      ensures ok <==> !f(ListNamespaces) && forall n :: n in old(namespaces) ==> SweepSucceeds(f, n)
      ensures ok ==> forall n :: n in namespaces ==> namespaces[n] == Cleaned(f, st, n, old(namespaces)[n])
      ensures ok ==> CleanTriedFor(f, st, old(namespaces), old(namespaces).Keys, attempts)
    {
      ghost var start, first := namespaces, attempts;
      if f(ListNamespaces) { return false; }
      ok := true;
      var todo := namespaces.Keys;
      while todo != {}
        invariant Valid() && namespaces.Keys == start.Keys && ok && todo <= namespaces.Keys && Grown(first, attempts)
        invariant forall n :: n in todo ==> namespaces[n] == start[n]
        invariant forall n :: n in namespaces && n !in todo ==> SweepSucceeds(f, n) && namespaces[n] == Cleaned(f, st, n, start[n])
        invariant CleanTriedFor(f, st, start, start.Keys - todo, attempts)
        decreases todo
      {
        var n :| n in todo;
        ghost var before := attempts;
        ok := CleanupNamespace(n);
        if !ok { return; }
        OneMoreCleaned(f, st, start, start.Keys - todo, n, before, attempts);
        assert start.Keys - (todo - {n}) == (start.Keys - todo) + {n};
        todo := todo - {n};
      }
    }

    /** Failures to look up the policy or to clear clusters are only logged: the deletions go on, and may succeed. */
    method CleanupNamespace(n: string) returns (ok: bool)
      requires Valid() && n in namespaces
      modifies `namespaces, `attempts
      ensures Valid() && ok == SweepSucceeds(f, n)
      ensures n in namespaces && namespaces == old(namespaces)[n := namespaces[n]] && Grown(old(attempts), attempts)
      ensures ok ==> namespaces[n] == Cleaned(f, st, n, old(namespaces)[n])
      ensures ok ==> SweepTried(n, attempts) && ClearTried(f, st, n, old(namespaces)[n], attempts)
    {
      ghost var start := namespaces[n];
      var binding := Binding(namespaces[n]);
      if binding == "" {
        var cleared := ClearPolicyFields(n);
      } else {
        if !f(GetPolicy(n)) && binding !in st.policies { var cleared := ClearPolicyFields(n); }
      }
      ghost var swept := attempts;
      ok := SweepNamespace(n);
      if ok { StillCleared(f, st, n, start, swept, attempts); }
    }

    /** Deletes the foreign objects of each kind; the first failure ends it. */
    method SweepNamespace(n: string) returns (ok: bool)
      requires Valid() && n in namespaces
      modifies `namespaces, `attempts
      ensures Valid() && ok == SweepSucceeds(f, n)
      ensures n in namespaces && namespaces == old(namespaces)[n := namespaces[n]] && Grown(old(attempts), attempts)
      ensures ok ==> namespaces[n] == WithoutForeign(old(namespaces)[n]) && SweepTried(n, attempts)
    {
      ghost var start, first := namespaces[n], attempts;
      ok := DoWrite(n, Sweep(NetworkPolicy), DeleteAll(n, NetworkPolicy));
      if !ok { return; }
      ok := DoWrite(n, Sweep(ResourceQuota), DeleteAll(n, ResourceQuota));
      if !ok { return; }
      ok := DoWrite(n, Sweep(LimitRange), DeleteAll(n, LimitRange));
      if ok {
        SweepsAreSweptAll(start.objects, Binding(start));
        assert attempts == first + [Attempt(n, Sweep(NetworkPolicy)), Attempt(n, Sweep(ResourceQuota)), Attempt(n, Sweep(LimitRange))];
      }
    }

    /** One reconciliation of a policy. Whatever fails, no goal moves, and what was as wanted stays. It returns without
        an error exactly if the calls that matter succeed, and then leaves exactly this. */
    method ReconcileVirtualClusterPolicy(policy: string) returns (ok: bool)
      requires policy in st.policies && policy != ""
      modifies this
      ensures WorldProgress(st, old(namespaces), namespaces)
      ensures ok == Succeeds(f, st, policy, old(namespaces))
      ensures ok ==> Leaves(f, st, policy, old(namespaces), namespaces)
      ensures ok ==> Lands(st, policy, old(namespaces), namespaces)
      // all that it does are its attempts, and without an error they are complete
      ensures namespaces == Run(st, old(namespaces), attempts)
      ensures ok ==> Covers(st, policy, old(namespaces), attempts) && CoversClears(f, st, old(namespaces), attempts)
    {
      begin, attempts := namespaces, [];
      ok := Reconcile(policy);
      RunProgresses(st, begin, attempts);
      if ok { LeavesLands(f, st, policy, begin, namespaces); }
    }

    method Reconcile(policy: string) returns (ok: bool)
      requires Valid() && policy in st.policies && policy != ""
      modifies `namespaces, `attempts
      ensures Valid() && ok == Succeeds(f, st, policy, old(namespaces))
      ensures ok ==> Leaves(f, st, policy, old(namespaces), namespaces)
      ensures ok ==> Covers(st, policy, old(namespaces), attempts) && CoversClears(f, st, old(namespaces), attempts)
    {
      ghost var start := namespaces;
      ok := ReconcileMatchingNamespaces(policy);
      if !ok { return; }
      ghost var mid, first := namespaces, attempts;
      ok := CleanupNamespaces();
      if ok {
        OutcomeLeft(f, st, policy, start, mid, namespaces);
        AllTried(f, st, policy, start, mid, first, attempts);
      }
    }
  }

  ghost predicate ImposeTriedFor(w: World, names: set<string>, attempts: seq<Attempt>)
    requires names <= w.Keys
  {
    forall n {:trigger ImposeTried(n, w[n], attempts)} :: n in names ==> ImposeTried(n, w[n], attempts)
  }

  ghost predicate CleanTriedFor(f: Failures, st: Setting, w: World, names: set<string>, attempts: seq<Attempt>)
    requires names <= w.Keys
  {
    forall n {:trigger SweepTried(n, attempts)} :: n in names ==> SweepTried(n, attempts) && ClearTried(f, st, n, w[n], attempts)
  }

  ghost predicate CoversClears(f: Failures, st: Setting, w: World, attempts: seq<Attempt>) {
    forall n {:trigger ClearTried(f, st, n, w[n], attempts)} :: n in w ==> ClearTried(f, st, n, w[n], attempts)
  }

  lemma NamespaceTried(n: string, ns: Namespace, put: seq<Attempt>, all: seq<Attempt>)
    requires Grown(put, all) && ClustersTried(n, ns, all) && Attempt(n, SetLabels) in all
    requires PutTried(n, put)
    ensures ImposeTried(n, ns, all)
  {
    assert forall a :: a in put ==> a in all;
  }

  function ImposedRest(st: Setting, policy: string, ns: Namespace): Namespace
    requires policy in st.policies
  {
    ns.(labels := PodSecurity(ns.labels, st.policies[policy].psa), clusters := WithPolicy(ns.clusters, Some(AppliedOf(st, policy))))
  }

  lemma ObjectsBeforeRest(f: Failures, st: Setting, n: string, a: Namespace, b: Namespace, policy: string)
    requires Governed(st, a) && Binding(a) == policy && b == a.(objects := PutAll(st, n, a.objects, policy))
    ensures Governed(st, b) && Binding(b) == policy && RestSucceeds(f, st, n, b) == RestSucceeds(f, st, n, a)
    ensures ImposedRest(st, policy, b) == ImposedBy(st, policy, n, a)
    ensures b.clusters == a.clusters
  {
  }

  ghost predicate ImposedHere(f: Failures, st: Setting, policy: string, n: string, a: Namespace, b: Namespace) {
    b == ImposedBy(st, policy, n, a) && (Binding(a) == policy ==> NamespaceSucceeds(f, st, n, a))
  }

  ghost predicate Pending(policy: string, a: World, b: World, todo: set<string>) {
    forall n :: n in todo ==> n in a && n in b && b[n] == a[n] && Binding(a[n]) == policy
  }

  ghost predicate ImposedSoFar(f: Failures, st: Setting, policy: string, a: World, b: World, todo: set<string>) {
    && a.Keys == b.Keys
    && forall n {:trigger ImposedHere(f, st, policy, n, a[n], b[n])} :: n in a && n !in todo ==> ImposedHere(f, st, policy, n, a[n], b[n])
  }

  lemma OneMoreImposed(f: Failures, st: Setting, policy: string, a: World, b: World, c: World, todo: set<string>, n: string)
    requires ImposedSoFar(f, st, policy, a, b, todo) && Pending(policy, a, b, todo) && n in todo && n in c && c == b[n := c[n]]
    requires NamespaceSucceeds(f, st, n, a[n]) && c[n] == ImposedBy(st, policy, n, a[n])
    ensures ImposedSoFar(f, st, policy, a, c, todo - {n}) && Pending(policy, a, c, todo - {n})
  {
    forall m | m in a && m !in todo - {n} ensures ImposedHere(f, st, policy, m, a[m], c[m]) {
      if m != n { assert ImposedHere(f, st, policy, m, a[m], b[m]); }
    }
  }

  lemma AllImposed(f: Failures, st: Setting, policy: string, a: World, b: World)
    requires ImposedSoFar(f, st, policy, a, b, {})
    ensures ImposedEverywhere(st, policy, a, b) && AllImpose(f, st, policy, a)
  {
    forall n | n in a ensures b[n] == ImposedBy(st, policy, n, a[n]) && (Binding(a[n]) == policy ==> NamespaceSucceeds(f, st, n, a[n])) {
      assert ImposedHere(f, st, policy, n, a[n], b[n]);
    }
  }

  lemma OneMoreTried(w: World, names: set<string>, n: string, before: seq<Attempt>, after: seq<Attempt>)
    requires names <= w.Keys && n in w && Grown(before, after) && ImposeTriedFor(w, names, before) && ImposeTried(n, w[n], after)
    ensures ImposeTriedFor(w, names + {n}, after)
  {
    forall m | m in names + {n} ensures ImposeTried(m, w[m], after) {
      if m != n { StillTried(m, w[m], before, after); }
    }
  }

  lemma OneMoreCleaned(f: Failures, st: Setting, w: World, names: set<string>, n: string, before: seq<Attempt>, after: seq<Attempt>)
    requires names <= w.Keys && n in w && Grown(before, after) && CleanTriedFor(f, st, w, names, before)
    requires SweepTried(n, after) && ClearTried(f, st, n, w[n], after)
    ensures CleanTriedFor(f, st, w, names + {n}, after)
  {
    forall m | m in names + {n} ensures SweepTried(m, after) && ClearTried(f, st, m, w[m], after) {
      if m != n {
        assert SweepTried(m, before);
        StillTried(m, w[m], before, after);
        StillCleared(f, st, m, w[m], before, after);
      }
    }
  }

  lemma OutcomeLeft(f: Failures, st: Setting, policy: string, a: World, mid: World, b: World)
    requires ImposedEverywhere(st, policy, a, mid) && b.Keys == mid.Keys
    requires forall n :: n in b ==> b[n] == Cleaned(f, st, n, mid[n])
    ensures Leaves(f, st, policy, a, b)
  {
    forall n | n in b ensures b[n] == Outcome(f, st, policy, n, a[n]) { assert mid[n] == ImposedBy(st, policy, n, a[n]); }
  }

  lemma AllTried(f: Failures, st: Setting, policy: string, a: World, mid: World, before: seq<Attempt>, after: seq<Attempt>)
    requires ImposedEverywhere(st, policy, a, mid) && Grown(before, after)
    requires ImposeTriedFor(a, BoundTo(a, policy), before)
    requires CleanTriedFor(f, st, mid, mid.Keys, after)
    ensures Covers(st, policy, a, after) && CoversClears(f, st, a, after)
  {
    forall n | n in a ensures SweepTried(n, after) && (Binding(a[n]) == policy ==> ImposeTried(n, a[n], after)) {
      StillTried(n, a[n], before, after);
    }
    forall n | n in a ensures ClearTried(f, st, n, a[n], after) {
      assert SweepTried(n, after);
      assert mid[n] == ImposedBy(st, policy, n, a[n]);
      if Governed(st, a[n]) { PodSecurityKeepsBinding(a[n], st.policies[Binding(a[n])].psa); }
    }
  }

  function WithoutForeign(ns: Namespace): Namespace {
    ns.(objects := SweptAll(ns.objects, Binding(ns)))
  }

  lemma SweepsAreSweptAll(objects: Objects, b: string)
    ensures Swept(Swept(Swept(objects, b, NetworkPolicy), b, ResourceQuota), b, LimitRange) == SweptAll(objects, b)
  {
  }

  // ---------------------------------------------------------------------------------------------
  // What a return without error guarantees
  // ---------------------------------------------------------------------------------------------

  ghost predicate Leaves(f: Failures, st: Setting, policy: string, a: World, b: World) {
    a.Keys == b.Keys && forall n :: n in a ==> b[n] == Outcome(f, st, policy, n, a[n])
  }

  /** What the policy is responsible for is as the goal wants it, but perhaps for clusters that no policy governs. */
  ghost predicate LandsHere(st: Setting, policy: string, n: string, a: Namespace, b: Namespace) {
    && (Binding(a) == policy ==> b == Goal(st, n, a))
    && (!Governed(st, a) ==> b.objects == Goal(st, n, a).objects && b.labels == Goal(st, n, a).labels)
  }

  ghost predicate Lands(st: Setting, policy: string, a: World, b: World) {
    a.Keys == b.Keys && forall n {:trigger LandsHere(st, policy, n, a[n], b[n])} :: n in a ==> LandsHere(st, policy, n, a[n], b[n])
  }

  /** And these clusters are as well. */
  ghost predicate Settles(st: Setting, policy: string, a: World, b: World) {
    a.Keys == b.Keys && forall n :: n in a && (Binding(a[n]) == policy || !Governed(st, a[n])) ==> b[n] == Goal(st, n, a[n])
  }

  lemma LeavesLands(f: Failures, st: Setting, policy: string, a: World, b: World)
    requires policy in st.policies && policy != "" && Leaves(f, st, policy, a, b)
    ensures Lands(st, policy, a, b)
  {
    forall n | n in a ensures LandsHere(st, policy, n, a[n], b[n]) {
      if Binding(a[n]) == policy { ImposedCleanedIsGoal(f, st, n, a[n]); }
    }
  }

  /** The failures that are only logged: the clean-up does not find that no policy governs the namespace, or does not
      list or update the cluster. */
  predicate Swallowed(f: Failures, n: string, ns: Namespace, c: string) {
    (Binding(ns) != "" && f(GetPolicy(n))) || f(ListClusters(n)) || f(UpdateCluster(n, c))
  }

  /** A reconciliation that returns no error has settled everything exactly if no such failure has met a cluster that
      carries a policy although none governs it. */
  lemma SettlesExactly(f: Failures, st: Setting, policy: string, a: World, b: World)
    requires policy in st.policies && policy != "" && Leaves(f, st, policy, a, b)
    ensures Settles(st, policy, a, b) <==>
      forall n, c :: n in a && !Governed(st, a[n]) && c in a[n].clusters && a[n].clusters[c] != None ==> !Swallowed(f, n, a[n], c)
  {
    LeavesLands(f, st, policy, a, b);
    forall n | n in a && !Governed(st, a[n])
      ensures b[n] == Goal(st, n, a[n]) <==> forall c :: c in a[n].clusters && a[n].clusters[c] != None ==> !Swallowed(f, n, a[n], c)
    {
      UngovernedExactly(f, st, policy, n, a[n]);
    }
    forall n | n in a && Binding(a[n]) == policy ensures b[n] == Goal(st, n, a[n]) {
      assert LandsHere(st, policy, n, a[n], b[n]);
    }
  }

  lemma UngovernedExactly(f: Failures, st: Setting, policy: string, n: string, ns: Namespace)
    requires policy in st.policies && policy != "" && !Governed(st, ns)
    ensures Outcome(f, st, policy, n, ns) == Goal(st, n, ns) <==>
      forall c :: c in ns.clusters && ns.clusters[c] != None ==> !Swallowed(f, n, ns, c)
  {
    var got, want := Outcome(f, st, policy, n, ns).clusters, WithPolicy(ns.clusters, None);
    assert got.Keys == want.Keys == ns.clusters.Keys;
    if forall c :: c in ns.clusters && ns.clusters[c] != None ==> !Swallowed(f, n, ns, c) {
      assert got == want;
    } else {
      var c :| c in ns.clusters && ns.clusters[c] != None && Swallowed(f, n, ns, c);
      assert got[c] != want[c];
    }
  }

  /** A reconciliation returns no error, and yet leaves something that it answers for off its goal. */
  ghost predicate Misled(f: Failures, st: Setting, policy: string, a: World, b: World) {
    && policy in st.policies && policy != ""
    && Succeeds(f, st, policy, a) && Leaves(f, st, policy, a, b) && !Settles(st, policy, a, b)
  }

  lemma SwallowedMisleads(f: Failures, st: Setting, policy: string, n: string, ns: Namespace, c: string) returns (b: World)
    requires policy in st.policies && policy != "" && Succeeds(f, st, policy, map[n := ns])
    requires !Governed(st, ns) && c in ns.clusters && ns.clusters[c] != None && Swallowed(f, n, ns, c)
    ensures Misled(f, st, policy, map[n := ns], b)
  {
    var a: World := map[n := ns];
    b := map[n := Outcome(f, st, policy, n, ns)];
    assert n in a && a[n] == ns;
    SettlesExactly(f, st, policy, a, b);
  }

  /** It happens, whatever policies there are and whatever the names: an unbound namespace with a cluster that still
      carries a policy, and the update of that cluster fails. The reconciliation returns no error, and the cluster keeps
      the policy. */
  lemma SwallowedFailure(st: Setting, policy: string, n: string, c: string)
    requires policy in st.policies && policy != ""
    ensures exists f: Failures, a: World, b: World :: Misled(f, st, policy, a, b)
  {
    var f: Failures := (call: ApiCall) => call == UpdateCluster(n, c);
    var ns := Namespace(map[], map[], map[c := Some(AppliedPolicy(policy, ""))]);
    assert Binding(ns) == "" && ns.clusters[c] == Some(AppliedPolicy(policy, ""));
    OneFaultSucceeds(f, st, policy, n, ns, c);
    var b := SwallowedMisleads(f, st, policy, n, ns, c);
    assert Misled(f, st, policy, map[n := ns], b);
  }

  lemma OneFaultSucceeds(f: Failures, st: Setting, policy: string, n: string, ns: Namespace, c: string)
    requires policy in st.policies && policy != "" && Binding(ns) == "" && forall call :: f(call) <==> call == UpdateCluster(n, c)
    ensures Succeeds(f, st, policy, map[n := ns])
  {
  }

  lemma ImposedCleanedIsGoal(f: Failures, st: Setting, nsName: string, ns: Namespace)
    requires Governed(st, ns)
    ensures Cleaned(f, st, nsName, Imposed(st, nsName, ns)) == Goal(st, nsName, ns)
  {
    var b := Binding(ns);
    PodSecurityKeepsBinding(ns, st.policies[b].psa);
    SweepPutAll(st, nsName, ns.objects, b);
  }

  lemma SweepPutAll(st: Setting, nsName: string, objects: Objects, b: string)
    requires b in st.policies && b != ""
    ensures SweptAll(PutAll(st, nsName, objects, b), b) == PutAll(st, nsName, SweptAll(objects, b), b)
  {
    var k0, k1, k2 := ObjectKey(NetworkPolicy, st.nameOf(b)), ObjectKey(ResourceQuota, st.nameOf(b)), ObjectKey(LimitRange, st.nameOf(b));
    var d0, d1, d2 := Desired(st, nsName, b, NetworkPolicy), Desired(st, nsName, b, ResourceQuota), Desired(st, nsName, b, LimitRange);
    SweepPut(objects, k0, d0, b);
    SweepPut(Put(objects, k0, d0), k1, d1, b);
    SweepPut(Put(Put(objects, k0, d0), k1, d1), k2, d2, b);
  }

  lemma SweepPut(objects: Objects, key: ObjectKey, d: Option<Object>, b: string)
    requires d.Some? ==> !Foreign(d.value, b)
    ensures SweptAll(Put(objects, key, d), b) == Put(SweptAll(objects, b), key, d)
  {
  }
}
