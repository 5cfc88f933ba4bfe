/** The controller's code for the outside resources of a Cluster, as it runs when nobody interferes: which calls it
    makes, in which order, and what it has changed whenever it stops. Each method is proved to be a run of the machine in
    ClusterLifecycle: the ghost parameters `s` and `t` are its state at the beginning and now, `w` is the worker. */
module ClusterController {
  import opened Basics
  import opened Ports
  import opened ClusterLifecycle
  import opened ClusterLeaks

  /** The calls that may fail. */
  datatype ApiCall = GetBinding(role: Role) | UpdateBinding(role: Role) | GetPorts | UpdatePorts | DeleteLease | UpdateCluster

  /** A list of subjects after an attempt to add one. */
  function WithSubject(subjects: seq<Subject>, x: Subject, reached: bool): seq<Subject> {
    if x !in subjects && reached then subjects + [x] else subjects
  }

  function WithoutSubject(subjects: seq<Subject>, x: Subject, reached: bool): seq<Subject> {
    if reached then Without(subjects, x) else subjects
  }

  predicate In(bindings: map<Role, seq<Subject>>, role: Role, x: Subject) {
    role in bindings && x in bindings[role]
  }

  predicate InBoth(bindings: map<Role, seq<Subject>>, x: Subject) {
    In(bindings, KubeletNode, x) && In(bindings, PriorityClass, x)
  }

  /** Every other subject is in the same bindings as before. */
  ghost predicate OthersIn(a: map<Role, seq<Subject>>, b: map<Role, seq<Subject>>, x: Subject) {
    forall role, y {:trigger In(b, role, y)} :: y != x ==> (In(b, role, y) <==> In(a, role, y))
  }

  /** A call that is refused, or goes well; reads are up to date. */
  function Went(refused: bool): Outcome {
    Outcome(refused, false, NoError, 0, false, 0)
  }

  /** Clusters without their resource versions. */
  function Unversioned(clusters: map<Key, Cluster>): map<Key, Cluster> {
    map k | k in clusters :: clusters[k].(version := 0)
  }

  function SubjectsIn(bindings: map<Role, Binding>): map<Role, seq<Subject>> {
    map role | role in bindings :: bindings[role].subjects
  }

  /** The host cluster's objects. */
  datatype Objects = Objects(clusters: map<Key, Cluster>, ports: Stored, bindings: map<Role, seq<Subject>>)

  predicate Has(t: State, o: Objects) {
    Unversioned(t.clusters) == Unversioned(o.clusters) && t.ports == o.ports && SubjectsIn(t.bindings) == o.bindings
  }

  /** The machine has come from `s` to `t`, which has these objects. */
  ghost predicate Shows(s: State, t: State, o: Objects, subjectOf: Key -> Subject) {
    Reaches(s, t, subjectOf) && Has(t, o)
  }

  /** And the cluster's worker is at this place, with a copy of the current version. */
  ghost predicate Stands(s: State, t: State, o: Objects, k: Key, w: Worker, at: Pc, subjectOf: Key -> Subject) {
    Shows(s, t, o, subjectOf) && k in t.workers && t.workers[k] == w.(at := at) && Current(t, k, w)
  }

  /** Or there is none any more. */
  ghost predicate Rests(s: State, t: State, o: Objects, k: Key, subjectOf: Key -> Subject) {
    Shows(s, t, o, subjectOf) && k !in t.workers
  }

  /** Where a finalization goes on after a binding, or that it has ended. */
  ghost predicate Proceeds(s: State, u: State, o: Objects, k: Key, w: Worker, role: Role, failed: bool, subjectOf: Key -> Subject) {
    if role == KubeletNode then Stands(s, u, o, k, w, UnbindRead(PriorityClass, failed), subjectOf)
    else if failed then Rests(s, u, o, k, subjectOf)
    else Stands(s, u, o, k, w, if Mirrors(w.copy) then FreeRead else DropLease, subjectOf)
  }

  // Single calls of the machine.

  lemma Step(s: State, t: State, k: Key, refused: bool, e: Effect, subjectOf: Key -> Subject) returns (u: State)
    requires Reaches(s, t, subjectOf) && k in t.workers && e == EffectOf(t, k, t.workers[k], Went(refused), subjectOf)
    ensures u == Performed(t, k, e) && Reaches(s, u, subjectOf)
  {
    u := CallReaches(s, t, k, Went(refused), e, subjectOf);
  }

  lemma SubjectsWritten(bindings: map<Role, Binding>, role: Role, b: Binding)
    ensures SubjectsIn(bindings[role := b]) == SubjectsIn(bindings)[role := b.subjects]
  {
  }

  lemma SubjectsRead(bindings: map<Role, Binding>, role: Role)
    ensures role in SubjectsIn(bindings) <==> role in bindings
    ensures role in bindings ==> SubjectsIn(bindings)[role] == bindings[role].subjects
  {
  }

  lemma ReadHas(t: State, o: Objects, k: Key, role: Role)
    requires Has(t, o)
    ensures Has(Touched(t, k, ReadBinding(role, 0)), o) && (role in t.bindings ==> ServedBinding(t, role, 0).subjects == t.bindings[role].subjects)
  {
    if role in t.bindings {
      var b := t.bindings[role].(older := []);
      SubjectsWritten(t.bindings, role, b);
      SubjectsRead(t.bindings, role);
      assert o.bindings[role := b.subjects] == o.bindings;
    }
  }

  lemma WriteHas(t: State, o: Objects, k: Key, role: Role, subjects: seq<Subject>)
    requires Has(t, o) && role in t.bindings
    ensures Has(Touched(t, k, WriteBinding(role, subjects)), o.(bindings := o.bindings[role := subjects]))
  {
    SubjectsWritten(t.bindings, role, PutBinding(t, role, subjects).bindings[role]);
  }

  /** The worker goes on after a call that has not written to the clusters. */
  lemma Resumes(s: State, t: State, o: Objects, k: Key, w: Worker, e: Effect, at: Pc, subjectOf: Key -> Subject)
    requires Reaches(s, Performed(t, k, e), subjectOf) && Has(Touched(t, k, e.touch), o) && Current(t, k, w)
    requires !e.touch.WriteCluster? && !e.touch.DropCluster? && e.next == Some(w.(at := at))
    ensures Stands(s, Performed(t, k, e), o, k, w, at, subjectOf)
  {
    TouchLeavesClusters(t, k, e.touch);
  }

  lemma Finishes(s: State, t: State, o: Objects, k: Key, e: Effect, subjectOf: Key -> Subject)
    requires Reaches(s, Performed(t, k, e), subjectOf) && Has(Touched(t, k, e.touch), o) && e.next == None
    ensures Rests(s, Performed(t, k, e), o, k, subjectOf)
  {
  }

  lemma BindReadStep(s: State, t: State, o: Objects, k: Key, w: Worker, role: Role, already: bool, refused: bool, subjectOf: Key -> Subject)
    returns (u: State)
    requires Stands(s, t, o, k, w, BindRead(role, already), subjectOf)
    ensures role in o.bindings <==> role in u.bindings
    ensures
      if refused || role !in o.bindings then Stands(s, u, o, k, w, NextBind(role, true, NoError), subjectOf)
      else if subjectOf(k) in o.bindings[role] then Stands(s, u, o, k, w, NextBind(role, already, NoError), subjectOf)
      else Stands(s, u, o, k, w, BindWrite(role, already, o.bindings[role], u.bindings[role].version), subjectOf)
  {
    var e := AtBindRead(t, k, t.workers[k], Went(refused), subjectOf);
    u := Step(s, t, k, refused, e, subjectOf);
    SubjectsRead(t.bindings, role);
    ReadHas(t, o, k, role);
    Resumes(s, t, o, k, w, e, e.next.value.at, subjectOf);
  }

  lemma BindWriteStep(s: State, t: State, o: Objects, k: Key, w: Worker, role: Role, already: bool, refused: bool, subjectOf: Key -> Subject)
    returns (u: State)
    requires role in o.bindings && role in t.bindings
    requires Stands(s, t, o, k, w, BindWrite(role, already, o.bindings[role], t.bindings[role].version), subjectOf)
    ensures
      if refused then Stands(s, u, o, k, w, NextBind(role, true, NoError), subjectOf)
      else
        var after := o.(bindings := o.bindings[role := o.bindings[role] + [subjectOf(k)]]);
        Stands(s, u, after, k, w, NextBind(role, already, NoError), subjectOf)
  {
    var e := AtBindWrite(t, k, t.workers[k], Went(refused), subjectOf);
    u := Step(s, t, k, refused, e, subjectOf);
    if refused {
      Resumes(s, t, o, k, w, e, NextBind(role, true, NoError), subjectOf);
    } else {
      var longer := o.bindings[role] + [subjectOf(k)];
      WriteHas(t, o, k, role, longer);
      Resumes(s, t, o.(bindings := o.bindings[role := longer]), k, w, e, NextBind(role, already, NoError), subjectOf);
    }
  }

  lemma UnbindProceeds(s: State, t: State, o: Objects, k: Key, w: Worker, e: Effect, role: Role, failed: bool, subjectOf: Key -> Subject)
    requires Reaches(s, Performed(t, k, e), subjectOf) && Has(Touched(t, k, e.touch), o) && Current(t, k, w)
    requires !e.touch.WriteCluster? && !e.touch.DropCluster?
    requires k in t.workers && e.next == NextUnbind(w.(at := t.workers[k].at), role, failed)
    ensures Proceeds(s, Performed(t, k, e), o, k, w, role, failed, subjectOf)
  {
    match e.next
    case Some(next) => Resumes(s, t, o, k, w, e, next.at, subjectOf);
    case None => Finishes(s, t, o, k, e, subjectOf);
  }

  lemma UnbindReadStep(s: State, t: State, o: Objects, k: Key, w: Worker, role: Role, already: bool, refused: bool, subjectOf: Key -> Subject)
    returns (u: State)
    requires Stands(s, t, o, k, w, UnbindRead(role, already), subjectOf)
    ensures role in o.bindings <==> role in u.bindings
    ensures
      if refused || role !in o.bindings then Proceeds(s, u, o, k, w, role, true, subjectOf)
      else if subjectOf(k) !in o.bindings[role] then Proceeds(s, u, o, k, w, role, already, subjectOf)
      else Stands(s, u, o, k, w, UnbindWrite(role, already, o.bindings[role], u.bindings[role].version), subjectOf)
  {
    var e := AtUnbindRead(t, k, t.workers[k], Went(refused), subjectOf);
    u := Step(s, t, k, refused, e, subjectOf);
    SubjectsRead(t.bindings, role);
    ReadHas(t, o, k, role);
    if refused || role !in o.bindings { UnbindProceeds(s, t, o, k, w, e, role, true, subjectOf); }
    else if subjectOf(k) !in o.bindings[role] { UnbindProceeds(s, t, o, k, w, e, role, already, subjectOf); }
    else { Resumes(s, t, o, k, w, e, e.next.value.at, subjectOf); }
  }

  lemma UnbindWriteStep(s: State, t: State, o: Objects, k: Key, w: Worker, role: Role, already: bool, refused: bool, subjectOf: Key -> Subject)
    returns (u: State)
    requires role in o.bindings && role in t.bindings
    requires Stands(s, t, o, k, w, UnbindWrite(role, already, o.bindings[role], t.bindings[role].version), subjectOf)
    ensures
      if refused then Proceeds(s, u, o, k, w, role, true, subjectOf)
      else
        var after := o.(bindings := o.bindings[role := Without(o.bindings[role], subjectOf(k))]);
        Proceeds(s, u, after, k, w, role, already, subjectOf)
  {
    var e := AtUnbindWrite(t, k, t.workers[k], Went(refused), subjectOf);
    u := Step(s, t, k, refused, e, subjectOf);
    if refused {
      UnbindProceeds(s, t, o, k, w, e, role, true, subjectOf);
    } else {
      var cleaned := Without(o.bindings[role], subjectOf(k));
      WriteHas(t, o, k, role, cleaned);
      UnbindProceeds(s, t, o.(bindings := o.bindings[role := cleaned]), k, w, e, role, already, subjectOf);
    }
  }

  lemma FreeReadStep(s: State, t: State, o: Objects, k: Key, w: Worker, refused: bool, subjectOf: Key -> Subject)
    returns (u: State)
    requires Stands(s, t, o, k, w, FreeRead, subjectOf)
    ensures
      if refused || (PortKeyOf(k) in o.ports.ports && o.ports.ports[PortKeyOf(k)] != w.copy.status.port)
      then Rests(s, u, o, k, subjectOf)
      else Stands(s, u, o, k, w, FreeWrite(o.ports, u.portsVersion), subjectOf)
  {
    var e := AtFreeRead(t, k, t.workers[k], Went(refused));
    u := Step(s, t, k, refused, e, subjectOf);
    match e.next
    case Some(next) => Resumes(s, t, o, k, w, e, next.at, subjectOf);
    case None => Finishes(s, t, o, k, e, subjectOf);
  }

  lemma FreeWriteStep(s: State, t: State, o: Objects, k: Key, w: Worker, refused: bool, subjectOf: Key -> Subject)
    returns (u: State)
    requires Stands(s, t, o, k, w, FreeWrite(o.ports, t.portsVersion), subjectOf)
    ensures
      if refused then Rests(s, u, o, k, subjectOf)
      else Stands(s, u, o.(ports := Applied(o.ports, Free(PortKeyOf(k)))), k, w, DropLease, subjectOf)
  {
    var e := AtFreeWrite(t, k, t.workers[k], Went(refused));
    u := Step(s, t, k, refused, e, subjectOf);
    match e.next
    case Some(next) => Resumes(s, t, o.(ports := Applied(o.ports, Free(PortKeyOf(k)))), k, w, e, DropLease, subjectOf);
    case None => Finishes(s, t, o, k, e, subjectOf);
  }

  lemma LeaseStep(s: State, t: State, o: Objects, k: Key, w: Worker, refused: bool, subjectOf: Key -> Subject) returns (u: State)
    requires Stands(s, t, o, k, w, DropLease, subjectOf)
    ensures if refused then Rests(s, u, o, k, subjectOf) else Stands(s, u, o, k, w, RemoveFinalizer, subjectOf)
  {
    var e := AtDropLease(t.workers[k], Went(refused));
    u := Step(s, t, k, refused, e, subjectOf);
    if refused { Finishes(s, t, o, k, e, subjectOf); } else { Resumes(s, t, o, k, w, e, RemoveFinalizer, subjectOf); }
  }

  /** What the last update of a finalization makes of the clusters. */
  function Finalized(clusters: map<Key, Cluster>, k: Key, copy: Cluster): map<Key, Cluster>
    requires k in clusters
  {
    if copy.held then clusters[k := WithoutStatus(clusters[k], copy.(finalizer := false))] else clusters - {k}
  }

  lemma UnversionedPut(clusters: map<Key, Cluster>, k: Key, c: Cluster)
    ensures Unversioned(clusters[k := c]) == Unversioned(clusters)[k := c.(version := 0)]
  {
  }

  lemma UnversionedWithout(clusters: map<Key, Cluster>, k: Key)
    ensures Unversioned(clusters - {k}) == Unversioned(clusters) - {k}
  {
  }

  lemma UnversionedAt(clusters: map<Key, Cluster>, k: Key)
    ensures k in clusters <==> k in Unversioned(clusters)
    ensures k in clusters ==> Unversioned(clusters)[k] == clusters[k].(version := 0)
  {
  }

  /** The clusters after the finalization of one. */
  function Released(clusters: map<Key, Cluster>, k: Key): map<Key, Cluster>
    requires k in clusters
  {
    if !clusters[k].finalizer then clusters
    else if clusters[k].held then clusters[k := clusters[k].(finalizer := false)]
    else clusters - {k}
  }

  /** The finalizer, if it was there, is not any more, and neither is the cluster unless others hold it; no other cluster
      has changed. */
  ghost predicate LetGo(a: map<Key, Cluster>, b: map<Key, Cluster>, k: Key) {
    && (k in b ==> k in a && !b[k].finalizer && (a[k].finalizer ==> a[k].held) && b[k] == a[k].(finalizer := false))
    && (k in a && (a[k].held || !a[k].finalizer) ==> k in b)
    && forall j :: j != k ==> (j in b <==> j in a) && (j in b ==> b[j] == a[j])
  }

  lemma ReleasedOnly(clusters: map<Key, Cluster>, k: Key)
    requires k in clusters
    ensures LetGo(clusters, Released(clusters, k), k)
  {
  }

  lemma FinalizedLeaves(clusters: map<Key, Cluster>, k: Key)
    requires k in clusters && clusters[k].finalizer
    ensures Finalized(clusters, k, Terminated(clusters[k])) == Released(clusters, k)
  {
  }

  /** Resource versions play no part in it. */
  lemma FinalizedAlike(b: map<Key, Cluster>, c: map<Key, Cluster>, k: Key, x: Cluster, y: Cluster)
    requires k in b && k in c && Unversioned(b) == Unversioned(c) && x.(version := 0) == y.(version := 0)
    ensures Unversioned(Finalized(b, k, x)) == Unversioned(Finalized(c, k, y))
  {
    UnversionedAt(b, k);
    UnversionedAt(c, k);
    if x.held {
      UnversionedPut(b, k, WithoutStatus(b[k], x.(finalizer := false)));
      UnversionedPut(c, k, WithoutStatus(c[k], y.(finalizer := false)));
    } else {
      UnversionedWithout(b, k);
      UnversionedWithout(c, k);
    }
  }

  /** The machine's last step, whatever the versions. */
  lemma RemovedFinalizer(t: State, k: Key, w: Worker)
    requires Current(t, k, w) && w.copy.finalizer
    ensures var u := Touched(t, k, AtRemoveFinalizer(t, k, w, Went(false)).touch);
      Unversioned(u.clusters) == Unversioned(Finalized(t.clusters, k, w.copy)) && u.ports == t.ports && u.bindings == t.bindings
  {
    var c := WithoutStatus(t.clusters[k], w.copy.(finalizer := false));
    if w.copy.held {
      assert AtRemoveFinalizer(t, k, w, Went(false)).touch == WriteCluster(c);
      RewrittenAlike(t, k, c);
    } else {
      assert AtRemoveFinalizer(t, k, w, Went(false)).touch == DropCluster;
    }
  }

  lemma RewrittenAlike(t: State, k: Key, c: Cluster)
    ensures Unversioned(Put(t, k, c).clusters) == Unversioned(t.clusters[k := c])
  {
    UnversionedPut(t.clusters, k, c);
    UnversionedPut(t.clusters, k, c.(version := t.rv + 1));
  }

  lemma FinalizerStep(s: State, t: State, o: Objects, k: Key, w: Worker, refused: bool, subjectOf: Key -> Subject) returns (u: State)
    requires Stands(s, t, o, k, w, RemoveFinalizer, subjectOf)
    ensures k in o.clusters
    ensures
      var after := if refused || !w.copy.finalizer then o else o.(clusters := Finalized(o.clusters, k, w.copy));
      Rests(s, u, after, k, subjectOf)
  {
    var e := AtRemoveFinalizer(t, k, t.workers[k], Went(refused));
    u := Step(s, t, k, refused, e, subjectOf);
    UnversionedAt(t.clusters, k);
    UnversionedAt(o.clusters, k);
    if refused || !w.copy.finalizer {
      Finishes(s, t, o, k, e, subjectOf);
    } else {
      RemovedFinalizer(t, k, t.workers[k]);
      FinalizedAlike(t.clusters, o.clusters, k, w.copy, w.copy);
      Finishes(s, t, o.(clusters := Finalized(o.clusters, k, w.copy)), k, e, subjectOf);
    }
  }

  /** The worker has read the cluster, and has put the Terminating phase on its copy. */
  lemma FinalizationStarts(s: State, o: Objects, k: Key, subjectOf: Key -> Subject) returns (u: State, w: Worker)
    requires Rests(s, s, o, k, subjectOf) && k in o.clusters && o.clusters[k].deleting
    ensures Stands(s, u, o, k, w, UnbindRead(KubeletNode, false), subjectOf)
    ensures w.copy.(version := 0) == Terminated(o.clusters[k]).(version := 0)
  {
    UnversionedAt(o.clusters, k);
    UnversionedAt(s.clusters, k);
    ReachStep(s, s, k, Start(0), subjectOf);
    StartsFresh(s, k);
    u, w := BeginsToFinalize(s, Started(s, k, 0), k, subjectOf);
  }

  class Controller {
    const subjectOf: Key -> Subject
    /** The calls of this run that fail, without effect. */
    const faults: set<ApiCall>
    // the host cluster's objects
    var clusters: map<Key, Cluster>
    var ports: Stored
    var bindings: map<Role, seq<Subject>>

    constructor (subjectOf: Key -> Subject, faults: set<ApiCall>, o: Objects)
      ensures this.subjectOf == subjectOf && this.faults == faults && View() == o
    {
      this.subjectOf, this.faults := subjectOf, faults;
      clusters, ports, bindings := o.clusters, o.ports, o.bindings;
    }

    ghost function View(): Objects
      reads this
    {
      Objects(clusters, ports, bindings)
    }

    /** The binding can be read, and written if `write` says that it has to be. */
    ghost predicate Reached(b: map<Role, seq<Subject>>, role: Role, write: bool) {
      role in b && GetBinding(role) !in faults && (write ==> UpdateBinding(role) !in faults)
    }

    ghost predicate BindSucceeds(b: map<Role, seq<Subject>>, k: Key, role: Role) {
      Reached(b, role, role in b && subjectOf(k) !in b[role])
    }

    ghost predicate UnbindSucceeds(b: map<Role, seq<Subject>>, k: Key, role: Role) {
      Reached(b, role, role in b && subjectOf(k) in b[role])
    }

    /** The bindings after an attempt at one of them. */
    ghost function BoundIn(b: map<Role, seq<Subject>>, k: Key, role: Role): map<Role, seq<Subject>> {
      if role in b then b[role := WithSubject(b[role], subjectOf(k), Reached(b, role, true))] else b
    }

    ghost function UnboundIn(b: map<Role, seq<Subject>>, k: Key, role: Role): map<Role, seq<Subject>> {
      if role in b then b[role := WithoutSubject(b[role], subjectOf(k), Reached(b, role, true))] else b
    }

    lemma BoundInOne(b: map<Role, seq<Subject>>, k: Key, role: Role)
      ensures OthersIn(b, BoundIn(b, k, role), subjectOf(k))
      ensures BindSucceeds(b, k, role) ==> In(BoundIn(b, k, role), role, subjectOf(k))
      ensures forall r :: r != role ==> (In(BoundIn(b, k, role), r, subjectOf(k)) <==> In(b, r, subjectOf(k)))
    {
    }

    lemma BoundInBoth(b: map<Role, seq<Subject>>, k: Key)
      ensures OthersIn(b, BoundIn(BoundIn(b, k, KubeletNode), k, PriorityClass), subjectOf(k))
      ensures BindSucceeds(b, k, KubeletNode) && BindSucceeds(b, k, PriorityClass) ==>
        InBoth(BoundIn(BoundIn(b, k, KubeletNode), k, PriorityClass), subjectOf(k))
    {
      var c := BoundIn(b, k, KubeletNode);
      BoundInOne(b, k, KubeletNode);
      BoundInOne(c, k, PriorityClass);
      assert BindSucceeds(c, k, PriorityClass) <==> BindSucceeds(b, k, PriorityClass);
    }

    lemma UnboundInOne(b: map<Role, seq<Subject>>, k: Key, role: Role)
      ensures OthersIn(b, UnboundIn(b, k, role), subjectOf(k))
    {
    }

    lemma OthersStayIn(b: map<Role, seq<Subject>>, k: Key)
      ensures OthersIn(b, BothUnbound(b, k), subjectOf(k))
    {
      UnboundInOne(b, k, KubeletNode);
      UnboundInOne(UnboundIn(b, k, KubeletNode), k, PriorityClass);
    }

    /** Adds the cluster's subject to one binding. */
    method BindRole(k: Key, role: Role, already: bool, ghost s: State, ghost t: State, ghost w: Worker)
      returns (failed: bool, ghost u: State)
      requires Stands(s, t, View(), k, w, BindRead(role, already), subjectOf)
      modifies `bindings
      ensures failed <==> already || !BindSucceeds(old(bindings), k, role)
      ensures bindings == BoundIn(old(bindings), k, role)
      ensures Stands(s, u, View(), k, w, NextBind(role, failed, NoError), subjectOf)
    {
      failed := already;
      u := BindReadStep(s, t, View(), k, w, role, already, GetBinding(role) in faults, subjectOf);
      assert role in bindings ==> bindings == bindings[role := bindings[role]];
      if GetBinding(role) in faults || role !in bindings { return true, u; }
      if subjectOf(k) !in bindings[role] {
        u := BindWriteStep(s, u, View(), k, w, role, already, UpdateBinding(role) in faults, subjectOf);
        if UpdateBinding(role) in faults { failed := true; }
        else { bindings := bindings[role := bindings[role] + [subjectOf(k)]]; }
      }
    }

    /** Adds the cluster's subject to both bindings; a failure with one does not keep it from the other. */
    method BindClusterRoles(k: Key, ghost s: State, ghost t: State, ghost w: Worker) returns (ok: bool, ghost u: State)
      requires Stands(s, t, View(), k, w, BindRead(KubeletNode, false), subjectOf)
      modifies `bindings
      ensures ok <==> BindSucceeds(old(bindings), k, KubeletNode) && BindSucceeds(old(bindings), k, PriorityClass)
      ensures bindings == BoundIn(BoundIn(old(bindings), k, KubeletNode), k, PriorityClass)
      // success means that both have the subject; no other subject comes or goes
      ensures ok ==> InBoth(bindings, subjectOf(k))
      ensures OthersIn(old(bindings), bindings, subjectOf(k))
      ensures Stands(s, u, View(), k, w, SaveStatus(if ok then NoError else Other), subjectOf)
    {
      ghost var start := bindings;
      var roles, failed, i := [KubeletNode, PriorityClass], false, 0;
      u := t;
      while i < |roles|
        invariant 0 <= i <= 2 && |roles| == 2
        invariant i == 0 ==> !failed && bindings == start
        invariant i == 1 ==> (failed <==> !BindSucceeds(start, k, KubeletNode)) && bindings == BoundIn(start, k, KubeletNode)
        invariant i == 2 ==>
          && (failed <==> !BindSucceeds(start, k, KubeletNode) || !BindSucceeds(start, k, PriorityClass))
          && bindings == BoundIn(BoundIn(start, k, KubeletNode), k, PriorityClass)
        invariant i < 2 ==> Stands(s, u, View(), k, w, BindRead(roles[i], failed), subjectOf)
        invariant i == 2 ==> Stands(s, u, View(), k, w, SaveStatus(if failed then Other else NoError), subjectOf)
      {
        failed, u := BindRole(k, roles[i], failed, s, u, w);
        i := i + 1;
      }
      ok := !failed;
      BoundInBoth(start, k);
    }

    ghost predicate BothUnbind(b: map<Role, seq<Subject>>, k: Key) {
      UnbindSucceeds(b, k, KubeletNode) && UnbindSucceeds(b, k, PriorityClass)
    }

    ghost function BothUnbound(b: map<Role, seq<Subject>>, k: Key): map<Role, seq<Subject>> {
      UnboundIn(UnboundIn(b, k, KubeletNode), k, PriorityClass)
    }

    /** Takes the cluster's subject out of one binding. */
    method UnbindRole(k: Key, role: Role, already: bool, ghost s: State, ghost t: State, ghost w: Worker)
      returns (failed: bool, ghost u: State)
      requires Stands(s, t, View(), k, w, UnbindRead(role, already), subjectOf)
      modifies `bindings
      ensures failed <==> already || !UnbindSucceeds(old(bindings), k, role)
      ensures bindings == UnboundIn(old(bindings), k, role)
      ensures Proceeds(s, u, View(), k, w, role, failed, subjectOf)
    {
      failed := already;
      u := UnbindReadStep(s, t, View(), k, w, role, already, GetBinding(role) in faults, subjectOf);
      assert role in bindings ==> bindings == bindings[role := bindings[role]];
      if GetBinding(role) in faults || role !in bindings { return true, u; }
      var cleaned := Without(bindings[role], subjectOf(k));
      WithoutShrinks(bindings[role], subjectOf(k));
      if cleaned != bindings[role] {
        u := UnbindWriteStep(s, u, View(), k, w, role, already, UpdateBinding(role) in faults, subjectOf);
        if UpdateBinding(role) in faults { failed := true; } else { bindings := bindings[role := cleaned]; }
      }
    }

    /** Takes the cluster's subject out of both bindings, again whatever happens with the other one. */
    method UnbindClusterRoles(k: Key, ghost s: State, ghost t: State, ghost w: Worker) returns (ok: bool, ghost u: State)
      requires Stands(s, t, View(), k, w, UnbindRead(KubeletNode, false), subjectOf)
      modifies `bindings
      ensures ok <==> BothUnbind(old(bindings), k)
      ensures bindings == BothUnbound(old(bindings), k)
      ensures Proceeds(s, u, View(), k, w, PriorityClass, !ok, subjectOf)
    {
      ghost var start := bindings;
      var roles, failed, i := [KubeletNode, PriorityClass], false, 0;
      u := t;
      while i < |roles|
        invariant 0 <= i <= 2 && |roles| == 2
        invariant i == 0 ==> !failed && bindings == start
        invariant i == 1 ==> (failed <==> !UnbindSucceeds(start, k, KubeletNode)) && bindings == UnboundIn(start, k, KubeletNode)
        invariant i == 2 ==>
          && (failed <==> !UnbindSucceeds(start, k, KubeletNode) || !UnbindSucceeds(start, k, PriorityClass))
          && bindings == UnboundIn(UnboundIn(start, k, KubeletNode), k, PriorityClass)
        invariant i < 2 ==> Stands(s, u, View(), k, w, UnbindRead(roles[i], failed), subjectOf)
        invariant i == 2 ==> Proceeds(s, u, View(), k, w, PriorityClass, failed, subjectOf)
      {
        failed, u := UnbindRole(k, roles[i], failed, s, u, w);
        i := i + 1;
      }
      ok := !failed;
    }

    /** The port can be given back: the map does not have it, or has the one that the status says. */
    ghost predicate PortReleasable(k: Key, port: int)
      reads `ports
    {
      && GetPorts !in faults && UpdatePorts !in faults
      && (PortKeyOf(k) in ports.ports ==> ports.ports[PortKeyOf(k)] == port)
    }

    method DeallocateKubeletPort(k: Key, port: int, ghost s: State, ghost t: State, ghost w: Worker) returns (ok: bool, ghost u: State)
      requires Stands(s, t, View(), k, w, FreeRead, subjectOf) && port == w.copy.status.port
      modifies `ports
      ensures ok <==> old(PortReleasable(k, port))
      ensures ports == if ok then Applied(old(ports), Free(PortKeyOf(k))) else old(ports)
      ensures if ok then Stands(s, u, View(), k, w, DropLease, subjectOf) else Rests(s, u, View(), k, subjectOf)
    {
      var key := PortKeyOf(k);
      u := FreeReadStep(s, t, View(), k, w, GetPorts in faults, subjectOf);
      if GetPorts in faults || (key in ports.ports && ports.ports[key] != port) { return false, u; }
      u := FreeWriteStep(s, u, View(), k, w, UpdatePorts in faults, subjectOf);
      if UpdatePorts in faults { return false, u; }
      ports := Applied(ports, Free(key));
      ok := true;
    }

    /** The last two calls: the lease goes, and then the finalizer. */
    method DropLeaseAndFinalizer(k: Key, copy: Cluster, ghost s: State, ghost t: State, ghost w: Worker) returns (ok: bool, ghost u: State)
      requires Stands(s, t, View(), k, w, DropLease, subjectOf) && copy.(version := 0) == w.copy.(version := 0) && k in clusters
      modifies `clusters
      ensures ok <==> DeleteLease !in faults && (copy.finalizer ==> UpdateCluster !in faults)
      ensures clusters == if ok && copy.finalizer then Finalized(old(clusters), k, copy) else old(clusters)
      ensures Rests(s, u, View(), k, subjectOf)
    {
      u := LeaseStep(s, t, View(), k, w, DeleteLease in faults, subjectOf);
      if DeleteLease in faults { return false, u; }
      u := FinalizerStep(s, u, View(), k, w, UpdateCluster in faults, subjectOf);
      ok := true;
      if copy.finalizer {
        if UpdateCluster in faults { return false, u; }
        FinalizedAlike(clusters, clusters, k, copy, w.copy);
        clusters := Finalized(clusters, k, copy);
      }
    }

    /** Nothing that follows the subjects fails. */
    ghost predicate Releasable(k: Key, c: Cluster)
      reads `ports
    {
      && (Mirrors(c) ==> PortReleasable(k, c.status.port))
      && DeleteLease !in faults && (c.finalizer ==> UpdateCluster !in faults)
    }

    /** The port map when that of a cluster that uses it has been given back, if it can be. */
    ghost function Freed(k: Key, c: Cluster): Stored
      reads `ports
    {
      if Mirrors(c) && PortReleasable(k, c.status.port) then Applied(ports, Free(PortKeyOf(k))) else ports
    }

    /** What follows when the subjects are gone: the port of a cluster that uses one, the lease, and the finalizer. */
    method ReleaseAll(k: Key, copy: Cluster, ghost s: State, ghost t: State, ghost w: Worker) returns (ok: bool, ghost u: State)
      requires Proceeds(s, t, View(), k, w, PriorityClass, false, subjectOf)
      requires k in clusters && copy == Terminated(clusters[k]) && copy.(version := 0) == w.copy.(version := 0)
      modifies `clusters, `ports
      ensures ok <==> old(Releasable(k, clusters[k]))
      ensures clusters == if ok then Released(old(clusters), k) else old(clusters)
      ensures ports == old(Freed(k, clusters[k]))
      ensures Rests(s, u, View(), k, subjectOf)
    {
      u := t;
      if copy.finalizer { FinalizedLeaves(clusters, k); }
      if Mirrors(copy) {
        ok, u := DeallocateKubeletPort(k, copy.status.port, s, u, w);
        if !ok { return; }
      }
      ok, u := DropLeaseAndFinalizer(k, copy, s, u, w);
    }

    lemma NeitherBinds(b: map<Role, seq<Subject>>, k: Key)
      requires BothUnbind(b, k)
      ensures forall role :: role in BothUnbound(b, k) ==> subjectOf(k) !in BothUnbound(b, k)[role]
    {
      var after := BothUnbound(b, k);
      assert after[KubeletNode] == WithoutSubject(b[KubeletNode], subjectOf(k), Reached(b, KubeletNode, true));
      assert after[PriorityClass] == WithoutSubject(b[PriorityClass], subjectOf(k), Reached(b, PriorityClass, true));
      forall role | role in after ensures subjectOf(k) !in after[role] {
        assert role == KubeletNode || role == PriorityClass;
      }
    }

    /** The calls of a finalization: subjects first, then the port, then the lease, and the finalizer only when all of that
        is done. */
    method RunFinalization(k: Key, ghost s: State) returns (ok: bool, ghost u: State)
      requires k in clusters && clusters[k].deleting && Rests(s, s, View(), k, subjectOf)
      modifies this
      ensures Rests(s, u, View(), k, subjectOf)
      ensures ok <==> BothUnbind(old(bindings), k) && old(Releasable(k, clusters[k]))
      ensures clusters == if ok then Released(old(clusters), k) else old(clusters)
      ensures ports == if BothUnbind(old(bindings), k) then old(Freed(k, clusters[k])) else old(ports)
      ensures bindings == BothUnbound(old(bindings), k)
    {
      ghost var w;
      u, w := FinalizationStarts(s, View(), k, subjectOf);
      var copy := Terminated(clusters[k]);
      ok, u := UnbindClusterRoles(k, s, u, w);
      if ok { ok, u := ReleaseAll(k, copy, s, u, w); }
    }

    /** Finalizes a cluster that is being deleted. */
    method FinalizeCluster(k: Key, ghost s: State) returns (ok: bool, ghost u: State)
      requires k in clusters && clusters[k].deleting && Rests(s, s, View(), k, subjectOf)
      modifies this
      // it is a run of the machine
      ensures Rests(s, u, View(), k, subjectOf)
      // exactly when it succeeds
      ensures ok <==> BothUnbind(old(bindings), k) && old(Releasable(k, clusters[k]))
      // then nothing is held any more, and the cluster is gone unless others still hold it; otherwise it stays as it was
      ensures ok ==> forall role :: role in bindings ==> subjectOf(k) !in bindings[role]
      ensures ok && Mirrors(old(clusters)[k]) ==> PortKeyOf(k) !in ports.ports
      ensures if ok then LetGo(old(clusters), clusters, k) else clusters == old(clusters)
      // the other things are released as far as it came, and nothing else is
      ensures ports == if BothUnbind(old(bindings), k) then old(Freed(k, clusters[k])) else old(ports)
      ensures bindings == BothUnbound(old(bindings), k)
      ensures OthersIn(old(bindings), bindings, subjectOf(k))
    {
      OthersStayIn(bindings, k);
      ReleasedOnly(clusters, k);
      if BothUnbind(bindings, k) { NeitherBinds(bindings, k); }
      ok, u := RunFinalization(k, s);
    }
  }

  /** `slices.DeleteFunc` changes the list only if the subject is in it. */
  lemma {:induction false} WithoutShrinks(subjects: seq<Subject>, x: Subject)
    ensures |Without(subjects, x)| <= |subjects|
    ensures Without(subjects, x) == subjects <==> x !in subjects
  {
    if subjects != [] {
      WithoutShrinks(subjects[1..], x);
      assert subjects == [subjects[0]] + subjects[1..];
    }
  }
}
