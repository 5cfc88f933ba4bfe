/** What it means that a cluster is Ready: over which runs its service account then is in both bindings, and that nothing
    that went wrong on the way is forgotten. */
module ClusterReady {
  import opened Basics
  import opened ClusterLifecycle
  import opened ClusterLeaks
  import ClusterPorts

  // ---------------------------------------------------------------------------------------------
  // What a worker knows of the bindings
  // ---------------------------------------------------------------------------------------------

  /** The reconciliation has seen its subject in the role's binding, or entered it, and nothing has failed since it began. */
  predicate PastBind(at: Pc, role: Role) {
    || (at.SaveStatus? && at.error == NoError) || at.SaveSpec?
    || (role == KubeletNode && (at.BindRead? || at.BindWrite?) && at.role == PriorityClass && !at.failed)
  }

  ghost predicate Enters(s: State, j: Key, w: Worker, subjectOf: Key -> Subject) {
    forall role :: PastBind(w.at, role) ==> Bound(s, role, subjectOf(j))
  }

  ghost predicate EntersSubject(s: State, j: Key, subjectOf: Key -> Subject) {
    j in s.workers ==> Enters(s, j, s.workers[j], subjectOf)
  }

  /** The reconciliation's read serves a version of the binding in which its subject still was. */
  predicate Misreads(s: State, k: Key, a: Action, subjectOf: Key -> Subject) {
    && a.Call? && k in s.workers && s.workers[k].at.BindRead? && !a.outcome.refused
    && var role := s.workers[k].at.role;
       && (role == KubeletNode ==> a.outcome.error == NoError) && role in s.bindings
       && subjectOf(k) in ServedBinding(s, role, a.outcome.back).subjects && !Bound(s, role, subjectOf(k))
  }

  /** No other cluster has its subject. */
  ghost predicate Alone(j: Key, subjectOf: Key -> Subject) {
    forall k :: subjectOf(k) == subjectOf(j) ==> k == j
  }

  /** A subject goes from a binding only for a finalization of a cluster that has it. */
  lemma CallUnbinds(s: State, k: Key, o: Outcome, subjectOf: Key -> Subject, role: Role, x: Subject)
    requires Inv(s, subjectOf) && k in s.workers && Bound(s, role, x) && !Bound(Called(s, k, o, subjectOf), role, x)
    ensures s.workers[k].at.UnbindWrite? && x == subjectOf(k)
  {
    CallOk(s, k, o, subjectOf);
    TouchUnbinds(s, k, s.workers[k], EffectOf(s, k, s.workers[k], o, subjectOf).touch, subjectOf, role, x);
  }

  lemma TouchUnbinds(s: State, k: Key, w: Worker, touch: Touch, subjectOf: Key -> Subject, role: Role, x: Subject)
    requires TouchOk(s, k, w, touch, subjectOf) && Bound(s, role, x)
    ensures !Bound(Touched(s, k, touch), role, x) ==> w.at.UnbindWrite? && x == subjectOf(k)
  {
  }

  lemma OwnCallEnters(s: State, k: Key, w: Worker, o: Outcome, subjectOf: Key -> Subject, role: Role)
    requires k in s.workers && w == s.workers[k] && WorkerOk(s, k, w, subjectOf) && Enters(s, k, w, subjectOf)
    requires !Misreads(s, k, Call(o), subjectOf)
    ensures var e := EffectOf(s, k, w, o, subjectOf);
      e.next.Some? && PastBind(e.next.value.at, role) && !PastBind(w.at, role) ==> Bound(Touched(s, k, e.touch), role, subjectOf(k))
  {
    if w.at.BindRead? { ReadEnters(s, k, w, o, subjectOf, role); }
    else if w.at.BindWrite? { WriteEnters(s, k, w, o, subjectOf, role); }
    else if !PastBind(w.at, role) { OthersEnterNothing(s, k, w, o, subjectOf, role); }
  }

  lemma ReadEnters(s: State, k: Key, w: Worker, o: Outcome, subjectOf: Key -> Subject, role: Role)
    requires k in s.workers && w == s.workers[k] && w.at.BindRead? && Enters(s, k, w, subjectOf) && !Misreads(s, k, Call(o), subjectOf)
    ensures var e := AtBindRead(s, k, w, o, subjectOf);
      e.next.Some? && PastBind(e.next.value.at, role) && !PastBind(w.at, role) ==> Bound(Touched(s, k, e.touch), role, subjectOf(k))
  {
  }

  lemma WriteEnters(s: State, k: Key, w: Worker, o: Outcome, subjectOf: Key -> Subject, role: Role)
    requires w.at.BindWrite?
    ensures var e := AtBindWrite(s, k, w, o, subjectOf);
      e.next.Some? && PastBind(e.next.value.at, role) && !PastBind(w.at, role) ==> Bound(Touched(s, k, e.touch), role, subjectOf(k))
  {
  }

  /** Only the calls on the bindings take a reconciliation past them. */
  lemma OthersEnterNothing(s: State, k: Key, w: Worker, o: Outcome, subjectOf: Key -> Subject, role: Role)
    requires !w.at.BindRead? && !w.at.BindWrite? && !PastBind(w.at, role)
    ensures var e := EffectOf(s, k, w, o, subjectOf); e.next.Some? ==> !PastBind(e.next.value.at, role)
  {
    if Finalizes(w.at) { FinalizationEntersNothing(s, k, w, o, subjectOf, role); }
  }

  lemma FinalizationEntersNothing(s: State, k: Key, w: Worker, o: Outcome, subjectOf: Key -> Subject, role: Role)
    requires Finalizes(w.at)
    ensures var e := EffectOf(s, k, w, o, subjectOf); e.next.Some? ==> !PastBind(e.next.value.at, role)
  {
  }

  lemma CallEnters(s: State, k: Key, o: Outcome, subjectOf: Key -> Subject)
    requires Inv(s, subjectOf) && EntersSubject(s, k, subjectOf) && !Misreads(s, k, Call(o), subjectOf)
    ensures EntersSubject(Called(s, k, o, subjectOf), k, subjectOf)
  {
    var t := Called(s, k, o, subjectOf);
    if k in s.workers && k in t.workers {
      var w := s.workers[k];
      assert WorkerOk(s, k, w, subjectOf);
      forall role | PastBind(t.workers[k].at, role) ensures Bound(t, role, subjectOf(k)) {
        if !PastBind(w.at, role) { OwnCallEnters(s, k, w, o, subjectOf, role); }
        else if !Bound(t, role, subjectOf(k)) { CallUnbinds(s, k, o, subjectOf, role, subjectOf(k)); }
      }
    }
  }

  /** A step of another cluster does not take the subject out, and neither does one that is no call. */
  lemma OthersLeaveSubject(s: State, k: Key, a: Action, subjectOf: Key -> Subject, j: Key, role: Role)
    requires Inv(s, subjectOf) && Alone(j, subjectOf) && (j != k || !a.Call?) && Bound(s, role, subjectOf(j))
    ensures Bound(Next(s, k, a, subjectOf), role, subjectOf(j))
  {
    if a.Call? && k in s.workers && !Bound(Next(s, k, a, subjectOf), role, subjectOf(j)) {
      CallUnbinds(s, k, a.outcome, subjectOf, role, subjectOf(j));
    }
  }

  /** Every step keeps what a worker knows, except a read that finds what is not there any more. */
  lemma NextEnters(s: State, k: Key, a: Action, subjectOf: Key -> Subject, j: Key)
    requires Inv(s, subjectOf) && EntersSubject(s, j, subjectOf) && Alone(j, subjectOf) && (j == k ==> !Misreads(s, k, a, subjectOf))
    ensures EntersSubject(Next(s, k, a, subjectOf), j, subjectOf)
  {
    var t := Next(s, k, a, subjectOf);
    if j == k && a.Call? {
      CallEnters(s, k, a.outcome, subjectOf);
    } else if j in t.workers {
      if j != k { OthersStay(s, k, a, subjectOf, j); }
      forall role | PastBind(t.workers[j].at, role) ensures Bound(t, role, subjectOf(j)) {
        OthersLeaveSubject(s, k, a, subjectOf, j, role);
      }
    }
  }

  // ---------------------------------------------------------------------------------------------
  // Ready clusters
  // ---------------------------------------------------------------------------------------------

  predicate IsReady(s: State, j: Key) {
    j in s.clusters && s.clusters[j].status.phase.Ready? && !s.clusters[j].deleting
  }

  predicate ReadyBound(s: State, j: Key, subjectOf: Key -> Subject) {
    IsReady(s, j) ==> Bound(s, KubeletNode, subjectOf(j)) && Bound(s, PriorityClass, subjectOf(j))
  }

  lemma CallKeepsBound(s: State, k: Key, o: Outcome, subjectOf: Key -> Subject, role: Role)
    requires Inv(s, subjectOf) && StatusInv(s) && k in s.workers && IsReady(s, k) && Bound(s, role, subjectOf(k))
    ensures Bound(Called(s, k, o, subjectOf), role, subjectOf(k))
  {
    assert WorkerOk(s, k, s.workers[k], subjectOf);
    if !Bound(Called(s, k, o, subjectOf), role, subjectOf(k)) { CallUnbinds(s, k, o, subjectOf, role, subjectOf(k)); }
  }

  lemma CallReady(s: State, k: Key, o: Outcome, subjectOf: Key -> Subject)
    requires Inv(s, subjectOf) && StatusInv(s) && EntersSubject(s, k, subjectOf) && ReadyBound(s, k, subjectOf) && k in s.workers
    ensures ReadyBound(Called(s, k, o, subjectOf), k, subjectOf)
  {
    var w, t := s.workers[k], Called(s, k, o, subjectOf);
    if IsReady(t, k) {
      assert WorkerOk(s, k, w, subjectOf);
      ClusterPorts.BecomesReady(s, k, w, o, subjectOf);
      ClusterPorts.SameUse(s, k, o, subjectOf);
      forall role ensures Bound(t, role, subjectOf(k)) {
        if s.clusters[k].status == t.clusters[k].status && IsReady(s, k) {
          CallKeepsBound(s, k, o, subjectOf, role);
        } else if !Bound(t, role, subjectOf(k)) {
          assert PastBind(w.at, role);
          CallUnbinds(s, k, o, subjectOf, role, subjectOf(k));
        }
      }
    }
  }

  lemma NextKeepsReady(s: State, k: Key, a: Action, subjectOf: Key -> Subject, j: Key)
    requires Inv(s, subjectOf) && StatusInv(s) && EntersSubject(s, j, subjectOf) && ReadyBound(s, j, subjectOf) && Alone(j, subjectOf)
    ensures ReadyBound(Next(s, k, a, subjectOf), j, subjectOf)
  {
    if j == k && a.Call? {
      if k in s.workers { CallReady(s, k, a.outcome, subjectOf); }
    } else if IsReady(Next(s, k, a, subjectOf), j) {
      if j != k { OthersStay(s, k, a, subjectOf, j); }
      assert IsReady(s, j);
      OthersLeaveSubject(s, k, a, subjectOf, j, KubeletNode);
      OthersLeaveSubject(s, k, a, subjectOf, j, PriorityClass);
    }
  }

  // ---------------------------------------------------------------------------------------------
  // Whole runs
  // ---------------------------------------------------------------------------------------------

  /** No read of a binding finds the cluster's subject where it is not any more. */
  ghost predicate UpToDateRun(s: State, run: seq<Event>, subjectOf: Key -> Subject, j: Key)
    decreases |run|
  {
    run != [] ==>
      && (run[0].key == j ==> !Misreads(s, j, run[0].action, subjectOf))
      && UpToDateRun(Next(s, run[0].key, run[0].action, subjectOf), run[1..], subjectOf, j)
  }

  lemma {:induction false} RunKeepsReady(s: State, run: seq<Event>, subjectOf: Key -> Subject, j: Key)
    requires Inv(s, subjectOf) && StatusInv(s) && EntersSubject(s, j, subjectOf) && ReadyBound(s, j, subjectOf)
    requires Alone(j, subjectOf) && UpToDateRun(s, run, subjectOf, j)
    ensures ReadyBound(After(s, run, subjectOf), j, subjectOf)
    decreases |run|
  {
    if run != [] {
      var e := run[0];
      NextKeeps(s, e.key, e.action, subjectOf);
      NextKeepsStatus(s, e.key, e.action, subjectOf);
      NextEnters(s, e.key, e.action, subjectOf, j);
      NextKeepsReady(s, e.key, e.action, subjectOf, j);
      RunKeepsReady(Next(s, e.key, e.action, subjectOf), run[1..], subjectOf, j);
    }
  }

  /** From the installation on, over every run in which no read of a binding finds the cluster's subject where it is not any
      more: while the cluster is Ready, and not being deleted, its subject is in both bindings. Another cluster of the very
      same subject could take it out. */
  lemma ReadyClusterIsBound(s: State, run: seq<Event>, subjectOf: Key -> Subject, j: Key, role: Role)
    requires Initial(s) && Alone(j, subjectOf) && UpToDateRun(s, run, subjectOf, j)
    ensures var t := After(s, run, subjectOf);
      j in t.clusters && t.clusters[j].status.phase.Ready? && !t.clusters[j].deleting ==>
        role in t.bindings && subjectOf(j) in t.bindings[role].subjects
  {
    InitialInv(s, subjectOf);
    RunKeepsReady(s, run, subjectOf, j);
  }

  /** A reconciliation that has defaulted the spec ends with a new version of the cluster, with the status that is stored. */
  lemma DefaultsAreSaved(s: State, k: Key, o: Outcome, subjectOf: Key -> Subject)
    requires Inv(s, subjectOf) && k in s.workers && s.workers[k].at.SaveSpec? && Current(s, k, s.workers[k]) && o.dirty && !o.refused
    ensures var t := Called(s, k, o, subjectOf);
      k in t.clusters && t.clusters[k] == s.clusters[k].(version := t.rv) && t.rv > s.rv && k !in t.workers
  {
    assert WorkerOk(s, k, s.workers[k], subjectOf);
  }

  // ---------------------------------------------------------------------------------------------
  // Failures on the way
  // ---------------------------------------------------------------------------------------------

  /** The reconciliation is bound to end without success. */
  predicate Spoiled(at: Pc) {
    (at.SaveStatus? && at.error != NoError) || ((at.BindRead? || at.BindWrite?) && at.failed)
  }

  /** The call does not go as it should: one before it fails, it is refused, or its answer is lost. */
  predicate GoesWrong(s: State, at: Pc, o: Outcome) {
    match at
    case Begin => o.error != NoError
    case AllocRead => o.refused
    case AllocWrite(_, _, _) => o.refused || o.lost
    case BindRead(role, _) => o.refused || role !in s.bindings || (role == KubeletNode && o.error != NoError)
    case BindWrite(role, _, _, _) => o.refused || o.lost || (role == PriorityClass && o.error != NoError)
    case _ => false
  }

  /** Whatever goes wrong in a reconciliation of a cluster that has its finalizer, the reconciliation then ends without
      success; and once it is so, it stays so until the status is written. */
  lemma FailuresAreKept(s: State, k: Key, w: Worker, o: Outcome, subjectOf: Key -> Subject)
    requires w.at.Begin? ==> Live(w.copy) && w.copy.status.phase != Unset && w.copy.status.phase != Unknown
    requires GoesWrong(s, w.at, o) || (Spoiled(w.at) && !w.at.SaveStatus?)
    ensures var e := EffectOf(s, k, w, o, subjectOf); e.next.Some? && Spoiled(e.next.value.at)
  {
  }
}
