/** What the host names mean for pods, synced copies and cluster role bindings: objects of one virtual cluster, or
    clusters of one namespace, get into each other's way only if the cut of their names confuses them. */
module Naming {
  import opened Basics
  import opened Text
  import opened Names
  import opened Metadata
  import Pods
  import Syncer
  import Lifecycle = ClusterLifecycle
  import Leaks = ClusterLeaks

  // ---------------------------------------------------------------------------------------------
  // Objects of one virtual cluster
  // ---------------------------------------------------------------------------------------------

  /** A namespace and a name. */
  datatype Id = Id(namespace: GoString, name: GoString)

  /** The cut confuses the host names of two different objects. */
  predicate ConfusedIds(sha: Sha256, cluster: GoString, a: Id, b: Id) {
    Confused(sha, FullName(VirtualName(a.namespace, a.name, cluster)), FullName(VirtualName(b.namespace, b.name, cluster)))
  }

  lemma HostNamesCollide(sha: Sha256, cluster: GoString, clusterNamespace: GoString, a: Id, b: Id)
    ensures var t := TranslatorOf(sha, cluster, clusterNamespace);
      t.hostName(a.namespace, a.name) == t.hostName(b.namespace, b.name) <==> a == b || ConfusedIds(sha, cluster, a, b)
  {
    TranslateNameCollides(sha, VirtualName(a.namespace, a.name, cluster), VirtualName(b.namespace, b.name, cluster));
  }

  /** A translator gives two different objects one name exactly if it confuses them. */
  ghost predicate Separates(t: Translator, confused: (Id, Id) -> bool) {
    forall a: Id, b: Id {:trigger confused(a, b)} ::
      t.hostName(a.namespace, a.name) == t.hostName(b.namespace, b.name) <==> a == b || confused(a, b)
  }

  lemma TranslatorSeparates(sha: Sha256, cluster: GoString, clusterNamespace: GoString)
    ensures Separates(TranslatorOf(sha, cluster, clusterNamespace), (a: Id, b: Id) => ConfusedIds(sha, cluster, a, b))
  {
    var t := TranslatorOf(sha, cluster, clusterNamespace);
    forall a: Id, b: Id
      ensures t.hostName(a.namespace, a.name) == t.hostName(b.namespace, b.name) <==> a == b || ConfusedIds(sha, cluster, a, b)
    {
      HostNamesCollide(sha, cluster, clusterNamespace, a, b);
    }
  }

  // ---------------------------------------------------------------------------------------------
  // Pods
  // ---------------------------------------------------------------------------------------------

  function IdOf(m: Meta): Id {
    Id(m.namespace, m.name)
  }

  function Target(op: Pods.Op): Id {
    match op
    case Create(_, pod) => IdOf(pod)
    case Update(pod) => IdOf(pod)
    case Delete(namespace, name) => Id(namespace, name)
  }

  /** No two different pods of these are confused. */
  ghost predicate KeptApart(confused: (Id, Id) -> bool, ids: set<Id>) {
    forall a, b :: a in ids && b in ids && a != b ==> !confused(a, b)
  }

  /** A host pod has been made and updated from versions of one virtual pod. */
  ghost predicate OwnSources(t: Translator, n: GoString, origin: Pods.Origin, ids: set<Id>) {
    && origin.sources != [] && IdOf(origin.sources[0]) in ids
    && n == t.hostName(origin.sources[0].namespace, origin.sources[0].name)
    && forall s :: s in origin.sources ==> IdOf(s) == IdOf(origin.sources[0])
  }

  ghost predicate AllOwn(t: Translator, origins: Pods.Origins, ids: set<Id>) {
    forall n :: n in origins ==> OwnSources(t, n, origins[n], ids)
  }

  lemma OneName(t: Translator, confused: (Id, Id) -> bool, ids: set<Id>, a: Id, b: Id)
    requires Separates(t, confused) && KeptApart(confused, ids) && a in ids && b in ids
    requires t.hostName(a.namespace, a.name) == t.hostName(b.namespace, b.name)
    ensures a == b
  {
    assert a == b || confused(a, b);
  }

  lemma TraceKeepsOwn(t: Translator, confused: (Id, Id) -> bool, origins: Pods.Origins, op: Pods.Op, ids: set<Id>)
    requires Separates(t, confused) && KeptApart(confused, ids) && Target(op) in ids && AllOwn(t, origins, ids)
    ensures AllOwn(t, Pods.Trace(t, origins, op), ids)
  {
    if op.Update? {
      var n := t.hostName(op.pod.namespace, op.pod.name);
      if n in origins {
        OneName(t, confused, ids, IdOf(op.pod), IdOf(origins[n].sources[0]));
      }
    }
  }

  lemma {:induction false} RunKeepsOwn(t: Translator, confused: (Id, Id) -> bool, origins: Pods.Origins, ops: seq<Pods.Op>, ids: set<Id>)
    requires Separates(t, confused) && KeptApart(confused, ids) && AllOwn(t, origins, ids)
    requires forall op :: op in ops ==> Target(op) in ids
    ensures AllOwn(t, Pods.TraceAll(t, origins, ops), ids)
    decreases |ops|
  {
    if ops != [] {
      assert ops[0] in ops && forall op :: op in ops[1..] ==> op in ops;
      TraceKeepsOwn(t, confused, origins, ops[0], ids);
      RunKeepsOwn(t, confused, Pods.Trace(t, origins, ops[0]), ops[1..], ids);
    }
  }

  /** The host pod has only ever been made and updated from one virtual pod, the one that it translates back to. */
  ghost predicate StaysItself(t: Translator, ops: seq<Pods.Op>, ids: set<Id>, n: GoString)
    requires n in Pods.After(t, map[], ops)
  {
    var o := Pods.TraceAll(t, map[], ops);
    n in o && OwnSources(t, n, o[n], ids) && forall s :: s in o[n].sources ==> IdOf(From(Pods.After(t, map[], ops)[n])) == IdOf(s)
  }

  lemma RunStaysItself(t: Translator, confused: (Id, Id) -> bool, ops: seq<Pods.Op>, ids: set<Id>, n: GoString)
    requires Separates(t, confused) && KeptApart(confused, ids) && forall op :: op in ops ==> Target(op) in ids
    requires n in Pods.After(t, map[], ops)
    ensures StaysItself(t, ops, ids, n)
  {
    RunKeepsOwn(t, confused, map[], ops, ids);
    Pods.AgentsListTheirOwn(t, map[], map[], ops, "", n);
  }

  /** Over every run that only touches these pods, every host pod stays with one of them. */
  ghost predicate AllStay(t: Translator, ids: set<Id>) {
    forall ops: seq<Pods.Op>, n: GoString {:trigger StaysItself(t, ops, ids, n)} ::
      (forall op :: op in ops ==> Target(op) in ids) && n in Pods.After(t, map[], ops) ==> StaysItself(t, ops, ids, n)
  }

  function Plain(id: Id): Meta {
    Meta(id.name, id.namespace, map[], map[], [], [], "", "")
  }

  /** A pod is created, and then another one with the same host name is updated. */
  function Clash(a: Id, b: Id): seq<Pods.Op> {
    [Pods.Create("", Plain(a)), Pods.Update(Plain(b))]
  }

  lemma ClashMixes(t: Translator, a: Id, b: Id, ids: set<Id>)
    requires a != b && t.hostName(a.namespace, a.name) == t.hostName(b.namespace, b.name)
    ensures var n := t.hostName(a.namespace, a.name);
      n in Pods.After(t, map[], Clash(a, b)) && !StaysItself(t, Clash(a, b), ids, n)
  {
    var n, ops := t.hostName(a.namespace, a.name), Clash(a, b);
    var rest := ops[1..];
    assert rest == [Pods.Update(Plain(b))] && rest[1..] == [];
    var first, o := Pods.Do(t, map[], ops[0]), Pods.Trace(t, map[], ops[0]);
    assert Pods.After(t, first, rest) == Pods.After(t, Pods.Do(t, first, rest[0]), []);
    assert Pods.TraceAll(t, o, rest) == Pods.TraceAll(t, Pods.Trace(t, o, rest[0]), []);
    assert Pods.After(t, map[], ops) == Pods.Do(t, first, rest[0]);
    assert Pods.TraceAll(t, map[], ops) == Pods.Trace(t, o, rest[0]);
    var sources := Pods.Trace(t, o, rest[0])[n].sources;
    assert sources == [Plain(a), Plain(b)];
    assert Plain(b) in sources && IdOf(sources[1]) == b && IdOf(sources[0]) == a;
  }

  lemma StayExactly(t: Translator, confused: (Id, Id) -> bool, ids: set<Id>)
    requires Separates(t, confused)
    ensures AllStay(t, ids) <==> KeptApart(confused, ids)
  {
    if KeptApart(confused, ids) {
      forall ops: seq<Pods.Op>, n: GoString | (forall op :: op in ops ==> Target(op) in ids) && n in Pods.After(t, map[], ops)
        ensures StaysItself(t, ops, ids, n)
      {
        RunStaysItself(t, confused, ops, ids, n);
      }
    } else {
      var a, b :| a in ids && b in ids && a != b && confused(a, b);
      ClashMixes(t, a, b, ids);
      var n := t.hostName(a.namespace, a.name);
      assert forall op :: op in Clash(a, b) ==> Target(op) in ids;
      assert !StaysItself(t, Clash(a, b), ids, n);
    }
  }

  /** Whatever the agents do with these pods, every host pod has only ever been made and updated from one of them, the
      one that it translates back to, exactly if the cut confuses no two of them. */
  lemma PodsKeepApart(sha: Sha256, cluster: GoString, clusterNamespace: GoString, ids: set<Id>)
    ensures AllStay(TranslatorOf(sha, cluster, clusterNamespace), ids) <==>
      KeptApart((a: Id, b: Id) => ConfusedIds(sha, cluster, a, b), ids)
  {
    TranslatorSeparates(sha, cluster, clusterNamespace);
    StayExactly(TranslatorOf(sha, cluster, clusterNamespace), (a: Id, b: Id) => ConfusedIds(sha, cluster, a, b), ids);
  }

  // ---------------------------------------------------------------------------------------------
  // Synced copies
  // ---------------------------------------------------------------------------------------------

  function IdOfKey(k: Syncer.Key): Id {
    Id(k.namespace, k.name)
  }

  lemma CallsTouchOneName(c: Syncer.Setup, s: Syncer.State, k: Syncer.Key, a: Syncer.Action, n: GoString)
    requires n != Syncer.HostName(c, k) && n in s.host
    ensures n in Syncer.Next(c, s, k, a).host && Syncer.Next(c, s, k, a).host[n] == s.host[n]
  {
  }

  lemma TouchedMeansConfused(c: Syncer.Setup, confused: (Id, Id) -> bool, s: Syncer.State, k: Syncer.Key, a: Syncer.Action, n: GoString)
    requires Separates(c.t, confused) && Syncer.CopyOk(c, s, n) && n in s.host && Syncer.KeyOf(s.host[n].obj) != k
    ensures var t := Syncer.Next(c, s, k, a);
      (n in t.host && t.host[n] == s.host[n]) || confused(IdOfKey(k), IdOfKey(Syncer.KeyOf(s.host[n].obj)))
  {
    var other := Syncer.KeyOf(s.host[n].obj);
    if !confused(IdOfKey(k), IdOfKey(other)) {
      CallsTouchOneName(c, s, k, a, n);
    }
  }

  /** A reconciliation changes another object's copy only if the two names are confused. */
  lemma CopiesKeepApart(sha: Sha256, cluster: GoString, clusterNamespace: GoString, kind: Syncer.Kind, s: Syncer.State,
                        k: Syncer.Key, a: Syncer.Action, n: GoString)
    requires Syncer.Inv(Syncer.Setup(kind, TranslatorOf(sha, cluster, clusterNamespace)), s)
    requires n in s.host && Syncer.KeyOf(s.host[n].obj) != k
    ensures var t := Syncer.Next(Syncer.Setup(kind, TranslatorOf(sha, cluster, clusterNamespace)), s, k, a);
      || (n in t.host && t.host[n] == s.host[n])
      || ConfusedIds(sha, cluster, IdOfKey(k), IdOfKey(Syncer.KeyOf(s.host[n].obj)))
  {
    var c := Syncer.Setup(kind, TranslatorOf(sha, cluster, clusterNamespace));
    TranslatorSeparates(sha, cluster, clusterNamespace);
    assert Syncer.CopyOk(c, s, n);
    TouchedMeansConfused(c, (x: Id, y: Id) => ConfusedIds(sha, cluster, x, y), s, k, a, n);
  }

  /** The object's reconciliation is about to write its copy. */
  predicate Writes(s: Syncer.State, k: Syncer.Key) {
    var i := Syncer.Get(s, k);
    i.worker == Some(Syncer.Writing) && i.read < |i.history| && i.history[i.read].Present?
  }

  lemma WriteReplaces(c: Syncer.Setup, confused: (Id, Id) -> bool, s: Syncer.State, k: Syncer.Key, n: GoString)
    requires Separates(c.t, confused) && Syncer.CopyOk(c, s, n) && n in s.host && Syncer.KeyOf(s.host[n].obj) != k && Writes(s, k)
    ensures var t := Syncer.Called(c, s, k, false, false);
      n in t.host && (Syncer.KeyOf(t.host[n].obj) == k <==> confused(IdOfKey(k), IdOfKey(Syncer.KeyOf(s.host[n].obj))))
  {
    assert confused(IdOfKey(k), IdOfKey(Syncer.KeyOf(s.host[n].obj))) <==> Syncer.HostName(c, k) == n;
    if Syncer.HostName(c, k) == n {
      var i := Syncer.Get(s, k);
      Syncer.TranslateNamesItsKey(c.kind, c.t, k, i.history[i.read].source);
    }
  }

  /** And if they are confused, every write of the one replaces the copy of the other. */
  lemma ConfusedCopiesReplace(sha: Sha256, cluster: GoString, clusterNamespace: GoString, kind: Syncer.Kind, s: Syncer.State,
                              k: Syncer.Key, n: GoString)
    requires Syncer.Inv(Syncer.Setup(kind, TranslatorOf(sha, cluster, clusterNamespace)), s)
    requires n in s.host && Syncer.KeyOf(s.host[n].obj) != k && Writes(s, k)
    ensures var t := Syncer.Called(Syncer.Setup(kind, TranslatorOf(sha, cluster, clusterNamespace)), s, k, false, false);
      n in t.host && (Syncer.KeyOf(t.host[n].obj) == k <==> ConfusedIds(sha, cluster, IdOfKey(k), IdOfKey(Syncer.KeyOf(s.host[n].obj))))
  {
    var c := Syncer.Setup(kind, TranslatorOf(sha, cluster, clusterNamespace));
    TranslatorSeparates(sha, cluster, clusterNamespace);
    assert Syncer.CopyOk(c, s, n);
    WriteReplaces(c, (a: Id, b: Id) => ConfusedIds(sha, cluster, a, b), s, k, n);
  }

  // ---------------------------------------------------------------------------------------------
  // Subjects of clusters
  // ---------------------------------------------------------------------------------------------

  /** The service account of a cluster's kubelets, as it is bound. */
  function SubjectOf(sha: Sha256, k: Lifecycle.Key): Lifecycle.Subject {
    Lifecycle.Subject(SafeConcatNameWithPrefix(sha, [k.name, "kubelet"]), k.namespace)
  }

  function SubjectText(name: string): string {
    "k3k-" + name + "-kubelet"
  }

  lemma SubjectName(sha: Sha256, name: string)
    requires name != ""
    ensures SafeConcatNameWithPrefix(sha, [name, "kubelet"]) == Shorten(sha, SubjectText(name))
  {
    var parts := ["k3k"] + [name, "kubelet"];
    assert parts == ["k3k", name, "kubelet"];
    assert ["k3k", name, "kubelet"][1..] == [name, "kubelet"] && [name, "kubelet"][1..] == ["kubelet"] && ["kubelet"][1..] == [];
    assert DropEmpty(["kubelet"]) == ["kubelet"];
    assert DropEmpty([name, "kubelet"]) == [name, "kubelet"];
    assert DropEmpty(parts) == parts;
    SubjectJoin(name);
  }

  lemma SubjectJoin(name: string)
    ensures Join(["k3k", name, "kubelet"], "-") == SubjectText(name)
  {
    assert ["k3k", name, "kubelet"][1..] == [name, "kubelet"] && [name, "kubelet"][1..] == ["kubelet"];
    assert Join([name, "kubelet"], "-") == name + "-" + "kubelet";
  }

  /** A subject's text that is not cut never looks like one that is: the cut leaves a '-' where the one has "ku". */
  lemma UncutDiffersFromCut(sha: Sha256, name: string, g: string)
    requires |SubjectText(name)| < 64 && |g| >= 64
    ensures Shorten(sha, SubjectText(name)) != Shorten(sha, g)
  {
    var f, cut := SubjectText(name), Shorten(sha, g);
    ShortenLength(sha, g);
    if |f| == 63 {
      assert f == ("k3k-" + name) + "-kubelet" && |"k3k-" + name| == 55;
      assert f[56] == "-kubelet"[1] && f[57] == "-kubelet"[2];
      if LowerAlnum(g[56]) { CutParts(g, 57, Hex(sha(g))[..5]); } else { CutParts(g, 56, Hex(sha(g))[..6]); }
    }
  }

  lemma SubjectTextInjective(name: string, name': string)
    requires SubjectText(name) == SubjectText(name')
    ensures name == name'
  {
    var f := SubjectText(name);
    assert name == f[4..|f| - 8] && name' == f[4..|f| - 8];
  }

  /** Two clusters have the same subject exactly when they are the same, or in one namespace with confused names. */
  lemma SubjectsCollide(sha: Sha256, k: Lifecycle.Key, k': Lifecycle.Key)
    requires k.name != "" && k'.name != ""
    ensures SubjectOf(sha, k) == SubjectOf(sha, k') <==>
      k == k' || (k.namespace == k'.namespace && Confused(sha, SubjectText(k.name), SubjectText(k'.name)))
  {
    var f, g := SubjectText(k.name), SubjectText(k'.name);
    SubjectName(sha, k.name);
    SubjectName(sha, k'.name);
    if f == g { SubjectTextInjective(k.name, k'.name); }
    if |f| >= 64 && |g| >= 64 { ShortenCollides(sha, f, g); }
    else if |f| >= 64 { UncutDiffersFromCut(sha, k'.name, f); }
    else if |g| >= 64 { UncutDiffersFromCut(sha, k.name, g); }
  }

  /** So a cluster that is gone is in no binding, unless a finalization has missed it there, or the cut confuses it with a
      cluster of its namespace that is still there. */
  lemma GoneMeansUnbound(sha: Sha256, s: Lifecycle.State, run: seq<Leaks.Event>, k: Lifecycle.Key, role: Lifecycle.Role)
    requires Leaks.Initial(s) && k.name != ""
    ensures var subjectOf := (j: Lifecycle.Key) => SubjectOf(sha, j);
      var t := Leaks.After(s, run, subjectOf);
      && !Lifecycle.HasFinalizer(t, k) && (forall j :: j in t.clusters ==> j.name != "")
      && Leaks.CaughtUpRun(s, run, subjectOf, role, SubjectOf(sha, k)) && Leaks.Bound(t, role, SubjectOf(sha, k)) ==>
        exists j :: Lifecycle.HasFinalizer(t, j) && j.namespace == k.namespace && j != k
                    && Confused(sha, SubjectText(j.name), SubjectText(k.name))
  {
    var subjectOf := (j: Lifecycle.Key) => SubjectOf(sha, j);
    var t := Leaks.After(s, run, subjectOf);
    if && !Lifecycle.HasFinalizer(t, k) && (forall j :: j in t.clusters ==> j.name != "")
       && Leaks.CaughtUpRun(s, run, subjectOf, role, SubjectOf(sha, k)) && Leaks.Bound(t, role, SubjectOf(sha, k))
    {
      Leaks.GoneMeansReleased(s, run, subjectOf, k, role);
      var j :| j != k && Lifecycle.HasFinalizer(t, j) && subjectOf(j) == subjectOf(k);
      SubjectsCollide(sha, j, k);
    }
  }
}
