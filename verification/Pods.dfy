/** The host pods of a virtual cluster's pods: created by one of several agents, updated from the virtual pods, and
    listed by the agent that created them. */
module Pods {
  import opened Basics
  import opened Text
  import opened Names
  import opened Metadata

  predicate Managed(key: string) {
    HasPrefix(key, PREFIX)
  }

  /** All of the source, with the managed entries that the host object has already. */
  function Merged(dst: Table, src: Table): Table {
    map k | k in src.Keys + dst.Keys && (k in src || Managed(k)) :: if k in dst && Managed(k) then dst[k] else src[k]
  }

  method MergeManagedMetadata(dst: Table, src: Table) returns (merged: Table)
    ensures merged == Merged(dst, src)
  {
    merged := src;
    var todo := dst.Keys;
    while todo != {}
      invariant todo <= dst.Keys
      invariant forall k :: k in merged <==> k in src || (k in dst && k !in todo && Managed(k))
      invariant forall k :: k in merged ==> merged[k] == if k in dst && k !in todo && Managed(k) then dst[k] else src[k]
      decreases todo
    {
      var k :| k in todo;
      if Managed(k) { merged := merged[k := dst[k]]; }
      todo := todo - {k};
    }
  }

  /** The merged table, key by key: below the prefix what the host object has already counts first, and only the source's
      entries count otherwise. */
  ghost predicate Blends(dst: Table, src: Table, merged: Table) {
    forall k :: Value(merged, k) == if HasPrefix(k, "k3k.io/") && k in dst then Some(dst[k]) else Value(src, k)
  }

  function Value(t: Table, k: string): Option<GoString> {
    if k in t then Some(t[k]) else None
  }

  lemma MergedBlends(dst: Table, src: Table)
    ensures Blends(dst, src, Merged(dst, src))
  {
  }

  /** The host pod that an agent creates. */
  function Created(t: Translator, agent: GoString, pod: Meta): Meta {
    var h := t.To(pod);
    h.(labels := h.labels[AGENT_LABEL := agent], owners := [t.cluster])
  }

  function Updated(host: Meta, pod: Meta): Meta {
    host.(labels := Merged(host.labels, pod.labels), annotations := Merged(host.annotations, pod.annotations))
  }

  /** The host pod after its creation from the first source and an update from each of the others. */
  function HostPod(t: Translator, agent: GoString, sources: seq<Meta>): Meta
    requires sources != []
  {
    var last := |sources| - 1;
    if last == 0 then Created(t, agent, sources[0]) else Updated(HostPod(t, agent, sources[..last]), sources[last])
  }

  // ---------------------------------------------------------------------------------------------
  // The identity of a pod
  // ---------------------------------------------------------------------------------------------

  /** What tells whose pod this is. */
  predicate Tracked(t: Translator, agent: GoString, origin: Meta, h: Meta) {
    && CLUSTER_LABEL in h.labels && h.labels[CLUSTER_LABEL] == t.cluster
    && AGENT_LABEL in h.labels && h.labels[AGENT_LABEL] == agent
    && NAME_ANNOTATION in h.annotations && h.annotations[NAME_ANNOTATION] == origin.name
    && NAMESPACE_ANNOTATION in h.annotations && h.annotations[NAMESPACE_ANNOTATION] == origin.namespace
  }

  /** Where the pod is, and that the Cluster owns it. */
  predicate Placed(t: Translator, origin: Meta, h: Meta) {
    && h.namespace == t.clusterNamespace && h.name == t.hostName(origin.namespace, origin.name)
    && h.owners == [t.cluster] && h.finalizers == []
  }

  lemma {:induction false} TrackedForever(t: Translator, agent: GoString, sources: seq<Meta>)
    requires sources != []
    ensures Tracked(t, agent, sources[0], HostPod(t, agent, sources)) && Placed(t, sources[0], HostPod(t, agent, sources))
  {
    TrackingKeysDiffer();
    var last := |sources| - 1;
    if last > 0 { TrackedForever(t, agent, sources[..last]); }
  }

  /** However its labels and annotations are updated, and from whatever source: the pod translates back to the virtual
      pod that it was created from. */
  lemma IdentitySurvives(t: Translator, agent: GoString, sources: seq<Meta>)
    requires sources != []
    ensures From(HostPod(t, agent, sources)).name == sources[0].name
    ensures From(HostPod(t, agent, sources)).namespace == sources[0].namespace
  {
    TrackedForever(t, agent, sources);
  }

  /** Metadata of its own is always that of the last source. */
  lemma UnmanagedIsLast(t: Translator, agent: GoString, sources: seq<Meta>, k: string)
    requires sources != [] && !Managed(k)
    ensures var h, last := HostPod(t, agent, sources), sources[|sources| - 1];
      && (k in h.labels <==> k in last.labels) && (k in h.labels ==> h.labels[k] == last.labels[k])
      && (k in h.annotations <==> k in last.annotations) && (k in h.annotations ==> h.annotations[k] == last.annotations[k])
  {
  }

  /** The first table that has the key decides. */
  function First(tables: seq<Table>, k: string): Option<GoString> {
    if tables == [] then None
    else if k in tables[0] then Some(tables[0][k])
    else First(tables[1..], k)
  }

  lemma {:induction false} FirstOfLonger(tables: seq<Table>, last: Table, k: string)
    ensures First(tables + [last], k) ==
      if First(tables, k).Some? then First(tables, k) else if k in last then Some(last[k]) else None
  {
    if tables == [] {
      assert (tables + [last])[1..] == [];
    } else {
      assert (tables + [last])[1..] == tables[1..] + [last];
      FirstOfLonger(tables[1..], last, k);
    }
  }

  function LabelsOf(sources: seq<Meta>): (r: seq<Table>)
    ensures |r| == |sources|
  {
    seq(|sources|, i requires 0 <= i < |sources| => sources[i].labels)
  }

  function AnnotationsOf(sources: seq<Meta>): (r: seq<Table>)
    ensures |r| == |sources|
  {
    seq(|sources|, i requires 0 <= i < |sources| => sources[i].annotations)
  }

  /** A managed key that the tracking does not use is written once: by the first source that has it. Later sources
      neither change nor remove it. */
  lemma ManagedIsFirst(t: Translator, agent: GoString, sources: seq<Meta>, k: string)
    requires sources != [] && Managed(k)
    ensures k !in {CLUSTER_LABEL, AGENT_LABEL} ==>
      Value(HostPod(t, agent, sources).labels, k) == First(LabelsOf(sources), k)
    ensures k !in {NAME_ANNOTATION, NAMESPACE_ANNOTATION} ==>
      Value(HostPod(t, agent, sources).annotations, k) == First(AnnotationsOf(sources), k)
  {
    if k != CLUSTER_LABEL && k != AGENT_LABEL { ManagedLabelIsFirst(t, agent, sources, k); }
    if k != NAME_ANNOTATION && k != NAMESPACE_ANNOTATION { ManagedAnnotationIsFirst(t, agent, sources, k); }
  }

  lemma {:induction false} ManagedLabelIsFirst(t: Translator, agent: GoString, sources: seq<Meta>, k: string)
    requires sources != [] && Managed(k) && k != CLUSTER_LABEL && k != AGENT_LABEL
    ensures Value(HostPod(t, agent, sources).labels, k) == First(LabelsOf(sources), k)
    decreases |sources|
  {
    var last := |sources| - 1;
    if last == 0 {
      assert LabelsOf(sources)[1..] == [];
    } else {
      var before := sources[..last];
      ManagedLabelIsFirst(t, agent, before, k);
      FirstOfLonger(LabelsOf(before), sources[last].labels, k);
      assert LabelsOf(sources) == LabelsOf(before) + [sources[last].labels];
    }
  }

  lemma {:induction false} ManagedAnnotationIsFirst(t: Translator, agent: GoString, sources: seq<Meta>, k: string)
    requires sources != [] && Managed(k) && k != NAME_ANNOTATION && k != NAMESPACE_ANNOTATION
    ensures Value(HostPod(t, agent, sources).annotations, k) == First(AnnotationsOf(sources), k)
    decreases |sources|
  {
    var last := |sources| - 1;
    if last == 0 {
      assert AnnotationsOf(sources)[1..] == [];
    } else {
      var before := sources[..last];
      ManagedAnnotationIsFirst(t, agent, before, k);
      FirstOfLonger(AnnotationsOf(before), sources[last].annotations, k);
      assert AnnotationsOf(sources) == AnnotationsOf(before) + [sources[last].annotations];
    }
  }

  // ---------------------------------------------------------------------------------------------
  // Runs of several agents
  // ---------------------------------------------------------------------------------------------

  datatype Op = Create(agent: GoString, pod: Meta) | Update(pod: Meta) | Delete(namespace: GoString, name: GoString)

  type HostPods = map<GoString, Meta>

  function Do(t: Translator, pods: HostPods, op: Op): HostPods {
    match op
    case Create(agent, pod) =>
      var n := t.hostName(pod.namespace, pod.name);
      if n in pods then pods else pods[n := Created(t, agent, pod)]
    case Update(pod) =>
      var n := t.hostName(pod.namespace, pod.name);
      if n in pods then pods[n := Updated(pods[n], pod)] else pods
    case Delete(namespace, name) => pods - {t.hostName(namespace, name)}
  }

  /** Where a host pod comes from: its agent, and the sources it was made and updated from. */
  datatype Origin = Origin(agent: GoString, sources: seq<Meta>)
  type Origins = map<GoString, Origin>

  ghost function Trace(t: Translator, origins: Origins, op: Op): Origins {
    match op
    case Create(agent, pod) =>
      var n := t.hostName(pod.namespace, pod.name);
      if n in origins then origins else origins[n := Origin(agent, [pod])]
    case Update(pod) =>
      var n := t.hostName(pod.namespace, pod.name);
      if n in origins then origins[n := Origin(origins[n].agent, origins[n].sources + [pod])] else origins
    case Delete(namespace, name) => origins - {t.hostName(namespace, name)}
  }

  /** The host pods are what their origins say. */
  ghost predicate Explains(t: Translator, origins: Origins, pods: HostPods) {
    && origins.Keys == pods.Keys
    && forall n :: n in pods ==> origins[n].sources != [] && pods[n] == HostPod(t, origins[n].agent, origins[n].sources)
  }

  lemma DoExplained(t: Translator, origins: Origins, pods: HostPods, op: Op)
    requires Explains(t, origins, pods)
    ensures Explains(t, Trace(t, origins, op), Do(t, pods, op))
  {
    if op.Update? {
      var n := t.hostName(op.pod.namespace, op.pod.name);
      if n in pods {
        var sources := origins[n].sources;
        var longer := sources + [op.pod];
        assert longer[..|sources|] == sources;
      }
    }
  }

  ghost function After(t: Translator, pods: HostPods, ops: seq<Op>): HostPods
    decreases |ops|
  {
    if ops == [] then pods else After(t, Do(t, pods, ops[0]), ops[1..])
  }

  ghost function TraceAll(t: Translator, origins: Origins, ops: seq<Op>): Origins
    decreases |ops|
  {
    if ops == [] then origins else TraceAll(t, Trace(t, origins, ops[0]), ops[1..])
  }

  /** The pods that an agent lists: by the cluster and agent labels. */
  predicate Listed(t: Translator, agent: GoString, h: Meta) {
    Value(h.labels, CLUSTER_LABEL) == Some(t.cluster) && Value(h.labels, AGENT_LABEL) == Some(agent)
  }

  /** Of several clusters in one namespace, no agent lists a pod of another one, even under the same agent name. */
  lemma ClustersListApart(t: Translator, u: Translator, agent: GoString, agent': GoString, sources: seq<Meta>)
    requires sources != []
    ensures Listed(t, agent, HostPod(u, agent', sources)) <==> t.cluster == u.cluster && agent == agent'
  {
    TrackedForever(u, agent', sources);
  }

  /** After any run of any agents: every agent lists exactly the pods that it created itself, and gets them back under
      the names that they have in the virtual cluster. */
  lemma {:induction false} AgentsListTheirOwn(t: Translator, origins: Origins, pods: HostPods, ops: seq<Op>, agent: GoString, n: GoString)
    requires Explains(t, origins, pods)
    ensures var o, p := TraceAll(t, origins, ops), After(t, pods, ops);
      && Explains(t, o, p)
      && (n in p && Listed(t, agent, p[n]) <==> n in o && o[n].agent == agent)
      && (n in p ==> From(p[n]).name == o[n].sources[0].name && From(p[n]).namespace == o[n].sources[0].namespace)
      && (n in p ==> p[n].namespace == t.clusterNamespace && p[n].owners == [t.cluster])
    decreases |ops|
  {
    if ops == [] {
      if n in pods {
        TrackedForever(t, origins[n].agent, origins[n].sources);
        IdentitySurvives(t, origins[n].agent, origins[n].sources);
      }
    } else {
      DoExplained(t, origins, pods, ops[0]);
      AgentsListTheirOwn(t, Trace(t, origins, ops[0]), Do(t, pods, ops[0]), ops[1..], agent, n);
    }
  }

  // ---------------------------------------------------------------------------------------------
  // The provider of one agent
  // ---------------------------------------------------------------------------------------------

  /** The pods of the cluster's namespace in the host cluster, shared by all agents. */
  class HostStore {
    var pods: HostPods

    constructor ()
      ensures pods == map[]
    {
      pods := map[];
    }
  }

  /** All pods but the one of this name are the same. */
  ghost predicate OthersSame(a: HostPods, b: HostPods, n: GoString) {
    forall m :: m != n ==> (m in b <==> m in a) && (m in a ==> b[m] == a[m])
  }

  /** An update changes labels and annotations only, and these as the merge says. */
  ghost predicate Refreshes(before: Meta, source: Meta, after: Meta) {
    && Blends(before.labels, source.labels, after.labels) && Blends(before.annotations, source.annotations, after.annotations)
    && after == before.(labels := after.labels, annotations := after.annotations)
  }

  class Provider {
    const t: Translator
    const agent: GoString
    const host: HostStore

    constructor (t: Translator, agent: GoString, host: HostStore)
      ensures this.t == t && this.agent == agent && this.host == host
    {
      this.t, this.agent, this.host := t, agent, host;
    }

    /** Creates the host pod of a virtual pod; the API server refuses a second one of the same name. `stopped` says that
        an earlier step fails: the cluster or the pod is not found, the scheduler is not allowed, a token is not
        granted, the owner cannot be set. */
    method CreatePod(virtualPod: Meta, stopped: bool, refused: bool) returns (ok: bool)
      modifies host
      ensures ok <==> !stopped && !refused && t.hostName(virtualPod.namespace, virtualPod.name) !in old(host.pods)
      ensures host.pods == if ok then Do(t, old(host.pods), Create(agent, virtualPod)) else old(host.pods)
      ensures var n := t.hostName(virtualPod.namespace, virtualPod.name);
        OthersSame(old(host.pods), host.pods, n) &&
        (ok ==> n in host.pods && Tracked(t, agent, virtualPod, host.pods[n]) && Placed(t, virtualPod, host.pods[n]))
    {
      TrackedForever(t, agent, [virtualPod]);
      var hostPod := new Object(virtualPod);
      hostPod.TranslateTo(t);
      hostPod.labels := hostPod.labels[AGENT_LABEL := agent];
      if stopped { return false; }
      hostPod.owners := [t.cluster];
      ok := !refused && hostPod.name !in host.pods;
      if ok {
        var created := Meta(hostPod.name, hostPod.namespace, hostPod.labels, hostPod.annotations, hostPod.owners,
                            hostPod.finalizers, hostPod.uid, hostPod.resourceVersion);
        host.pods := host.pods[hostPod.name := created];
      }
    }

    /** Updates the host pod, then the virtual pod with the same merge. Either update may be refused; if the second one
        is, the first one stays. */
    method UpdatePod(pod: Meta, virtualPod: Meta, hostRefused: bool, virtualRefused: bool) returns (ok: bool, updated: Meta)
      modifies host
      ensures ok <==> t.hostName(pod.namespace, pod.name) in old(host.pods) && !hostRefused && !virtualRefused
      ensures host.pods == if hostRefused then old(host.pods) else Do(t, old(host.pods), Update(pod))
      ensures updated == if ok then Updated(virtualPod, pod) else virtualPod
      ensures var n := t.hostName(pod.namespace, pod.name);
        OthersSame(old(host.pods), host.pods, n) && (n in host.pods <==> n in old(host.pods)) &&
        (n in old(host.pods) && !hostRefused ==> Refreshes(old(host.pods)[n], pod, host.pods[n]))
      ensures ok ==> Refreshes(virtualPod, pod, updated)
    {
      forall dst, src ensures Blends(dst, src, Merged(dst, src)) { MergedBlends(dst, src); }
      var n := t.hostName(pod.namespace, pod.name);
      ok, updated := n in host.pods, virtualPod;
      if !ok { return; }
      var hostPod := host.pods[n];
      var labels := MergeManagedMetadata(hostPod.labels, pod.labels);
      var annotations := MergeManagedMetadata(hostPod.annotations, pod.annotations);
      if hostRefused { return false, updated; }
      host.pods := host.pods[n := hostPod.(labels := labels, annotations := annotations)];
      labels := MergeManagedMetadata(virtualPod.labels, pod.labels);
      annotations := MergeManagedMetadata(virtualPod.annotations, pod.annotations);
      if virtualRefused { return false, updated; }
      updated := virtualPod.(labels := labels, annotations := annotations);
    }

    method DeletePod(namespace: GoString, name: GoString, refused: bool) returns (ok: bool)
      modifies host
      ensures ok <==> !refused || t.hostName(namespace, name) !in old(host.pods)
      ensures host.pods == if ok then Do(t, old(host.pods), Delete(namespace, name)) else old(host.pods)
      ensures var n := t.hostName(namespace, name); OthersSame(old(host.pods), host.pods, n) && (ok ==> n !in host.pods)
    {
      var n := t.hostName(namespace, name);
      if n !in host.pods { return true; }
      ok := !refused;
      if ok { host.pods := host.pods - {n}; }
    }

    /** The pods of this agent, translated back: one for each listed host pod, in whatever order they are listed. */
    method GetPods() returns (result: seq<Meta>)
      ensures exists names :: OneForEach(t, agent, host.pods, names, result)
    {
      result := [];
      ghost var names: seq<GoString> := [];
      var todo := set n: GoString | n in host.pods && Listed(t, agent, host.pods[n]);
      ghost var listed := todo;
      while todo != {}
        invariant todo <= listed && |result| == |names|
        invariant forall i, j :: 0 <= i < j < |names| ==> names[i] != names[j]
        invariant forall n :: n in names <==> n in listed && n !in todo
        invariant forall i :: 0 <= i < |names| ==> names[i] in host.pods && result[i] == From(host.pods[names[i]])
        decreases todo
      {
        var n :| n in todo;
        var pod := new Object(host.pods[n]);
        pod.TranslateFrom();
        var back := Meta(pod.name, pod.namespace, pod.labels, pod.annotations, pod.owners, pod.finalizers, pod.uid,
                         pod.resourceVersion);
        result, names := result + [back], names + [n];
        todo := todo - {n};
      }
      assert OneForEach(t, agent, host.pods, names, result);
    }
  }

  /** The result has the translation of each listed host pod once, in the order of `names`. */
  ghost predicate OneForEach(t: Translator, agent: GoString, pods: HostPods, names: seq<GoString>, result: seq<Meta>) {
    && (forall i, j :: 0 <= i < j < |names| ==> names[i] != names[j])
    && (forall n :: n in names <==> n in pods && Listed(t, agent, pods[n]))
    && |result| == |names| && forall i :: 0 <= i < |names| ==> names[i] in pods && result[i] == From(pods[names[i]])
  }
}
