/** The metadata of an object on its way from a virtual cluster to the host cluster and back. */
module Metadata {
  import opened Text
  import opened Names

  type GoString = s: string | IsGoString(s) witness ""

  const PREFIX := "k3k.io/"
  const CLUSTER_LABEL := PREFIX + "clusterName"
  const AGENT_LABEL := PREFIX + "agentName"
  const NAME_ANNOTATION := PREFIX + "name"
  const NAMESPACE_ANNOTATION := PREFIX + "namespace"

  type Table = map<string, GoString>

  datatype Meta = Meta(name: GoString, namespace: GoString, labels: Table, annotations: Table,
                       owners: seq<string>, finalizers: seq<string>, uid: string, resourceVersion: string)

  /** One virtual cluster's translator. The host name is a function of namespace and name. */
  datatype Translator = Translator(hostName: (GoString, GoString) -> GoString, cluster: GoString, clusterNamespace: GoString) {
    /** The object as the host cluster gets it. */
    function To(m: Meta): Meta {
      Meta(hostName(m.namespace, m.name), clusterNamespace, m.labels[CLUSTER_LABEL := cluster],
           m.annotations[NAME_ANNOTATION := m.name][NAMESPACE_ANNOTATION := m.namespace], [], [], "", "")
    }
  }

  /** The translator that is used: its host names are those of Names. */
  function TranslatorOf(sha: Sha256, cluster: GoString, clusterNamespace: GoString): Translator {
    Translator((namespace: GoString, name: GoString) => HostName(sha, cluster, namespace, name), cluster, clusterNamespace)
  }

  function HostName(sha: Sha256, cluster: GoString, namespace: GoString, name: GoString): (n: GoString) {
    var v := VirtualName(namespace, name, cluster);
    JoinIsGo(v.Parts(), "-");
    ConcatIsGo(sha, [Join(v.Parts(), "-"), Hex(NameKey(v))]);
    TranslateName(sha, v)
  }

  /** The host name is the translated name of this object in this cluster. */
  lemma HostNameIsTranslated(sha: Sha256, cluster: GoString, clusterNamespace: GoString, namespace: GoString, name: GoString)
    ensures var t, v := TranslatorOf(sha, cluster, clusterNamespace), VirtualName(namespace := namespace, name := name, cluster := cluster);
      && v.IsGo() && t.hostName(namespace, name) == TranslateName(sha, v)
      && t.cluster == cluster && t.clusterNamespace == clusterNamespace
  {
  }

  function Entry(t: Table, key: string): GoString {
    if key in t then t[key] else ""
  }

  /** The object as the virtual cluster gets it back. */
  function From(m: Meta): Meta {
    m.(name := Entry(m.annotations, NAME_ANNOTATION), namespace := Entry(m.annotations, NAMESPACE_ANNOTATION),
       annotations := m.annotations - {NAME_ANNOTATION, NAMESPACE_ANNOTATION}, labels := m.labels - {CLUSTER_LABEL},
       owners := [], uid := "", resourceVersion := "")
  }

  lemma {:induction false} ConcatIsGo(sha: Sha256, names: seq<string>)
    requires forall n :: n in names ==> IsGoString(n)
    ensures IsGoString(SafeConcatName(sha, names))
  {
    DropEmptyIsGo(names);
    JoinIsGo(DropEmpty(names), "-");
    var full := Join(DropEmpty(names), "-");
    assert forall c :: HexChar(c) ==> c as int < 256;
  }

  lemma {:induction false} DropEmptyIsGo(names: seq<string>)
    ensures forall n :: n in DropEmpty(names) ==> n in names
  {
    if names != [] { DropEmptyIsGo(names[1..]); }
  }

  lemma TrackingKeysDiffer()
    ensures NAME_ANNOTATION != NAMESPACE_ANNOTATION && CLUSTER_LABEL != AGENT_LABEL
    ensures HasPrefix(NAME_ANNOTATION, PREFIX) && HasPrefix(NAMESPACE_ANNOTATION, PREFIX)
    ensures HasPrefix(CLUSTER_LABEL, PREFIX) && HasPrefix(AGENT_LABEL, PREFIX)
  {
  }

  /** What does not survive the way there: owners, finalizers, and what the API server assigns. */
  function Bare(m: Meta): Meta {
    m.(owners := [], finalizers := [], uid := "", resourceVersion := "")
  }

  /** The tracking keys, as they are written. */
  lemma TrackingKeysAre()
    ensures CLUSTER_LABEL == "k3k.io/clusterName" && AGENT_LABEL == "k3k.io/agentName"
    ensures NAME_ANNOTATION == "k3k.io/name" && NAMESPACE_ANNOTATION == "k3k.io/namespace"
  {
  }

  ghost predicate SameBut(a: Table, b: Table, keys: set<string>) {
    forall k :: k !in keys ==> (k in a <==> k in b) && (k in a ==> a[k] == b[k])
  }

  /** Where an object lands: in the cluster's namespace under its host name, without owners and finalizers, with its own
      labels and annotations, and those that say whose it is. */
  ghost predicate Lands(t: Translator, m: Meta, h: Meta) {
    && h.namespace == t.clusterNamespace && h.name == t.hostName(m.namespace, m.name)
    && h.owners == [] && h.finalizers == [] && h.uid == "" && h.resourceVersion == ""
    && CLUSTER_LABEL in h.labels && h.labels[CLUSTER_LABEL] == t.cluster && SameBut(h.labels, m.labels, {CLUSTER_LABEL})
    && NAME_ANNOTATION in h.annotations && h.annotations[NAME_ANNOTATION] == m.name
    && NAMESPACE_ANNOTATION in h.annotations && h.annotations[NAMESPACE_ANNOTATION] == m.namespace
    && SameBut(h.annotations, m.annotations, {NAME_ANNOTATION, NAMESPACE_ANNOTATION})
  }

  lemma ToLands(t: Translator, m: Meta)
    ensures Lands(t, m, t.To(m))
  {
    TrackingKeysDiffer();
  }

  /** The way back: only what `TranslateFrom` is about changes. */
  lemma FromKeeps(h: Meta)
    ensures var m := From(h);
      && m.name == (if NAME_ANNOTATION in h.annotations then h.annotations[NAME_ANNOTATION] else "")
      && m.namespace == (if NAMESPACE_ANNOTATION in h.annotations then h.annotations[NAMESPACE_ANNOTATION] else "")
      && CLUSTER_LABEL !in m.labels && SameBut(m.labels, h.labels, {CLUSTER_LABEL})
      && NAME_ANNOTATION !in m.annotations && NAMESPACE_ANNOTATION !in m.annotations
      && SameBut(m.annotations, h.annotations, {NAME_ANNOTATION, NAMESPACE_ANNOTATION})
      && m.owners == [] && m.finalizers == h.finalizers && m.uid == "" && m.resourceVersion == ""
  {
  }

  /** Name and namespace always come back; the whole object does exactly when it did not use the tracking keys itself. */
  lemma RoundTrip(t: Translator, m: Meta)
    ensures From(t.To(m)).name == m.name && From(t.To(m)).namespace == m.namespace
    ensures From(t.To(m)) == Bare(m) <==>
      CLUSTER_LABEL !in m.labels && NAME_ANNOTATION !in m.annotations && NAMESPACE_ANNOTATION !in m.annotations
  {
  }

  lemma WithoutBoth(t: Table)
    ensures t - {NAME_ANNOTATION} - {NAMESPACE_ANNOTATION} == t - {NAME_ANNOTATION, NAMESPACE_ANNOTATION}
  {
  }

  /** The object itself, with its metadata updated in place. */
  class Object {
    var name: GoString
    var namespace: GoString
    var labels: Table
    var annotations: Table
    var owners: seq<string>
    var finalizers: seq<string>
    var uid: string
    var resourceVersion: string

    constructor (m: Meta)
      ensures Value() == m
    {
      name, namespace, labels, annotations := m.name, m.namespace, m.labels, m.annotations;
      owners, finalizers, uid, resourceVersion := m.owners, m.finalizers, m.uid, m.resourceVersion;
    }

    ghost function Value(): Meta
      reads this
    {
      Meta(name, namespace, labels, annotations, owners, finalizers, uid, resourceVersion)
    }

    method TranslateTo(t: Translator)
      modifies this
      ensures Value() == t.To(old(Value())) && Lands(t, old(Value()), Value())
    {
      ToLands(t, Value());
      owners := [];
      annotations := annotations[NAME_ANNOTATION := name];
      annotations := annotations[NAMESPACE_ANNOTATION := namespace];
      labels := labels[CLUSTER_LABEL := t.cluster];
      resourceVersion, uid := "", "";
      name := t.hostName(namespace, name);
      namespace, finalizers := t.clusterNamespace, [];
    }

    method TranslateFrom()
      modifies this
      ensures Value() == From(old(Value()))
    {
      TrackingKeysDiffer();
      WithoutBoth(annotations);
      owners := [];
      name, namespace := Entry(annotations, NAME_ANNOTATION), Entry(annotations, NAMESPACE_ANNOTATION);
      annotations := annotations - {NAME_ANNOTATION};
      annotations := annotations - {NAMESPACE_ANNOTATION};
      labels := labels - {CLUSTER_LABEL};
      resourceVersion, uid := "", "";
    }
  }
}
