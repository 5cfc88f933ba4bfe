/** What VirtualClusterPolicies do to namespaces. Everything is per namespace: each write of the controller moves a
    namespace towards a goal that depends only on its binding and the policies, and no write moves the goal. */
module Policy {
  import opened Basics

  const POLICY_LABEL := "policy.k3k.io/policy-name"
  const ENFORCE := "pod-security.kubernetes.io/enforce"
  const ENFORCE_VERSION := "pod-security.kubernetes.io/enforce-version"
  const WARN := "pod-security.kubernetes.io/warn"
  const WARN_VERSION := "pod-security.kubernetes.io/warn-version"

  /** Specs are opaque text; `applied` stands for the fields that are copied to clusters. */
  datatype Policy = Policy(disableNetworkPolicy: bool, quota: Option<string>, limit: Option<string>, psa: Option<string>,
                           applied: string)

  datatype Kind = NetworkPolicy | ResourceQuota | LimitRange

  /** `managed` is the managed-by label, `policy` the policy-name label ("" when absent). */
  datatype Object = Object(managed: bool, policy: string, spec: string)
  datatype ObjectKey = ObjectKey(kind: Kind, name: string)
  type Objects = map<ObjectKey, Object>

  /** The policy part of a cluster's status. */
  datatype AppliedPolicy = AppliedPolicy(name: string, fields: string)

  datatype Namespace = Namespace(labels: map<string, string>, objects: Objects, clusters: map<string, Option<AppliedPolicy>>)

  /** The policies, the name of a policy's objects, and the spec of the isolating network policy of a namespace. */
  datatype Setting = Setting(policies: map<string, Policy>, nameOf: string -> string, isolation: string -> string)

  /** The policy a namespace is bound to; "" is none. */
  function Binding(ns: Namespace): string {
    if POLICY_LABEL in ns.labels then ns.labels[POLICY_LABEL] else ""
  }

  predicate Governed(st: Setting, ns: Namespace) {
    Binding(ns) != "" && Binding(ns) in st.policies
  }

  /** What the policy wants of one kind in a namespace. */
  function Desired(st: Setting, nsName: string, policy: string, kind: Kind): Option<Object>
    requires policy in st.policies
  {
    var p := st.policies[policy];
    match kind
    case NetworkPolicy =>
      if p.disableNetworkPolicy then None else Some(Object(true, policy, st.isolation(nsName)))
    case ResourceQuota => if p.quota.None? then None else Some(Object(true, policy, p.quota.value))
    case LimitRange => if p.limit.None? then None else Some(Object(true, policy, p.limit.value))
  }

  /** In the policy's own fields: its network policy is there unless it is disabled, its quota and its limit range are there
      exactly if it has them, each under the policy's object name, with what the policy says, managed, and labelled. */
  predicate Holds(st: Setting, nsName: string, policy: string, kind: Kind, objects: Objects)
    requires policy in st.policies
  {
    var p, key := st.policies[policy], ObjectKey(kind, st.nameOf(policy));
    match kind
    case NetworkPolicy => if p.disableNetworkPolicy then key !in objects else Has(objects, key, policy, st.isolation(nsName))
    case ResourceQuota => if p.quota.None? then key !in objects else Has(objects, key, policy, p.quota.value)
    case LimitRange => if p.limit.None? then key !in objects else Has(objects, key, policy, p.limit.value)
  }

  predicate Has(objects: Objects, key: ObjectKey, policy: string, spec: string) {
    key in objects && objects[key].managed && objects[key].policy == policy && objects[key].spec == spec
  }

  lemma HoldsExactly(st: Setting, nsName: string, policy: string, kind: Kind, objects: Objects)
    requires policy in st.policies
    ensures Holds(st, nsName, policy, kind, objects) <==>
      var key, d := ObjectKey(kind, st.nameOf(policy)), Desired(st, nsName, policy, kind);
      if d.None? then key !in objects else key in objects && objects[key] == d.value
  {
  }

  /** Creates or overwrites the object of this name, or deletes it, whoever made it. */
  function Put(objects: Objects, key: ObjectKey, desired: Option<Object>): Objects {
    if desired.Some? then objects[key := desired.value] else objects - {key}
  }

  function PodSecurity(labels: map<string, string>, psa: Option<string>): map<string, string> {
    var clean := labels - {ENFORCE, ENFORCE_VERSION, WARN, WARN_VERSION};
    if psa.None? then clean
    else
      var enforced := clean[ENFORCE := psa.value][ENFORCE_VERSION := "latest"];
      if psa.value == "privileged" then enforced else enforced[WARN := psa.value][WARN_VERSION := "latest"]
  }

  /** Managed, and not by the policy that the namespace is bound to. */
  predicate Foreign(o: Object, binding: string) {
    o.managed && (binding == "" || o.policy != binding)
  }

  function Swept(objects: Objects, binding: string, kind: Kind): Objects {
    map key | key in objects && !(key.kind == kind && Foreign(objects[key], binding)) :: objects[key]
  }

  function WithPolicy(clusters: map<string, Option<AppliedPolicy>>, a: Option<AppliedPolicy>): map<string, Option<AppliedPolicy>> {
    map c | c in clusters :: a
  }

  function AppliedOf(st: Setting, policy: string): AppliedPolicy
    requires policy in st.policies
  {
    AppliedPolicy(policy, st.policies[policy].applied)
  }

  // ---------------------------------------------------------------------------------------------
  // Single writes
  // ---------------------------------------------------------------------------------------------

  /** One write to a namespace or to one of its clusters. */
  datatype Write = PutObject(kind: Kind) | SetCluster(cluster: string) | ClearCluster(cluster: string) | SetLabels | Sweep(kind: Kind)

  /** The writes the controller makes: the first two and the labels for the policy that the namespace is bound to,
      clearing only when there is no such policy. */
  predicate Made(st: Setting, ns: Namespace, w: Write) {
    match w
    case PutObject(_) => Governed(st, ns)
    case SetCluster(c) => Governed(st, ns) && c in ns.clusters
    case ClearCluster(c) => !Governed(st, ns) && c in ns.clusters
    case SetLabels => Governed(st, ns)
    case Sweep(_) => true
  }

  function Written(st: Setting, nsName: string, ns: Namespace, w: Write): Namespace
    requires Made(st, ns, w)
  {
    var b := Binding(ns);
    match w
    case PutObject(kind) =>
      ns.(objects := Put(ns.objects, ObjectKey(kind, st.nameOf(b)), Desired(st, nsName, b, kind)))
    case SetCluster(c) => ns.(clusters := ns.clusters[c := Some(AppliedOf(st, b))])
    case ClearCluster(c) => ns.(clusters := ns.clusters[c := None])
    case SetLabels => ns.(labels := PodSecurity(ns.labels, st.policies[b].psa))
    case Sweep(kind) => ns.(objects := Swept(ns.objects, b, kind))
  }

  // ---------------------------------------------------------------------------------------------
  // The goal
  // ---------------------------------------------------------------------------------------------

  function SweptAll(objects: Objects, binding: string): Objects {
    map key | key in objects && !Foreign(objects[key], binding) :: objects[key]
  }

  function PutAll(st: Setting, nsName: string, objects: Objects, policy: string): Objects
    requires policy in st.policies
  {
    Put(Put(Put(objects, ObjectKey(NetworkPolicy, st.nameOf(policy)), Desired(st, nsName, policy, NetworkPolicy)),
            ObjectKey(ResourceQuota, st.nameOf(policy)), Desired(st, nsName, policy, ResourceQuota)),
        ObjectKey(LimitRange, st.nameOf(policy)), Desired(st, nsName, policy, LimitRange))
  }

  function Goal(st: Setting, nsName: string, ns: Namespace): Namespace {
    var b := Binding(ns);
    if Governed(st, ns) then
      Namespace(PodSecurity(ns.labels, st.policies[b].psa),
                PutAll(st, nsName, SweptAll(ns.objects, b), b),
                WithPolicy(ns.clusters, Some(AppliedOf(st, b))))
    else
      Namespace(ns.labels, SweptAll(ns.objects, b), WithPolicy(ns.clusters, None))
  }

  lemma PodSecurityKeepsBinding(ns: Namespace, psa: Option<string>)
    ensures Binding(ns.(labels := PodSecurity(ns.labels, psa))) == Binding(ns)
    ensures PodSecurity(PodSecurity(ns.labels, psa), psa) == PodSecurity(ns.labels, psa)
  {
  }

  /** No write moves the goal. */
  lemma WriteKeepsGoal(st: Setting, nsName: string, ns: Namespace, w: Write)
    requires Made(st, ns, w)
    ensures Goal(st, nsName, Written(st, nsName, ns, w)) == Goal(st, nsName, ns)
    ensures Binding(Written(st, nsName, ns, w)) == Binding(ns)
  {
    var b, t := Binding(ns), Written(st, nsName, ns, w);
    match w
    case PutObject(kind) =>
      PutThenGoal(st, nsName, ns.objects, b, kind);
    case SetCluster(c) =>
      assert WithPolicy(t.clusters, Some(AppliedOf(st, b))) == WithPolicy(ns.clusters, Some(AppliedOf(st, b)));
    case ClearCluster(c) =>
      assert WithPolicy(t.clusters, None) == WithPolicy(ns.clusters, None);
    case SetLabels =>
      PodSecurityKeepsBinding(ns, st.policies[b].psa);
    case Sweep(kind) =>
      assert SweptAll(t.objects, b) == SweptAll(ns.objects, b);
  }

  lemma PutThenGoal(st: Setting, nsName: string, objects: Objects, b: string, kind: Kind)
    requires b in st.policies && b != ""
    ensures PutAll(st, nsName, SweptAll(Put(objects, ObjectKey(kind, st.nameOf(b)), Desired(st, nsName, b, kind)), b), b)
         == PutAll(st, nsName, SweptAll(objects, b), b)
  {
    var key, d := ObjectKey(kind, st.nameOf(b)), Desired(st, nsName, b, kind);
    assert SweptAll(Put(objects, key, d), b) == Put(SweptAll(objects, b), key, d);
    PutAllCovers(st, nsName, SweptAll(objects, b), b, kind);
  }

  lemma PutAllCovers(st: Setting, nsName: string, objects: Objects, b: string, kind: Kind)
    requires b in st.policies
    ensures PutAll(st, nsName, Put(objects, ObjectKey(kind, st.nameOf(b)), Desired(st, nsName, b, kind)), b)
         == PutAll(st, nsName, objects, b)
  {
    var k0, k1, k2 := ObjectKey(NetworkPolicy, st.nameOf(b)), ObjectKey(ResourceQuota, st.nameOf(b)), ObjectKey(LimitRange, st.nameOf(b));
    var d0, d1, d2 := Desired(st, nsName, b, NetworkPolicy), Desired(st, nsName, b, ResourceQuota), Desired(st, nsName, b, LimitRange);
    match kind
    case NetworkPolicy => PutAbsorbs(objects, k0, d0, k0, d0);
    case ResourceQuota => PutAbsorbs(objects, k1, d1, k0, d0);
    case LimitRange =>
      PutAbsorbs(objects, k2, d2, k0, d0);
      PutAbsorbs(Put(objects, k0, d0), k2, d2, k1, d1);
  }

  /** Two puts commute, or the second one repeats the first. */
  lemma PutAbsorbs(objects: Objects, k: ObjectKey, d: Option<Object>, l: ObjectKey, e: Option<Object>)
    requires k == l ==> d == e
    ensures Put(Put(objects, k, d), l, e) == Put(Put(objects, l, e), k, d)
    ensures Put(Put(objects, k, d), k, d) == Put(objects, k, d)
  {
  }

  /** Managed objects have the name that their policy's objects have. */
  ghost predicate Tidy(st: Setting, objects: Objects) {
    forall key :: key in objects && objects[key].managed ==> key.name == st.nameOf(objects[key].policy)
  }

  /** From `a` to `b` everything that was as the goal wants it has stayed: the objects, the labels, and each cluster. */
  ghost predicate Keeps(st: Setting, nsName: string, a: Namespace, b: Namespace) {
    && b.clusters.Keys == a.clusters.Keys
    && (Goal(st, nsName, a).objects == a.objects ==> b.objects == a.objects)
    && (Goal(st, nsName, a).labels == a.labels ==> b.labels == a.labels)
    && (forall c :: c in a.clusters && Goal(st, nsName, a).clusters[c] == a.clusters[c] ==> b.clusters[c] == a.clusters[c])
    && (Tidy(st, a.objects) ==> Tidy(st, b.objects))
  }

  /** Whatever is written, what is as the goal wants it stays. */
  lemma WriteKeepsSettled(st: Setting, nsName: string, ns: Namespace, w: Write)
    requires Made(st, ns, w)
    ensures Keeps(st, nsName, ns, Written(st, nsName, ns, w))
  {
    var b := Binding(ns);
    match w
    case PutObject(kind) =>
      if Goal(st, nsName, ns).objects == ns.objects { PutIsIdle(st, nsName, ns, kind); }
    case SetCluster(c) =>
    case ClearCluster(c) =>
    case SetLabels =>
    case Sweep(kind) =>
      if Goal(st, nsName, ns).objects == ns.objects {
        SettledHasNothingForeign(st, nsName, ns);
        assert Swept(ns.objects, b, kind) == ns.objects;
      }
  }

  lemma PutIsIdle(st: Setting, nsName: string, ns: Namespace, kind: Kind)
    requires Governed(st, ns) && Goal(st, nsName, ns).objects == ns.objects
    ensures Put(ns.objects, ObjectKey(kind, st.nameOf(Binding(ns))), Desired(st, nsName, Binding(ns), kind)) == ns.objects
  {
  }

  lemma SettledHasNothingForeign(st: Setting, nsName: string, ns: Namespace)
    requires Goal(st, nsName, ns).objects == ns.objects
    ensures forall key :: key in ns.objects ==> !Foreign(ns.objects[key], Binding(ns))
  {
  }
}
