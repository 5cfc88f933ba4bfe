/** The life of a Cluster as a state machine: one worker per cluster makes API calls one at a time, users create, edit
    and delete clusters in between, and a worker may crash after any call. Reads come from a cache that may lag behind by
    any number of versions but does not go back; writes are compare-and-swap. Everything a cluster holds outside its own
    namespace (a kubelet port, two ClusterRoleBinding subjects) must be given back before the cluster is gone. */
module ClusterLifecycle {
  import opened Basics
  import opened Ports

  datatype KeyText = Key(namespace: string, name: string)
  /** Object names hold no '/'. */
  type Key = k: KeyText | '/' !in k.namespace witness Key("", "")

  datatype Mode = Shared | Virtual | HCP
  datatype Phase = Unset | Unknown | Provisioning | Pending | Failed | Ready | Terminating
  datatype Error = NoError | Validation | ServerNotReady | Other

  /** What the controller keeps in the status: the phase, whether the Ready condition is true, and the port. */
  datatype Status = Status(phase: Phase, ready: bool, port: int)

  /** `held` says that finalizers of other parties are present. */
  datatype Cluster = Cluster(version: nat, deleting: bool, finalizer: bool, held: bool, mode: Mode, mirror: bool,
                             status: Status)

  /** Only these clusters use a port of the pool. */
  predicate Mirrors(c: Cluster) {
    c.mode == Shared && c.mirror
  }

  predicate SameMeta(c: Cluster, d: Cluster) {
    c.deleting == d.deleting && c.finalizer == d.finalizer && c.held == d.held && c.mode == d.mode && c.mirror == d.mirror
  }

  datatype Subject = Subject(name: string, namespace: string)
  /** The two ClusterRoleBindings, in the order in which they are visited. */
  datatype Role = KubeletNode | PriorityClass
  datatype OldBinding = OldBinding(version: nat, subjects: seq<Subject>)
  datatype Binding = Binding(version: nat, subjects: seq<Subject>, older: seq<OldBinding>)
  datatype OldPorts = OldPorts(version: nat, ports: Stored)

  /** Where a worker is between two API calls, with what it last read. */
  datatype Pc =
    | Begin
    | AllocRead | AllocWrite(next: int, ports: Stored, seen: nat)
    | BindRead(role: Role, failed: bool) | BindWrite(role: Role, failed: bool, subjects: seq<Subject>, seen: nat)
    | SaveStatus(error: Error) | SaveSpec
    | UnbindRead(role: Role, failed: bool) | UnbindWrite(role: Role, failed: bool, subjects: seq<Subject>, seen: nat)
    | FreeRead | FreeWrite(ports: Stored, seen: nat)
    | DropLease | RemoveFinalizer

  datatype Worker = Worker(copy: Cluster, orig: Status, at: Pc)

  /** `rv` is the last resource version handed out. The `older` versions are those that the cache may still serve, the
      oldest first; when it has none it is up to date. */
  datatype State = State(rv: nat, clusters: map<Key, Cluster>, older: map<Key, seq<Cluster>>,
                         ports: Stored, portsVersion: nat, olderPorts: seq<OldPorts>,
                         bindings: map<Role, Binding>, workers: map<Key, Worker>)

  /** How a call goes: it may be refused, or be applied with the answer lost; `error` is what other calls run into
      before the next one of interest, `pick` is the port the pool offers, `dirty` says that the spec was defaulted, and
      `back` is how many versions old a read is. */
  datatype Outcome = Outcome(refused: bool, lost: bool, error: Error, pick: int, dirty: bool, back: nat)

  datatype Action =
    | Create(mode: Mode, mirror: bool, held: bool)
    | Delete
    | Edit(newMode: Mode, newMirror: bool, newHeld: bool)
    | Start(age: nat)
    | Call(outcome: Outcome)
    | Crash

  // ---------------------------------------------------------------------------------------------
  // The status
  // ---------------------------------------------------------------------------------------------

  /** The outcome of a reconciliation as phase and Ready condition. */
  function UpdateStatus(c: Cluster, error: Error): (s: Status)
    ensures s.ready <==> s.phase == Ready
    ensures s.phase == Ready <==> error == NoError && !c.deleting
    ensures s.phase == Terminating <==> c.deleting
    ensures s.phase == Pending <==> error == Validation && !c.deleting
    ensures s.phase == Provisioning <==> error == ServerNotReady && !c.deleting
    ensures s.phase == Failed <==> error == Other && !c.deleting
    ensures s.port == c.status.port
  {
    var p :=
      if c.deleting then Terminating
      else match error
        case Validation => Pending
        case ServerNotReady => Provisioning
        case Other => Failed
        case NoError => Ready;
    c.status.(phase := p, ready := p == Ready)
  }

  // ---------------------------------------------------------------------------------------------
  // Writes and reads
  // ---------------------------------------------------------------------------------------------

  /** The older versions that remain after a read of the one that is `back` versions old. */
  function Caught<T>(older: seq<T>, back: nat): seq<T> {
    if back == 0 then [] else if back < |older| then older[|older| - back..] else older
  }

  function Older(s: State, k: Key): seq<Cluster> {
    if k in s.older then s.older[k] else []
  }

  /** The older versions when the present one is superseded. */
  function Aged(s: State, k: Key): map<Key, seq<Cluster>> {
    if k in s.clusters then s.older[k := Older(s, k) + [s.clusters[k]]] else s.older
  }

  function Put(s: State, k: Key, c: Cluster): State {
    s.(rv := s.rv + 1, clusters := s.clusters[k := c.(version := s.rv + 1)], older := Aged(s, k))
  }

  function Remove(s: State, k: Key): State {
    s.(clusters := s.clusters - {k}, older := Aged(s, k))
  }

  function PutPorts(s: State, ports: Stored): State {
    s.(rv := s.rv + 1, ports := ports, portsVersion := s.rv + 1, olderPorts := s.olderPorts + [OldPorts(s.portsVersion, s.ports)])
  }

  function PutBinding(s: State, role: Role, subjects: seq<Subject>): State
    requires role in s.bindings
  {
    var b := s.bindings[role];
    s.(rv := s.rv + 1, bindings := s.bindings[role := Binding(s.rv + 1, subjects, b.older + [OldBinding(b.version, b.subjects)])])
  }

  /** What a read of the port map that is `back` versions old returns. */
  function ServedPorts(s: State, back: nat): OldPorts {
    var rest := Caught(s.olderPorts, back);
    if rest == [] then OldPorts(s.portsVersion, s.ports) else rest[0]
  }

  function ServedBinding(s: State, role: Role, back: nat): OldBinding
    requires role in s.bindings
  {
    var b := s.bindings[role];
    var rest := Caught(b.older, back);
    if rest == [] then OldBinding(b.version, b.subjects) else rest[0]
  }

  /** What a call does to the outside: a read only lets the cache catch up. */
  datatype Touch =
    | Nothing
    | ReadPorts(back: nat) | WritePorts(ports: Stored)
    | ReadBinding(role: Role, back: nat) | WriteBinding(role: Role, subjects: seq<Subject>)
    | WriteCluster(cluster: Cluster) | DropCluster

  /** And how the worker goes on, unless it has ended. */
  datatype Effect = Effect(touch: Touch, next: Option<Worker>)

  function Touched(s: State, k: Key, touch: Touch): State {
    match touch
    case Nothing => s
    case ReadPorts(back) => s.(olderPorts := Caught(s.olderPorts, back))
    case WritePorts(ports) => PutPorts(s, ports)
    case ReadBinding(role, back) =>
      if role !in s.bindings then s
      else s.(bindings := s.bindings[role := s.bindings[role].(older := Caught(s.bindings[role].older, back))])
    case WriteBinding(role, subjects) => if role !in s.bindings then s else PutBinding(s, role, subjects)
    case WriteCluster(c) => Put(s, k, c)
    case DropCluster => Remove(s, k)
  }

  function Stop(s: State, k: Key): State {
    s.(workers := s.workers - {k})
  }

  function Performed(s: State, k: Key, e: Effect): State {
    var t := Touched(s, k, e.touch);
    match e.next
    case None => Stop(t, k)
    case Some(w) => t.(workers := t.workers[k := w])
  }

  function Ends(): Effect {
    Effect(Nothing, None)
  }

  function Goes(w: Worker, at: Pc): Effect {
    Effect(Nothing, Some(w.(at := at)))
  }

  // ---------------------------------------------------------------------------------------------
  // Calls
  // ---------------------------------------------------------------------------------------------

  /** Compare-and-swap on the cluster: the copy must still be current. */
  predicate Current(s: State, k: Key, w: Worker) {
    k in s.clusters && s.clusters[k].version == w.copy.version
  }

  /** An ordinary update writes everything of the copy but the status, which is a subresource. */
  function WithoutStatus(current: Cluster, copy: Cluster): Cluster {
    copy.(status := current.status)
  }

  /** The copy of a cluster that is being finalized. */
  function Terminated(c: Cluster): Cluster {
    c.(status := c.status.(phase := Terminating, ready := false))
  }

  predicate CurrentBinding(s: State, role: Role, seen: nat) {
    role in s.bindings && s.bindings[role].version == seen
  }

  function Without(subjects: seq<Subject>, x: Subject): (r: seq<Subject>)
    ensures forall y :: y in r <==> y in subjects && y != x
  {
    if subjects == [] then []
    else if subjects[0] == x then Without(subjects[1..], x)
    else
      assert forall y :: y in subjects <==> y == subjects[0] || y in subjects[1..];
      [subjects[0]] + Without(subjects[1..], x)
  }

  lemma {:induction false} WithoutKeepsDistinct(subjects: seq<Subject>, x: Subject)
    requires NoDuplicates(subjects)
    ensures NoDuplicates(Without(subjects, x))
  {
    if subjects != [] {
      WithoutKeepsDistinct(subjects[1..], x);
      var rest := Without(subjects[1..], x);
      if subjects[0] != x {
        assert Without(subjects, x) == [subjects[0]] + rest;
        forall i | 0 <= i < |rest| ensures rest[i] != subjects[0] { assert rest[i] in subjects[1..]; }
      }
    }
  }

  predicate NoDuplicates(subjects: seq<Subject>) {
    forall i, j :: 0 <= i < j < |subjects| ==> subjects[i] != subjects[j]
  }

  function PortKeyOf(k: Key): string {
    PortKey(k.namespace, k.name)
  }

  function AtBegin(s: State, k: Key, w: Worker, o: Outcome): Effect {
    if w.copy.deleting then Goes(w.(copy := Terminated(w.copy)), UnbindRead(KubeletNode, false))
    else if w.copy.status.phase == Unset || w.copy.status.phase == Unknown then
      if o.refused || !Current(s, k, w) then Ends()
      else Effect(WriteCluster(s.clusters[k].(status := w.copy.status.(phase := Provisioning, ready := false))), None)
    else if !w.copy.finalizer then
      if o.refused || !Current(s, k, w) then Ends()
      else Effect(WriteCluster(WithoutStatus(s.clusters[k], w.copy.(finalizer := true))), None)
    else if o.error != NoError then Goes(w, SaveStatus(o.error))
    else if Mirrors(w.copy) then Goes(w, AllocRead)
    else Goes(w, BindRead(KubeletNode, false))
  }

  function WithPort(w: Worker, port: int): Worker {
    w.(copy := w.copy.(status := w.copy.status.(port := port)))
  }

  function AtAllocRead(s: State, k: Key, w: Worker, o: Outcome): Effect {
    if o.refused then Goes(w, SaveStatus(Other))
    else
      var read := ServedPorts(s, o.back);
      var next :=
        if PortKeyOf(k) in read.ports.ports then
          WithPort(w, read.ports.ports[PortKeyOf(k)]).(at := BindRead(KubeletNode, false))
        else if read.ports.range.Holds(o.pick) && o.pick !in read.ports.bits then
          w.(at := AllocWrite(o.pick, read.ports, read.version))
        else w.(at := SaveStatus(Other));
      Effect(ReadPorts(o.back), Some(next))
  }

  function AtAllocWrite(s: State, k: Key, w: Worker, o: Outcome): Effect
    requires w.at.AllocWrite?
  {
    if o.refused || s.portsVersion != w.at.seen then Goes(w, SaveStatus(Other))
    else
      var next := if o.lost then w.(at := SaveStatus(Other)) else WithPort(w, w.at.next).(at := BindRead(KubeletNode, false));
      Effect(WritePorts(Applied(w.at.ports, Assign(PortKeyOf(k), w.at.next))), Some(next))
  }

  /** The next binding, also after a failure; the failures count at the end. */
  function NextBind(role: Role, failed: bool, later: Error): Pc {
    if role == KubeletNode then BindRead(PriorityClass, failed)
    else SaveStatus(if failed then Other else later)
  }

  function AtBindRead(s: State, k: Key, w: Worker, o: Outcome, subjectOf: Key -> Subject): Effect
    requires w.at.BindRead?
  {
    var role, failed := w.at.role, w.at.failed;
    if o.error != NoError && role == KubeletNode then Goes(w, SaveStatus(o.error))
    else if o.refused || role !in s.bindings then Goes(w, NextBind(role, true, NoError))
    else
      var read := ServedBinding(s, role, o.back);
      var at := if subjectOf(k) in read.subjects then NextBind(role, failed, o.error) else BindWrite(role, failed, read.subjects, read.version);
      Effect(ReadBinding(role, o.back), Some(w.(at := at)))
  }

  function AtBindWrite(s: State, k: Key, w: Worker, o: Outcome, subjectOf: Key -> Subject): Effect
    requires w.at.BindWrite?
  {
    var role := w.at.role;
    if o.refused || !CurrentBinding(s, role, w.at.seen) then Goes(w, NextBind(role, true, NoError))
    else Effect(WriteBinding(role, w.at.subjects + [subjectOf(k)]), Some(w.(at := NextBind(role, w.at.failed || o.lost, o.error))))
  }

  function AtSaveStatus(s: State, k: Key, w: Worker, o: Outcome): Effect
    requires w.at.SaveStatus?
  {
    var status := UpdateStatus(w.copy, w.at.error);
    if status == w.orig then
      if w.at.error != NoError then Ends() else Goes(w, SaveSpec)
    else if o.refused || !Current(s, k, w) then Ends()
    else
      var next := w.(copy := w.copy.(version := s.rv + 1, status := status), at := SaveSpec);
      Effect(WriteCluster(s.clusters[k].(status := status)), if o.lost || w.at.error != NoError then None else Some(next))
  }

  function AtSaveSpec(s: State, k: Key, w: Worker, o: Outcome): Effect {
    if !o.dirty || o.refused || !Current(s, k, w) then Ends()
    else Effect(WriteCluster(WithoutStatus(s.clusters[k], w.copy)), None)
  }

  /** The next binding, also after a failure; a failure then ends the finalization. */
  function NextUnbind(w: Worker, role: Role, failed: bool): Option<Worker> {
    if role == KubeletNode then Some(w.(at := UnbindRead(PriorityClass, failed)))
    else if failed then None
    else if Mirrors(w.copy) then Some(w.(at := FreeRead))
    else Some(w.(at := DropLease))
  }

  function AtUnbindRead(s: State, k: Key, w: Worker, o: Outcome, subjectOf: Key -> Subject): Effect
    requires w.at.UnbindRead?
  {
    var role, failed := w.at.role, w.at.failed;
    if o.refused || role !in s.bindings then Effect(Nothing, NextUnbind(w, role, true))
    else
      var read := ServedBinding(s, role, o.back);
      var next :=
        if subjectOf(k) !in read.subjects then NextUnbind(w, role, failed)
        else Some(w.(at := UnbindWrite(role, failed, read.subjects, read.version)));
      Effect(ReadBinding(role, o.back), next)
  }

  function AtUnbindWrite(s: State, k: Key, w: Worker, o: Outcome, subjectOf: Key -> Subject): Effect
    requires w.at.UnbindWrite?
  {
    var role := w.at.role;
    if o.refused || !CurrentBinding(s, role, w.at.seen) then Effect(Nothing, NextUnbind(w, role, true))
    else Effect(WriteBinding(role, Without(w.at.subjects, subjectOf(k))), NextUnbind(w, role, w.at.failed || o.lost))
  }

  function AtFreeRead(s: State, k: Key, w: Worker, o: Outcome): Effect {
    if o.refused then Ends()
    else
      var read := ServedPorts(s, o.back);
      var other := PortKeyOf(k) in read.ports.ports && read.ports.ports[PortKeyOf(k)] != w.copy.status.port;
      Effect(ReadPorts(o.back), if other then None else Some(w.(at := FreeWrite(read.ports, read.version))))
  }

  function AtFreeWrite(s: State, k: Key, w: Worker, o: Outcome): Effect
    requires w.at.FreeWrite?
  {
    if o.refused || s.portsVersion != w.at.seen then Ends()
    else Effect(WritePorts(Applied(w.at.ports, Free(PortKeyOf(k)))), if o.lost then None else Some(w.(at := DropLease)))
  }

  function AtDropLease(w: Worker, o: Outcome): Effect {
    if o.refused then Ends() else Goes(w, RemoveFinalizer)
  }

  /** Without the controller's finalizer, and without others, a deleted object is gone. */
  function AtRemoveFinalizer(s: State, k: Key, w: Worker, o: Outcome): Effect {
    if !w.copy.finalizer || o.refused || !Current(s, k, w) then Ends()
    else if w.copy.held then Effect(WriteCluster(WithoutStatus(s.clusters[k], w.copy.(finalizer := false))), None)
    else Effect(DropCluster, None)
  }

  function EffectOf(s: State, k: Key, w: Worker, o: Outcome, subjectOf: Key -> Subject): Effect {
    match w.at
    case Begin => AtBegin(s, k, w, o)
    case AllocRead => AtAllocRead(s, k, w, o)
    case AllocWrite(_, _, _) => AtAllocWrite(s, k, w, o)
    case BindRead(_, _) => AtBindRead(s, k, w, o, subjectOf)
    case BindWrite(_, _, _, _) => AtBindWrite(s, k, w, o, subjectOf)
    case SaveStatus(_) => AtSaveStatus(s, k, w, o)
    case SaveSpec => AtSaveSpec(s, k, w, o)
    case UnbindRead(_, _) => AtUnbindRead(s, k, w, o, subjectOf)
    case UnbindWrite(_, _, _, _) => AtUnbindWrite(s, k, w, o, subjectOf)
    case FreeRead => AtFreeRead(s, k, w, o)
    case FreeWrite(_, _) => AtFreeWrite(s, k, w, o)
    case DropLease => AtDropLease(w, o)
    case RemoveFinalizer => AtRemoveFinalizer(s, k, w, o)
  }

  // ---------------------------------------------------------------------------------------------
  // Steps
  // ---------------------------------------------------------------------------------------------

  function Called(s: State, k: Key, o: Outcome, subjectOf: Key -> Subject): State {
    if k !in s.workers then s else Performed(s, k, EffectOf(s, k, s.workers[k], o, subjectOf))
  }

  /** A reconciliation begins with a version of the cluster that the cache serves. */
  function Started(s: State, k: Key, age: nat): State {
    var rest := Caught(Older(s, k), age);
    if k in s.workers || (rest == [] && k !in s.clusters) then s
    else
      var c := if rest == [] then s.clusters[k] else rest[0];
      s.(older := s.older[k := rest], workers := s.workers[k := Worker(c, c.status, Begin)])
  }

  function Created(s: State, k: Key, mode: Mode, mirror: bool, held: bool): State {
    if k in s.clusters then s
    else Put(s, k, Cluster(0, false, false, held, mode, mirror, Status(Unset, false, 0)))
  }

  function Deleted(s: State, k: Key): State {
    if k !in s.clusters then s
    else if s.clusters[k].finalizer || s.clusters[k].held then Put(s, k, s.clusters[k].(deleting := true))
    else Remove(s, k)
  }

  /** An edit by anybody else; it leaves the controller's finalizer alone. */
  function Edited(s: State, k: Key, mode: Mode, mirror: bool, held: bool): State {
    if k !in s.clusters then s
    else if s.clusters[k].deleting && !s.clusters[k].finalizer && !held then Remove(s, k)
    else Put(s, k, s.clusters[k].(mode := mode, mirror := mirror, held := held))
  }

  function Next(s: State, k: Key, a: Action, subjectOf: Key -> Subject): State {
    match a
    case Create(mode, mirror, held) => Created(s, k, mode, mirror, held)
    case Delete => Deleted(s, k)
    case Edit(mode, mirror, held) => Edited(s, k, mode, mirror, held)
    case Start(age) => Started(s, k, age)
    case Call(o) => Called(s, k, o, subjectOf)
    case Crash => Stop(s, k)
  }

  // ---------------------------------------------------------------------------------------------
  // The invariant
  // ---------------------------------------------------------------------------------------------

  predicate HasFinalizer(s: State, k: Key) {
    k in s.clusters && s.clusters[k].finalizer
  }

  predicate Provisions(at: Pc) {
    at.AllocRead? || at.AllocWrite? || at.BindRead? || at.BindWrite? || at.SaveStatus? || at.SaveSpec?
  }

  predicate Finalizes(at: Pc) {
    at.UnbindRead? || at.UnbindWrite? || at.FreeRead? || at.FreeWrite? || PastFree(at)
  }

  predicate PastFree(at: Pc) {
    at.DropLease? || at.RemoveFinalizer?
  }

  /** With the finalizer, and not yet being deleted. */
  predicate Live(c: Cluster) {
    c.finalizer && !c.deleting
  }

  /** The versions of a cluster that can still be read: a live one can be read only while the cluster has the finalizer,
      and none is live after one that is being deleted. */
  predicate CacheOk(s: State, k: Key) {
    && (forall c :: c in Older(s, k) ==>
          && c.version <= s.rv && (k in s.clusters ==> c.version < s.clusters[k].version)
          && (Live(c) ==> HasFinalizer(s, k)) && (c.deleting && HasFinalizer(s, k) ==> s.clusters[k].deleting))
    && (forall i, j :: 0 <= i < j < |Older(s, k)| && Older(s, k)[i].deleting ==> !Live(Older(s, k)[j]))
  }

  /** A current copy says the same as the cluster. From a copy on that is being deleted, no live version is to be read. */
  predicate CopyOk(s: State, k: Key, w: Worker) {
    && w.copy.version <= s.rv
    && (Current(s, k, w) ==> SameMeta(w.copy, s.clusters[k]) && (Provisions(w.at) || Older(s, k) == []))
    && (Live(w.copy) ==> HasFinalizer(s, k))
    && (w.copy.deleting ==> (forall c :: c in Older(s, k) ==> !Live(c)) && (HasFinalizer(s, k) ==> s.clusters[k].deleting))
    && (Provisions(w.at) ==> Live(w.copy)) && (Finalizes(w.at) ==> w.copy.deleting)
  }

  /** What was read before a write is what is there, if its version still is the current one. */
  ghost predicate PlaceOk(s: State, k: Key, w: Worker, subjectOf: Key -> Subject) {
    && (PastFree(w.at) && Mirrors(w.copy) ==> PortKeyOf(k) !in s.ports.ports)
    && match w.at
       case AllocWrite(next, ports, seen) =>
         seen <= s.rv && (seen == s.portsVersion ==> ports == s.ports && Enabled(ports, Assign(PortKeyOf(k), next)))
       case BindWrite(role, _, subjects, seen) =>
         seen <= s.rv && subjectOf(k) !in subjects && (CurrentBinding(s, role, seen) ==> subjects == s.bindings[role].subjects)
       case UnbindWrite(role, _, subjects, seen) =>
         seen <= s.rv && (CurrentBinding(s, role, seen) ==> subjects == s.bindings[role].subjects)
       case FreeWrite(ports, seen) => seen <= s.rv && (seen == s.portsVersion ==> ports == s.ports)
       case _ => true
  }

  ghost predicate WorkerOk(s: State, k: Key, w: Worker, subjectOf: Key -> Subject) {
    CopyOk(s, k, w) && PlaceOk(s, k, w, subjectOf)
  }

  ghost predicate BindingOk(s: State, role: Role)
    requires role in s.bindings
  {
    && s.bindings[role].version <= s.rv && NoDuplicates(s.bindings[role].subjects)
    && forall b :: b in s.bindings[role].older ==> b.version < s.bindings[role].version
  }

  ghost predicate PortsOk(s: State) {
    && s.portsVersion <= s.rv && Consistent(s.ports)
    && (forall p :: p in s.olderPorts ==> p.version < s.portsVersion)
    && (forall key {:trigger key in s.ports.ports} :: key in s.ports.ports ==> exists k: Key :: PortKeyOf(k) == key)
  }

  ghost predicate Inv(s: State, subjectOf: Key -> Subject) {
    && PortsOk(s)
    && (forall role {:trigger BindingOk(s, role)} :: role in s.bindings ==> BindingOk(s, role))
    && (forall k :: k in s.clusters ==> s.clusters[k].version <= s.rv)
    && (forall k {:trigger CacheOk(s, k)} :: CacheOk(s, k))
    && (forall k {:trigger WorkerOk(s, k, s.workers[k], subjectOf)} :: k in s.workers ==> WorkerOk(s, k, s.workers[k], subjectOf))
  }

  // ---------------------------------------------------------------------------------------------
  // What a call may do
  // ---------------------------------------------------------------------------------------------

  /** The Ready condition is true exactly in the Ready phase. A verdict on the cluster is only given once it has the
      finalizer. The Terminating phase is never stored: every finalization has it on its copy, but only updates that do
      not write the status follow. */
  predicate StatusOk(c: Cluster) {
    && (c.status.ready <==> c.status.phase == Ready)
    && (c.status.phase.Pending? || c.status.phase.Failed? || c.status.phase.Ready? ==> c.finalizer || c.deleting)
    && !c.status.phase.Terminating?
  }

  predicate ShowsDeletion(w: Worker) {
    Finalizes(w.at) ==> w.copy.status.phase.Terminating?
  }

  /** An update changes neither whether the cluster is being deleted nor whether it mirrors; the finalizer is added at the
      beginning and removed at the end. */
  predicate UpdateOk(c: Cluster, d: Cluster, at: Pc) {
    && d.deleting == c.deleting && Mirrors(d) == Mirrors(c) && (StatusOk(c) ==> StatusOk(d))
    && (if at.RemoveFinalizer? then c.finalizer && !d.finalizer else d.finalizer == c.finalizer || (d.finalizer && !c.deleting && at.Begin?))
  }

  /** A call writes only what it should, and on top of what is there. */
  ghost predicate TouchOk(s: State, k: Key, w: Worker, touch: Touch, subjectOf: Key -> Subject) {
    match touch
    case WritePorts(ports) =>
      var key := PortKeyOf(k);
      if w.at.AllocWrite? then Enabled(s.ports, Assign(key, w.at.next)) && ports == Applied(s.ports, Assign(key, w.at.next))
      else w.at.FreeWrite? && ports == Applied(s.ports, Free(key))
    case WriteBinding(role, subjects) =>
      && role in s.bindings
      && var now, x := s.bindings[role].subjects, subjectOf(k);
         if w.at.BindWrite? then x !in now && subjects == now + [x] else w.at.UnbindWrite? && subjects == Without(now, x)
    case WriteCluster(c) => Current(s, k, w) && UpdateOk(s.clusters[k], c, w.at)
    case DropCluster => Current(s, k, w) && w.at.RemoveFinalizer? && w.copy.finalizer
    case _ => true
  }

  /** A worker goes on with what it knows of its cluster; only a mirroring cluster's worker gets to the
      allocation and to the release. */
  predicate Continues(w: Worker, w': Worker) {
    && Mirrors(w'.copy) == Mirrors(w.copy) && Live(w'.copy) == Live(w.copy) && (ShowsDeletion(w) ==> ShowsDeletion(w'))
    && (w'.at.AllocRead? || w'.at.FreeRead? ==> Mirrors(w.copy))
    && (w'.at.AllocWrite? ==> w.at.AllocRead?) && (w'.at.FreeWrite? ==> w.at.FreeRead?)
    && !w.at.RemoveFinalizer?
  }

  ghost predicate EffectOk(s: State, k: Key, w: Worker, e: Effect, subjectOf: Key -> Subject) {
    && TouchOk(s, k, w, e.touch, subjectOf)
    && match e.next
       case Some(w') =>
         && WorkerOk(Touched(s, k, e.touch), k, w', subjectOf) && Continues(w, w')
         && (e.touch.WriteCluster? ==> k in s.clusters && e.touch.cluster.finalizer == s.clusters[k].finalizer)
       case None => true
  }

  lemma BeginOk(s: State, k: Key, w: Worker, o: Outcome, subjectOf: Key -> Subject)
    requires WorkerOk(s, k, w, subjectOf) && w.at.Begin?
    ensures EffectOk(s, k, w, AtBegin(s, k, w, o), subjectOf)
  {
    if w.copy.deleting {
      DeletionBegins(s, k, w, subjectOf);
      assert AtBegin(s, k, w, o) == Goes(w.(copy := Terminated(w.copy)), UnbindRead(KubeletNode, false));
    }
  }

  lemma DeletionBegins(s: State, k: Key, w: Worker, subjectOf: Key -> Subject)
    requires WorkerOk(s, k, w, subjectOf) && w.at.Begin? && w.copy.deleting
    ensures EffectOk(s, k, w, Goes(w.(copy := Terminated(w.copy)), UnbindRead(KubeletNode, false)), subjectOf)
  {
  }

  lemma AllocReadOk(s: State, k: Key, w: Worker, o: Outcome, subjectOf: Key -> Subject)
    requires PortsOk(s) && WorkerOk(s, k, w, subjectOf) && w.at.AllocRead?
    ensures EffectOk(s, k, w, AtAllocRead(s, k, w, o), subjectOf)
  {
  }

  lemma AllocWriteOk(s: State, k: Key, w: Worker, o: Outcome, subjectOf: Key -> Subject)
    requires WorkerOk(s, k, w, subjectOf) && w.at.AllocWrite?
    ensures EffectOk(s, k, w, AtAllocWrite(s, k, w, o), subjectOf)
  {
  }

  lemma BindReadOk(s: State, k: Key, w: Worker, o: Outcome, subjectOf: Key -> Subject)
    requires WorkerOk(s, k, w, subjectOf) && w.at.BindRead? && (w.at.role in s.bindings ==> BindingOk(s, w.at.role))
    ensures EffectOk(s, k, w, AtBindRead(s, k, w, o, subjectOf), subjectOf)
  {
  }

  lemma BindWriteOk(s: State, k: Key, w: Worker, o: Outcome, subjectOf: Key -> Subject)
    requires WorkerOk(s, k, w, subjectOf) && w.at.BindWrite?
    ensures EffectOk(s, k, w, AtBindWrite(s, k, w, o, subjectOf), subjectOf)
  {
  }

  lemma SaveStatusOk(s: State, k: Key, w: Worker, o: Outcome, subjectOf: Key -> Subject)
    requires WorkerOk(s, k, w, subjectOf) && w.at.SaveStatus?
    ensures EffectOk(s, k, w, AtSaveStatus(s, k, w, o), subjectOf)
  {
  }

  lemma SaveSpecOk(s: State, k: Key, w: Worker, o: Outcome, subjectOf: Key -> Subject)
    requires WorkerOk(s, k, w, subjectOf) && w.at.SaveSpec?
    ensures EffectOk(s, k, w, AtSaveSpec(s, k, w, o), subjectOf)
  {
  }

  lemma UnbindReadOk(s: State, k: Key, w: Worker, o: Outcome, subjectOf: Key -> Subject)
    requires WorkerOk(s, k, w, subjectOf) && w.at.UnbindRead? && (w.at.role in s.bindings ==> BindingOk(s, w.at.role))
    ensures EffectOk(s, k, w, AtUnbindRead(s, k, w, o, subjectOf), subjectOf)
  {
  }

  lemma UnbindWriteOk(s: State, k: Key, w: Worker, o: Outcome, subjectOf: Key -> Subject)
    requires WorkerOk(s, k, w, subjectOf) && w.at.UnbindWrite?
    ensures EffectOk(s, k, w, AtUnbindWrite(s, k, w, o, subjectOf), subjectOf)
  {
  }

  lemma FreeReadOk(s: State, k: Key, w: Worker, o: Outcome, subjectOf: Key -> Subject)
    requires PortsOk(s) && WorkerOk(s, k, w, subjectOf) && w.at.FreeRead?
    ensures EffectOk(s, k, w, AtFreeRead(s, k, w, o), subjectOf)
  {
  }

  lemma FreeWriteOk(s: State, k: Key, w: Worker, o: Outcome, subjectOf: Key -> Subject)
    requires WorkerOk(s, k, w, subjectOf) && w.at.FreeWrite?
    ensures EffectOk(s, k, w, AtFreeWrite(s, k, w, o), subjectOf)
  {
  }

  lemma LastCallsOk(s: State, k: Key, w: Worker, o: Outcome, subjectOf: Key -> Subject)
    requires WorkerOk(s, k, w, subjectOf)
    ensures w.at.DropLease? ==> EffectOk(s, k, w, AtDropLease(w, o), subjectOf)
    ensures w.at.RemoveFinalizer? ==> EffectOk(s, k, w, AtRemoveFinalizer(s, k, w, o), subjectOf)
  {
  }

  lemma CallOk(s: State, k: Key, o: Outcome, subjectOf: Key -> Subject)
    requires Inv(s, subjectOf) && k in s.workers
    ensures WorkerOk(s, k, s.workers[k], subjectOf)
    ensures EffectOk(s, k, s.workers[k], EffectOf(s, k, s.workers[k], o, subjectOf), subjectOf)
  {
    var w := s.workers[k];
    assert WorkerOk(s, k, w, subjectOf);
    match w.at
    case Begin => BeginOk(s, k, w, o, subjectOf);
    case AllocRead => AllocReadOk(s, k, w, o, subjectOf);
    case AllocWrite(_, _, _) => AllocWriteOk(s, k, w, o, subjectOf);
    case BindRead(role, _) => assert role in s.bindings ==> BindingOk(s, role); BindReadOk(s, k, w, o, subjectOf);
    case BindWrite(_, _, _, _) => BindWriteOk(s, k, w, o, subjectOf);
    case SaveStatus(_) => SaveStatusOk(s, k, w, o, subjectOf);
    case SaveSpec => SaveSpecOk(s, k, w, o, subjectOf);
    case UnbindRead(role, _) => assert role in s.bindings ==> BindingOk(s, role); UnbindReadOk(s, k, w, o, subjectOf);
    case UnbindWrite(_, _, _, _) => UnbindWriteOk(s, k, w, o, subjectOf);
    case FreeRead => FreeReadOk(s, k, w, o, subjectOf);
    case FreeWrite(_, _) => FreeWriteOk(s, k, w, o, subjectOf);
    case DropLease => LastCallsOk(s, k, w, o, subjectOf);
    case RemoveFinalizer => LastCallsOk(s, k, w, o, subjectOf);
  }

  // ---------------------------------------------------------------------------------------------
  // Every step keeps the invariant
  // ---------------------------------------------------------------------------------------------

  lemma StopKeeps(s: State, k: Key, subjectOf: Key -> Subject)
    requires Inv(s, subjectOf)
    ensures Inv(Stop(s, k), subjectOf)
  {
    var t := Stop(s, k);
    forall j ensures CacheOk(t, j) { assert CacheOk(s, j); }
    forall role | role in t.bindings ensures BindingOk(t, role) { assert BindingOk(s, role); }
    forall j | j in t.workers ensures WorkerOk(t, j, t.workers[j], subjectOf) { assert WorkerOk(s, j, s.workers[j], subjectOf); }
  }

  lemma GoKeeps(s: State, k: Key, w: Worker, subjectOf: Key -> Subject)
    requires Inv(s, subjectOf) && WorkerOk(s, k, w, subjectOf)
    ensures Inv(s.(workers := s.workers[k := w]), subjectOf)
  {
    var t := s.(workers := s.workers[k := w]);
    forall j ensures CacheOk(t, j) { assert CacheOk(s, j); }
    forall role | role in t.bindings ensures BindingOk(t, role) { assert BindingOk(s, role); }
    forall j | j in t.workers ensures WorkerOk(t, j, t.workers[j], subjectOf) {
      if j != k { assert WorkerOk(s, j, s.workers[j], subjectOf); }
    }
  }

  /** What the workers of other clusters know stays true when one cluster, and nothing else, gets a new version or goes. */
  lemma OtherWorker(s: State, t: State, j: Key, w: Worker, subjectOf: Key -> Subject)
    requires WorkerOk(s, j, w, subjectOf) && s.rv <= t.rv && Older(t, j) == Older(s, j)
    requires j in s.clusters <==> j in t.clusters
    requires j in s.clusters ==> t.clusters[j] == s.clusters[j]
    requires t.ports == s.ports && t.portsVersion == s.portsVersion && t.bindings == s.bindings
    ensures WorkerOk(t, j, w, subjectOf)
  {
  }

  /** A new version of one cluster, or that it goes, keeps the invariant if the cluster's own cache and worker agree. */
  lemma ClusterKeeps(s: State, t: State, k: Key, subjectOf: Key -> Subject)
    requires Inv(s, subjectOf) && s.rv <= t.rv && t.workers == s.workers && (k in t.clusters ==> t.clusters[k].version <= t.rv)
    requires t.ports == s.ports && t.portsVersion == s.portsVersion && t.olderPorts == s.olderPorts && t.bindings == s.bindings
    requires forall j :: j != k ==> Older(t, j) == Older(s, j) && (j in s.clusters <==> j in t.clusters)
    requires forall j :: j != k && j in s.clusters ==> t.clusters[j] == s.clusters[j]
    requires CacheOk(t, k) && (k in t.workers ==> CopyOk(t, k, t.workers[k]))
    ensures Inv(t, subjectOf)
  {
    forall role | role in t.bindings ensures BindingOk(t, role) { assert BindingOk(s, role); }
    forall j ensures CacheOk(t, j) { assert CacheOk(s, j); }
    forall j | j in t.workers ensures WorkerOk(t, j, t.workers[j], subjectOf) {
      assert WorkerOk(s, j, s.workers[j], subjectOf);
      if j != k { OtherWorker(s, t, j, s.workers[j], subjectOf); }
    }
  }

  /** A write that takes neither the finalizer nor the deletion away. The finalizer is only added where no version that is
      being deleted can be read. */
  lemma PutKeeps(s: State, k: Key, c: Cluster, subjectOf: Key -> Subject)
    requires Inv(s, subjectOf) && (HasFinalizer(s, k) ==> c.finalizer) && (k in s.clusters && s.clusters[k].deleting ==> c.deleting)
    requires !HasFinalizer(s, k) && c.finalizer ==>
      k !in s.workers && !c.deleting && forall d :: d in Older(s, k) ==> !d.deleting
    ensures Inv(Put(s, k, c), subjectOf)
  {
    assert CacheOk(s, k);
    if k in s.workers { assert WorkerOk(s, k, s.workers[k], subjectOf); PutKeepsCopy(s, k, c); }
    PutKeepsCache(s, k, c);
    ClusterKeeps(s, Put(s, k, c), k, subjectOf);
  }

  lemma PutKeepsCache(s: State, k: Key, c: Cluster)
    requires CacheOk(s, k) && (HasFinalizer(s, k) ==> c.finalizer) && (k in s.clusters ==> s.clusters[k].version <= s.rv)
    requires k in s.clusters && s.clusters[k].deleting ==> c.deleting
    requires !HasFinalizer(s, k) && c.finalizer ==> !c.deleting && forall d :: d in Older(s, k) ==> !d.deleting
    ensures CacheOk(Put(s, k, c), k)
  {
  }

  lemma PutKeepsCopy(s: State, k: Key, c: Cluster)
    requires k in s.workers && CopyOk(s, k, s.workers[k]) && (HasFinalizer(s, k) <==> c.finalizer)
    requires k in s.clusters && s.clusters[k].deleting ==> c.deleting
    ensures CopyOk(Put(s, k, c), k, s.workers[k])
  {
  }

  /** A cluster without the finalizer goes. */
  lemma RemoveKeeps(s: State, k: Key, subjectOf: Key -> Subject)
    requires Inv(s, subjectOf) && !HasFinalizer(s, k)
    ensures Inv(Remove(s, k), subjectOf)
  {
    assert CacheOk(s, k);
    RemoveKeepsCache(s, k);
    if k in s.workers { assert WorkerOk(s, k, s.workers[k], subjectOf); RemoveKeepsCopy(s, k, s.workers[k]); }
    ClusterKeeps(s, Remove(s, k), k, subjectOf);
  }

  lemma RemoveKeepsCache(s: State, k: Key)
    requires CacheOk(s, k) && !HasFinalizer(s, k) && (k in s.clusters ==> s.clusters[k].version <= s.rv)
    ensures CacheOk(Remove(s, k), k)
  {
  }

  lemma RemoveKeepsCopy(s: State, k: Key, w: Worker)
    requires CopyOk(s, k, w) && !HasFinalizer(s, k)
    ensures CopyOk(Remove(s, k), k, w)
  {
  }

  /** The finalizer goes, with the cluster if nobody else holds it. */
  lemma FinalizerGoes(s: State, k: Key, w: Worker, c: Cluster, subjectOf: Key -> Subject)
    requires Inv(s, subjectOf) && k !in s.workers && CopyOk(s, k, w) && Current(s, k, w) && w.copy.deleting
    requires c.deleting && !c.finalizer
    ensures Inv(Remove(s, k), subjectOf) && Inv(Put(s, k, c), subjectOf)
  {
    assert CacheOk(s, k);
    ClusterKeeps(s, Remove(s, k), k, subjectOf);
    ClusterKeeps(s, Put(s, k, c), k, subjectOf);
  }

  lemma BindingKeeps(s: State, role: Role, b: Binding, rv: nat, subjectOf: Key -> Subject)
    requires Inv(s, subjectOf) && role in s.bindings && s.rv <= rv
    requires b == s.bindings[role].(older := b.older) || b.version > s.rv
    requires BindingOk(s.(rv := rv, bindings := s.bindings[role := b]), role)
    ensures Inv(s.(rv := rv, bindings := s.bindings[role := b]), subjectOf)
  {
    var t := s.(rv := rv, bindings := s.bindings[role := b]);
    forall r | r in t.bindings ensures BindingOk(t, r) { assert BindingOk(s, r); }
    forall j ensures CacheOk(t, j) { assert CacheOk(s, j); }
    forall j | j in t.workers ensures WorkerOk(t, j, t.workers[j], subjectOf) { assert WorkerOk(s, j, s.workers[j], subjectOf); }
  }

  lemma PutPortsKeeps(s: State, k: Key, ports: Stored, subjectOf: Key -> Subject)
    requires Inv(s, subjectOf) && k !in s.workers && Consistent(ports)
    requires forall key :: key in ports.ports && key !in s.ports.ports ==> key == PortKeyOf(k)
    ensures Inv(PutPorts(s, ports), subjectOf)
  {
    var t := PutPorts(s, ports);
    forall role | role in t.bindings ensures BindingOk(t, role) { assert BindingOk(s, role); }
    forall j ensures CacheOk(t, j) { assert CacheOk(s, j); }
    forall j | j in t.workers ensures WorkerOk(t, j, t.workers[j], subjectOf) {
      assert WorkerOk(s, j, s.workers[j], subjectOf);
      if PortKeyOf(j) == PortKeyOf(k) { SameKey(j, k); }
    }
  }

  lemma SameKey(j: Key, k: Key)
    requires PortKeyOf(j) == PortKeyOf(k)
    ensures j == k
  {
    PortKeyInjective(j.namespace, j.name, k.namespace, k.name);
  }

  lemma ReadPortsKeeps(s: State, k: Key, back: nat, subjectOf: Key -> Subject)
    requires Inv(s, subjectOf)
    ensures Inv(Touched(s, k, ReadPorts(back)), subjectOf)
  {
    var t := Touched(s, k, ReadPorts(back));
    forall role | role in t.bindings ensures BindingOk(t, role) { assert BindingOk(s, role); }
    forall j ensures CacheOk(t, j) { assert CacheOk(s, j); }
    forall j | j in t.workers ensures WorkerOk(t, j, t.workers[j], subjectOf) { assert WorkerOk(s, j, s.workers[j], subjectOf); }
  }

  lemma TouchKeeps(s: State, k: Key, w: Worker, touch: Touch, subjectOf: Key -> Subject)
    requires Inv(s, subjectOf) && k !in s.workers && WorkerOk(s, k, w, subjectOf) && TouchOk(s, k, w, touch, subjectOf)
    ensures Inv(Touched(s, k, touch), subjectOf)
  {
    match touch
    case Nothing =>
    case ReadPorts(back) => ReadPortsKeeps(s, k, back, subjectOf);
    case WritePorts(ports) =>
      var c := if w.at.AllocWrite? then Assign(PortKeyOf(k), w.at.next) else Free(PortKeyOf(k));
      if Enabled(s.ports, c) { AppliedKeepsConsistent(s.ports, c); }
      PutPortsKeeps(s, k, ports, subjectOf);
    case ReadBinding(role, back) =>
      if role in s.bindings {
        assert BindingOk(s, role);
        BindingKeeps(s, role, s.bindings[role].(older := Caught(s.bindings[role].older, back)), s.rv, subjectOf);
      }
    case WriteBinding(role, subjects) => BindingTouchKeeps(s, k, w, role, subjects, subjectOf);
    case WriteCluster(c) =>
      if c.finalizer || !HasFinalizer(s, k) { PutKeeps(s, k, c, subjectOf); } else { FinalizerGoes(s, k, w, c, subjectOf); }
    case DropCluster => FinalizerGoes(s, k, w, w.copy.(finalizer := false), subjectOf);
  }

  lemma BindingTouchKeeps(s: State, k: Key, w: Worker, role: Role, subjects: seq<Subject>, subjectOf: Key -> Subject)
    requires Inv(s, subjectOf) && TouchOk(s, k, w, WriteBinding(role, subjects), subjectOf)
    ensures Inv(PutBinding(s, role, subjects), subjectOf)
  {
    assert BindingOk(s, role);
    if w.at.UnbindWrite? { WithoutKeepsDistinct(s.bindings[role].subjects, subjectOf(k)); }
    var t := PutBinding(s, role, subjects);
    assert BindingOk(t, role);
    BindingKeeps(s, role, t.bindings[role], t.rv, subjectOf);
  }

  lemma CallKeeps(s: State, k: Key, o: Outcome, subjectOf: Key -> Subject)
    requires Inv(s, subjectOf)
    ensures Inv(Called(s, k, o, subjectOf), subjectOf)
  {
    if k in s.workers {
      var w := s.workers[k];
      var e := EffectOf(s, k, w, o, subjectOf);
      CallOk(s, k, o, subjectOf);
      StopKeeps(s, k, subjectOf);
      PerformKeeps(s, k, w, e, subjectOf);
    }
  }

  /** What a worker knows does not depend on the workers. */
  lemma StoppedWorkerOk(s: State, k: Key, w: Worker, subjectOf: Key -> Subject)
    requires WorkerOk(s, k, w, subjectOf)
    ensures WorkerOk(Stop(s, k), k, w, subjectOf)
  {
  }

  lemma StoppedTouch(s: State, k: Key, w: Worker, touch: Touch, subjectOf: Key -> Subject)
    requires TouchOk(s, k, w, touch, subjectOf)
    ensures TouchOk(Stop(s, k), k, w, touch, subjectOf) && Touched(Stop(s, k), k, touch) == Stop(Touched(s, k, touch), k)
  {
    StoppedTouched(s, k, touch);
  }

  lemma StoppedTouched(s: State, k: Key, touch: Touch)
    ensures Touched(Stop(s, k), k, touch) == Stop(Touched(s, k, touch), k)
  {
  }

  lemma PerformKeeps(s: State, k: Key, w: Worker, e: Effect, subjectOf: Key -> Subject)
    requires Inv(Stop(s, k), subjectOf) && WorkerOk(s, k, w, subjectOf) && EffectOk(s, k, w, e, subjectOf)
    ensures Inv(Performed(s, k, e), subjectOf)
  {
    StoppedWorkerOk(s, k, w, subjectOf);
    StoppedTouch(s, k, w, e.touch, subjectOf);
    TouchKeeps(Stop(s, k), k, w, e.touch, subjectOf);
    if e.next.Some? { ResumeKeeps(Touched(s, k, e.touch), k, e.next.value, subjectOf); }
  }

  lemma ResumeKeeps(t: State, k: Key, w: Worker, subjectOf: Key -> Subject)
    requires Inv(Stop(t, k), subjectOf) && WorkerOk(t, k, w, subjectOf)
    ensures Inv(t.(workers := t.workers[k := w]), subjectOf)
  {
    var u := Stop(t, k);
    StoppedWorkerOk(t, k, w, subjectOf);
    GoKeeps(u, k, w, subjectOf);
    assert u.(workers := u.workers[k := w]) == t.(workers := t.workers[k := w]);
  }

  lemma ClusterReadKeeps(s: State, k: Key, rest: seq<Cluster>, subjectOf: Key -> Subject)
    requires Inv(s, subjectOf) && k !in s.workers && CacheOk(s.(older := s.older[k := rest]), k)
    ensures Inv(s.(older := s.older[k := rest]), subjectOf)
  {
    ClusterKeeps(s, s.(older := s.older[k := rest]), k, subjectOf);
  }

  lemma CaughtIsEnd<T>(older: seq<T>, back: nat)
    ensures var rest := Caught(older, back); |rest| <= |older| && rest == older[|older| - |rest|..]
  {
  }

  lemma ReadKeepsCache(s: State, k: Key, rest: seq<Cluster>)
    requires CacheOk(s, k) && |rest| <= |Older(s, k)| && rest == Older(s, k)[|Older(s, k)| - |rest|..]
    ensures CacheOk(s.(older := s.older[k := rest]), k)
  {
    var t, older := s.(older := s.older[k := rest]), Older(s, k);
    var cut := |older| - |rest|;
    assert Older(t, k) == rest;
    assert forall i :: 0 <= i < |rest| ==> rest[i] == older[cut + i];
  }

  lemma ReadCopyOk(s: State, k: Key, rest: seq<Cluster>, c: Cluster)
    requires CacheOk(s, k) && Older(s, k) == rest && (rest != [] || k in s.clusters) && (k in s.clusters ==> s.clusters[k].version <= s.rv)
    requires c == if rest == [] then s.clusters[k] else rest[0]
    ensures CopyOk(s, k, Worker(c, c.status, Begin))
  {
  }

  lemma StartKeeps(s: State, k: Key, age: nat, subjectOf: Key -> Subject)
    requires Inv(s, subjectOf)
    ensures Inv(Started(s, k, age), subjectOf)
  {
    var t, rest := Started(s, k, age), Caught(Older(s, k), age);
    if t != s {
      assert CacheOk(s, k);
      CaughtIsEnd(Older(s, k), age);
      ReadKeepsCache(s, k, rest);
      ClusterReadKeeps(s, k, rest, subjectOf);
      var u := s.(older := s.older[k := rest]);
      ReadCopyOk(u, k, rest, t.workers[k].copy);
      GoKeeps(u, k, t.workers[k], subjectOf);
    }
  }

  lemma UserKeeps(s: State, k: Key, a: Action, subjectOf: Key -> Subject)
    requires Inv(s, subjectOf) && (a.Create? || a.Delete? || a.Edit?)
    ensures Inv(Next(s, k, a, subjectOf), subjectOf)
  {
    var t := Next(s, k, a, subjectOf);
    if t.rv != s.rv { PutKeeps(s, k, t.clusters[k], subjectOf); }
    else if t != s { RemoveKeeps(s, k, subjectOf); }
  }

  /** Every step keeps the invariant, whoever makes it, however it goes, and however old what it reads is. */
  lemma NextKeeps(s: State, k: Key, a: Action, subjectOf: Key -> Subject)
    requires Inv(s, subjectOf)
    ensures Inv(Next(s, k, a, subjectOf), subjectOf)
  {
    match a
    case Create(_, _, _) => UserKeeps(s, k, a, subjectOf);
    case Delete => UserKeeps(s, k, a, subjectOf);
    case Edit(_, _, _) => UserKeeps(s, k, a, subjectOf);
    case Start(age) => StartKeeps(s, k, age, subjectOf);
    case Call(o) => CallKeeps(s, k, o, subjectOf);
    case Crash => StopKeeps(s, k, subjectOf);
  }
}
