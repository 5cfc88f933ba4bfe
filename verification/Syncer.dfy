/** The syncers of config maps, secrets and services as one state machine. Reads come from a cache that may lag behind
    but never goes back; users edit and delete virtual objects at any time; a reconciliation may end after any call. */
module Syncer {
  import opened Basics
  import opened Metadata

  datatype Kind = ConfigMap | Secret | Service

  datatype Key = Key(namespace: GoString, name: GoString)

  /** What users write: labels, annotations and the rest, of which only a secret's type matters here. */
  datatype Source = Source(labels: Table, annotations: Table, secretType: string, data: string)

  datatype HostObject = HostObject(meta: Meta, secretType: string, data: string)

  const SERVICE_ACCOUNT_TOKEN := "kubernetes.io/service-account-token"
  const OPAQUE := "Opaque"

  /** The services of the virtual cluster itself are not synced. */
  predicate Excluded(kind: Kind, k: Key) {
    kind == Service && (k.name == "kubernetes" || k.name == "kube-dns")
  }

  /** Exactly these are left out, in whatever namespace they are. */
  lemma ExcludedAre(kind: Kind, k: Key)
    ensures Excluded(kind, k) <==> kind.Service? && (k.name == "kubernetes" || k.name == "kube-dns")
  {
  }

  /** The host copy of a virtual object, owned by the Cluster. The host cluster would fill a service account token on
      its own, so such a secret becomes an ordinary one. */
  function Translate(kind: Kind, t: Translator, k: Key, source: Source): HostObject {
    var meta := t.To(Meta(k.name, k.namespace, source.labels, source.annotations, [], [], "", ""));
    var secretType := if kind == Secret && source.secretType == SERVICE_ACCOUNT_TOKEN then OPAQUE else source.secretType;
    HostObject(meta.(owners := [t.cluster]), secretType, source.data)
  }

  /** The virtual object that a host copy names in its annotations. */
  function KeyOf(h: HostObject): Key {
    Key(From(h.meta).namespace, From(h.meta).name)
  }

  /** What a host copy says, in the fields of the virtual object's source. A secret is of the type of its source, but for
      service account tokens, which become opaque. */
  ghost predicate Renders(kind: Kind, t: Translator, k: Key, source: Source, h: HostObject) {
    && h.data == source.data
    && h.secretType == (if kind == Secret && source.secretType == "kubernetes.io/service-account-token" then "Opaque" else source.secretType)
    && h.meta.namespace == t.clusterNamespace && h.meta.name == t.hostName(k.namespace, k.name)
    && h.meta.owners == [t.cluster] && h.meta.finalizers == []
    && CLUSTER_LABEL in h.meta.labels && h.meta.labels[CLUSTER_LABEL] == t.cluster
    && SameBut(h.meta.labels, source.labels, {CLUSTER_LABEL})
    && SameBut(h.meta.annotations, source.annotations, {NAME_ANNOTATION, NAMESPACE_ANNOTATION})
  }

  lemma TranslateRenders(kind: Kind, t: Translator, k: Key, source: Source)
    ensures Renders(kind, t, k, source, Translate(kind, t, k, source))
  {
    ToLands(t, Meta(k.name, k.namespace, source.labels, source.annotations, [], [], "", ""));
  }

  lemma TranslateNamesItsKey(kind: Kind, t: Translator, k: Key, source: Source)
    ensures KeyOf(Translate(kind, t, k, source)) == k
    ensures Translate(kind, t, k, source).meta.name == t.hostName(k.namespace, k.name)
  {
  }

  // ---------------------------------------------------------------------------------------------
  // The machine
  // ---------------------------------------------------------------------------------------------

  /** One version of a virtual object. `held` says that finalizers of other parties are present. */
  datatype Version = Absent | Present(deleting: bool, finalizer: bool, held: bool, source: Source)

  datatype Pc = Deleting | Unhooking | Adding | Writing

  /** All versions that a virtual object has had, the last one that a reconciliation has read, and where the running
      reconciliation is. The position in the history is the resource version. */
  datatype Item = Item(history: seq<Version>, read: nat, worker: Option<Pc>)

  /** A host copy, and the version of its virtual object that it was made from. */
  datatype Copy = Copy(obj: HostObject, version: nat)

  datatype State = State(items: map<Key, Item>, host: map<GoString, Copy>)

  datatype Setup = Setup(kind: Kind, t: Translator)

  datatype Action =
    | Create(finalizer: bool, held: bool, source: Source)
    | Edit(addFinalizer: bool, newHeld: bool, newSource: Source)
    | Delete
    | Start(index: nat)
    | Call(refused: bool, create: bool)
    | Crash

  function Get(s: State, k: Key): Item {
    if k in s.items then s.items[k] else Item([Absent], 0, None)
  }

  function Last(i: Item): Version {
    if i.history == [] then Absent else i.history[|i.history| - 1]
  }

  function Set(s: State, k: Key, i: Item): State {
    s.(items := s.items[k := i])
  }

  function Append(i: Item, v: Version): Item {
    i.(history := i.history + [v])
  }

  predicate HasFinalizer(v: Version) {
    v.Present? && v.finalizer
  }

  function HostName(c: Setup, k: Key): GoString {
    c.t.hostName(k.namespace, k.name)
  }

  /** Users may add the syncer's finalizer but do not remove it. */
  function UserStep(i: Item, a: Action): Item {
    var last := Last(i);
    match a
    case Create(finalizer, held, source) => if last.Absent? then Append(i, Present(false, finalizer, held, source)) else i
    case Edit(add, held, source) =>
      if last.Absent? then i
      else if last.deleting && !last.finalizer && !held then Append(i, Absent)
      else Append(i, last.(finalizer := last.finalizer || (add && !last.deleting), held := held, source := source))
    case Delete =>
      if last.Absent? then i
      else if last.finalizer || last.held then Append(i, last.(deleting := true))
      else Append(i, Absent)
    case _ => i
  }

  /** The first read of a reconciliation, at some version not older than the last one read, and what follows from it. */
  function Started(c: Setup, i: Item, k: Key, index: nat): Item {
    if i.worker.Some? || Excluded(c.kind, k) || !(i.read <= index < |i.history|) then i
    else
      var v := i.history[index];
      i.(read := index, worker :=
        if v.Absent? then None else if v.deleting then Some(Deleting) else if v.finalizer then Some(Writing) else Some(Adding))
  }

  /** The next call of a reconciliation. */
  function Called(c: Setup, s: State, k: Key, refused: bool, create: bool): State {
    var i := Get(s, k);
    if i.worker.None? || i.read >= |i.history| || i.history[i.read].Absent? then s
    else
      var v, stopped, current, n := i.history[i.read], i.(worker := None), i.read == |i.history| - 1, HostName(c, k);
      if refused then Set(s, k, stopped)
      else match i.worker.value
        case Deleting => Set(s, k, i.(worker := Some(Unhooking))).(host := s.host - {n})
        case Unhooking =>
          if !v.finalizer || !current then Set(s, k, stopped)
          else Set(s, k, Append(stopped, if v.held then v.(finalizer := false) else Absent))
        case Adding =>
          if !current then Set(s, k, stopped)
          else Set(s, k, Append(i.(worker := Some(Writing)), v.(finalizer := true)))
        case Writing =>
          // "create" or "update", as the lookup of the host copy said; the one fails if there is a copy, the other if not
          if create == (n in s.host) then Set(s, k, stopped)
          else Set(s, k, stopped).(host := s.host[n := Copy(Translate(c.kind, c.t, k, v.source), i.read)])
  }

  function Next(c: Setup, s: State, k: Key, a: Action): State {
    match a
    case Start(index) => Set(s, k, Started(c, Get(s, k), k, index))
    case Call(refused, create) => Called(c, s, k, refused, create)
    case Crash => Set(s, k, Get(s, k).(worker := None))
    case _ => Set(s, k, UserStep(Get(s, k), a))
  }

  // ---------------------------------------------------------------------------------------------
  // Safety
  // ---------------------------------------------------------------------------------------------

  /** Whatever version a reconciliation can still read that invites it to write, the object is there with the finalizer. */
  ghost predicate ItemOk(i: Item) {
    && i.read < |i.history|
    && (forall j :: i.read <= j < |i.history| && i.history[j].Present? && !i.history[j].deleting && i.history[j].finalizer ==>
          HasFinalizer(Last(i)))
    && (i.worker.Some? ==> i.history[i.read].Present?)
    && (i.worker == Some(Writing) ==> HasFinalizer(Last(i)))
    && (i.worker == Some(Deleting) || i.worker == Some(Unhooking) ==> i.history[i.read].deleting)
    && (i.worker == Some(Adding) || i.worker == Some(Writing) ==> !i.history[i.read].deleting)
  }

  /** A host copy exists only while its virtual object exists with the finalizer; it is the translation of a version
      that this object has had. */
  ghost predicate CopyOk(c: Setup, s: State, n: GoString) {
    n in s.host ==>
      var k := KeyOf(s.host[n].obj);
      HostName(c, k) == n && !Excluded(c.kind, k) && Backs(c, k, Get(s, k), s.host[n])
  }

  /** The object is there with the finalizer, and has looked as the copy says. */
  ghost predicate Backs(c: Setup, k: Key, i: Item, copy: Copy) {
    && HasFinalizer(Last(i)) && i.worker != Some(Unhooking)
    && copy.version <= i.read && copy.version < |i.history| && i.history[copy.version].Present?
    && copy.obj == Translate(c.kind, c.t, k, i.history[copy.version].source)
  }

  ghost predicate Inv(c: Setup, s: State) {
    (forall k :: k in s.items ==> ItemOk(s.items[k])) && (forall n: GoString {:trigger CopyOk(c, s, n)} :: CopyOk(c, s, n))
    && (forall k :: k in s.items && s.items[k].worker.Some? ==> !Excluded(c.kind, k))
  }

  lemma UserKeepsItem(i: Item, a: Action)
    requires ItemOk(i)
    ensures ItemOk(UserStep(i, a))
    ensures HasFinalizer(Last(i)) ==> HasFinalizer(Last(UserStep(i, a)))
    ensures i.history <= UserStep(i, a).history && UserStep(i, a).read == i.read && UserStep(i, a).worker == i.worker
  {
  }

  lemma StartKeepsItem(c: Setup, i: Item, k: Key, index: nat)
    requires ItemOk(i)
    ensures ItemOk(Started(c, i, k, index))
    ensures Started(c, i, k, index).history == i.history && Started(c, i, k, index).read >= i.read
    ensures Started(c, i, k, index).worker.Some? ==> i.worker.Some? || !Excluded(c.kind, k)
    ensures Started(c, i, k, index).worker == Some(Unhooking) ==> i.worker == Some(Unhooking)
  {
  }

  lemma BacksOn(c: Setup, k: Key, i: Item, j: Item, copy: Copy)
    requires Backs(c, k, i, copy) && i.history <= j.history && j.read >= i.read && HasFinalizer(Last(j))
    requires j.worker == Some(Unhooking) ==> i.worker == Some(Unhooking)
    ensures Backs(c, k, j, copy)
  {
  }

  /** A step of one object that does not touch the host cluster and keeps the object's finalizer. */
  lemma SetKeeps(c: Setup, s: State, k: Key, i: Item)
    requires Inv(c, s) && ItemOk(i) && (i.worker.Some? ==> !Excluded(c.kind, k))
    requires Get(s, k).history <= i.history && i.read >= Get(s, k).read
    requires HasFinalizer(Last(Get(s, k))) ==> HasFinalizer(Last(i))
    requires i.worker == Some(Unhooking) ==> Get(s, k).worker == Some(Unhooking)
    ensures Inv(c, Set(s, k, i))
  {
    var t := Set(s, k, i);
    forall n: GoString ensures CopyOk(c, t, n) {
      assert CopyOk(c, s, n);
      if n in s.host && KeyOf(s.host[n].obj) == k { BacksOn(c, k, Get(s, k), i, s.host[n]); }
    }
  }

  lemma DeletingKeeps(c: Setup, s: State, k: Key)
    requires Inv(c, s) && Get(s, k).worker == Some(Deleting)
    ensures Inv(c, Called(c, s, k, false, false)) && Called(c, s, k, false, true) == Called(c, s, k, false, false)
  {
    var t, i := Called(c, s, k, false, false), Get(s, k);
    forall n: GoString ensures CopyOk(c, t, n) {
      assert CopyOk(c, s, n);
      if n in t.host && KeyOf(s.host[n].obj) == k { assert n == HostName(c, k); }
    }
  }

  /** When the finalizer goes, there is no copy that needs it. */
  lemma UnhookedKeeps(c: Setup, s: State, k: Key, v: Version)
    requires Inv(c, s) && k in s.items && s.items[k].worker == Some(Unhooking) && !HasFinalizer(v)
    requires forall j :: s.items[k].read <= j < |s.items[k].history| ==> !(s.items[k].history[j].Present? && !s.items[k].history[j].deleting && s.items[k].history[j].finalizer)
    ensures Inv(c, Set(s, k, Append(s.items[k].(worker := None), v)))
  {
    var t := Set(s, k, Append(s.items[k].(worker := None), v));
    forall n: GoString ensures CopyOk(c, t, n) { assert CopyOk(c, s, n); }
  }

  lemma UnhookingKeeps(c: Setup, s: State, k: Key, create: bool)
    requires Inv(c, s) && Get(s, k).worker == Some(Unhooking)
    ensures Inv(c, Called(c, s, k, false, create))
  {
    var i := Get(s, k);
    var v := i.history[i.read];
    if !v.finalizer || i.read != |i.history| - 1 { SetKeeps(c, s, k, i.(worker := None)); }
    else { UnhookedKeeps(c, s, k, if v.held then v.(finalizer := false) else Absent); }
  }

  lemma AddingKeeps(c: Setup, s: State, k: Key, create: bool)
    requires Inv(c, s) && Get(s, k).worker == Some(Adding)
    ensures Inv(c, Called(c, s, k, false, create))
  {
    var i := Get(s, k);
    if i.read == |i.history| - 1 {
      SetKeeps(c, s, k, Append(i.(worker := Some(Writing)), i.history[i.read].(finalizer := true)));
    } else {
      SetKeeps(c, s, k, i.(worker := None));
    }
  }

  /** Writing a copy of a version that was read, of an object that has the finalizer. */
  lemma PutCopyKeeps(c: Setup, s: State, k: Key)
    requires Inv(c, s) && !Excluded(c.kind, k) && Get(s, k).worker.None? && HasFinalizer(Last(Get(s, k)))
    requires var i := Get(s, k); i.read < |i.history| && i.history[i.read].Present?
    ensures var i := Get(s, k);
      Inv(c, s.(host := s.host[HostName(c, k) := Copy(Translate(c.kind, c.t, k, i.history[i.read].source), i.read)]))
  {
    var i, n := Get(s, k), HostName(c, k);
    var copy := Copy(Translate(c.kind, c.t, k, i.history[i.read].source), i.read);
    TranslateNamesItsKey(c.kind, c.t, k, i.history[i.read].source);
    var t := s.(host := s.host[n := copy]);
    assert Get(t, k) == i && KeyOf(copy.obj) == k && Backs(c, k, i, copy);
    forall m: GoString ensures CopyOk(c, t, m) {
      if m != n { assert CopyOk(c, s, m); }
    }
  }

  lemma WritingKeeps(c: Setup, s: State, k: Key, create: bool)
    requires Inv(c, s) && Get(s, k).worker == Some(Writing)
    ensures Inv(c, Called(c, s, k, false, create))
  {
    var i := Get(s, k);
    var u := Set(s, k, i.(worker := None));
    SetKeeps(c, s, k, i.(worker := None));
    if create != (HostName(c, k) in s.host) { PutCopyKeeps(c, u, k); }
  }

  lemma CalledKeeps(c: Setup, s: State, k: Key, refused: bool, create: bool)
    requires Inv(c, s)
    ensures Inv(c, Called(c, s, k, refused, create))
  {
    var i := Get(s, k);
    if i.worker.Some? {
      if refused { SetKeeps(c, s, k, i.(worker := None)); }
      else {
        match i.worker.value
        case Deleting => DeletingKeeps(c, s, k);
        case Unhooking => UnhookingKeeps(c, s, k, create);
        case Adding => AddingKeeps(c, s, k, create);
        case Writing => WritingKeeps(c, s, k, create);
      }
    }
  }

  lemma NextKeeps(c: Setup, s: State, k: Key, a: Action)
    requires Inv(c, s)
    ensures Inv(c, Next(c, s, k, a))
  {
    var i := Get(s, k);
    match a
    case Start(index) =>
      StartKeepsItem(c, i, k, index);
      SetKeeps(c, s, k, Started(c, i, k, index));
    case Call(refused, create) => CalledKeeps(c, s, k, refused, create);
    case Crash => SetKeeps(c, s, k, i.(worker := None));
    case _ =>
      UserKeepsItem(i, a);
      SetKeeps(c, s, k, UserStep(i, a));
  }

  datatype Event = Event(key: Key, action: Action)

  function After(c: Setup, s: State, run: seq<Event>): State
    decreases |run|
  {
    if run == [] then s else After(c, Next(c, s, run[0].key, run[0].action), run[1..])
  }

  lemma {:induction false} RunKeeps(c: Setup, s: State, run: seq<Event>)
    requires Inv(c, s)
    ensures Inv(c, After(c, s, run))
    decreases |run|
  {
    if run != [] {
      NextKeeps(c, s, run[0].key, run[0].action);
      RunKeeps(c, Next(c, s, run[0].key, run[0].action), run[1..]);
    }
  }

  /** Whatever users do and wherever reconciliations stop: the virtual object that a host copy names exists, carries
      the finalizer, is not one of the excluded ones, and has looked as the copy says. */
  lemma NoOrphan(c: Setup, run: seq<Event>, n: GoString)
    requires n in After(c, State(map[], map[]), run).host
    ensures var s := After(c, State(map[], map[]), run); var k := KeyOf(s.host[n].obj);
      && HasFinalizer(Last(Get(s, k))) && !Excluded(c.kind, k) && c.t.hostName(k.namespace, k.name) == n == s.host[n].obj.meta.name
      && exists v :: v in Get(s, k).history && v.Present? && s.host[n].obj == Translate(c.kind, c.t, k, v.source)
                     && Renders(c.kind, c.t, k, v.source, s.host[n].obj)
  {
    RunKeeps(c, State(map[], map[]), run);
    var s := After(c, State(map[], map[]), run);
    assert CopyOk(c, s, n);
    var k := KeyOf(s.host[n].obj);
    var v := Get(s, k).history[s.host[n].version];
    TranslateRenders(c.kind, c.t, k, v.source);
    assert v in Get(s, k).history;
  }

  /** A call leaves a host copy alone, or makes it from the version that it read. */
  lemma CallHost(c: Setup, s: State, k: Key, refused: bool, create: bool, n: GoString)
    requires n in Called(c, s, k, refused, create).host
    ensures var i, h := Get(s, k), Called(c, s, k, refused, create).host[n];
      || (n in s.host && h == s.host[n])
      || (i.read < |i.history| && i.history[i.read].Present?
          && h == Copy(Translate(c.kind, c.t, k, i.history[i.read].source), i.read))
  {
  }

  /** A host copy never goes back to an older version of its object. */
  lemma CopiesNeverGoBack(c: Setup, s: State, k: Key, a: Action, n: GoString)
    requires Inv(c, s) && n in s.host && n in Next(c, s, k, a).host
    requires KeyOf(Next(c, s, k, a).host[n].obj) == KeyOf(s.host[n].obj)
    ensures Next(c, s, k, a).host[n].version >= s.host[n].version
  {
    assert CopyOk(c, s, n);
    if a.Call? {
      var i := Get(s, k);
      CallHost(c, s, k, a.refused, a.create, n);
      if i.read < |i.history| && i.history[i.read].Present? { TranslateNamesItsKey(c.kind, c.t, k, i.history[i.read].source); }
    }
  }
}
