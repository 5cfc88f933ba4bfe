/** The life of an EtcdSnapshot object: its file is saved once, recorded in the status, and deleted before the object's
    finalizer goes. Reads may be stale by any amount; every write is a compare-and-swap on the version that was read. */
module Snapshot {
  import opened Basics

  /** One version of the object. `filename` is "" while no file is recorded; `ready` is the Ready condition. */
  datatype Version = Absent | Present(deleting: bool, finalizer: bool, held: bool, filename: string, ready: Option<bool>)

  /** The cluster that the snapshot is of. */
  datatype Cluster = NoCluster | Cluster(ready: bool, terminating: bool)

  datatype Pc =
    | Begin | CheckCluster | Hook | Save | Record(name: string) | MarkReady
    | CheckDeletion | DeleteFile | Unhook
    | FailStatus

  /** A reconciliation: the version it last read or wrote, and its own copy of the object, changed as it goes. */
  datatype Worker = Worker(read: nat, copy: Version, at: Pc)

  /** `files` are the snapshots that the cluster's server has, `used` all names that any server has ever given out. */
  datatype State = State(history: seq<Version>, worker: Option<Worker>, cluster: Cluster, files: set<string>, used: set<string>)

  /** How a call goes: refused without effect, or applied with the answer lost. `newName` is the name the server gives to
      a new file, `same` says that the status message is the one already there. */
  datatype Outcome = Outcome(refused: bool, lost: bool, newName: string, same: bool)

  datatype Action =
    // users
    | Create(holdIt: bool) | Delete | Touch(newHeld: bool)
    // the cluster and its server
    | ClusterCreated | ClusterChanged(nowReady: bool) | ClusterTerminating | ClusterGone
    | ServerSaves(file: string) | ServerDrops(file: string)
    // the controller
    | Start(index: nat) | Call(outcome: Outcome) | Crash

  function Last(s: State): Version {
    if s.history == [] then Absent else s.history[|s.history| - 1]
  }

  function Append(s: State, v: Version): State {
    s.(history := s.history + [v])
  }

  /** The copy is still the current version. */
  predicate Current(s: State, w: Worker) {
    w.read == |s.history| - 1 && Last(s).Present?
  }

  function Stop(s: State): State {
    s.(worker := None)
  }

  function Go(s: State, w: Worker, at: Pc): State {
    s.(worker := Some(w.(at := at)))
  }

  /** An update of the status subresource writes only the status, and any other update everything but the status. */
  function WithStatus(current: Version, copy: Version): Version
    requires current.Present? && copy.Present?
  {
    current.(filename := copy.filename, ready := copy.ready)
  }

  function UserStep(s: State, a: Action): State {
    var v := Last(s);
    match a
    case Create(held) => if v.Absent? then Append(s, Present(false, false, held, "", None)) else s
    case Delete =>
      if v.Absent? then s
      else if v.finalizer || v.held then Append(s, v.(deleting := true))
      else Append(s, Absent)
    case Touch(held) =>
      if v.Absent? then s
      else if v.deleting && !v.finalizer && !held then Append(s, Absent)
      else Append(s, v.(held := held))
    case _ => s
  }

  /** A server never gives a name twice, and its files go with the cluster. */
  function ClusterStep(s: State, a: Action): State {
    match a
    case ClusterCreated => if s.cluster.NoCluster? then s.(cluster := Cluster(false, false), files := {}) else s
    case ClusterChanged(ready) => if s.cluster.Cluster? then s.(cluster := s.cluster.(ready := ready)) else s
    case ClusterTerminating => if s.cluster.Cluster? then s.(cluster := s.cluster.(terminating := true)) else s
    case ClusterGone => s.(cluster := NoCluster, files := {})
    case ServerSaves(name) => if name != "" && name !in s.used then s.(files := s.files + {name}, used := s.used + {name}) else s
    case ServerDrops(name) => s.(files := s.files - {name})
    case _ => s
  }

  /** What a reconciliation does first, by the version that it read. */
  function Started(s: State, index: nat): State {
    if s.worker.Some? || index >= |s.history| || s.history[index].Absent? then s
    else
      var v := s.history[index];
      var w := Worker(index, v, Begin);
      if v.deleting then Go(s, w, if v.filename == "" then Unhook else CheckDeletion)
      else if v.filename != "" then s
      else Go(s, w, CheckCluster)
  }

  function AtHook(s: State, w: Worker, o: Outcome): State
    requires w.copy.Present?
  {
    var hooked := w.(copy := w.copy.(finalizer := true));
    if o.refused || !Current(s, w) then Go(s, hooked, FailStatus)
    else if o.lost then Go(Append(s, Last(s).(finalizer := true)), hooked, FailStatus)
    else Stop(Append(s, Last(s).(finalizer := true)))
  }

  function AtSave(s: State, w: Worker, o: Outcome): State {
    if o.refused || s.cluster.NoCluster? || o.newName == "" || o.newName in s.used then Go(s, w, FailStatus)
    else
      var t := s.(files := s.files + {o.newName}, used := s.used + {o.newName});
      Go(t, w, if o.lost then FailStatus else Record(o.newName))
  }

  /** The copy keeps the file name even if it could not be written. */
  function AtRecord(s: State, w: Worker, o: Outcome): State
    requires w.copy.Present? && w.at.Record?
  {
    var named := w.(copy := w.copy.(filename := w.at.name, ready := None));
    if o.refused || !Current(s, w) then Go(s, named, FailStatus)
    else
      var t := Append(s, WithStatus(Last(s), named.copy));
      if o.lost then Go(t, named, FailStatus) else Go(t, named.(read := |s.history|), MarkReady)
  }

  function AtStatus(s: State, w: Worker, o: Outcome, ready: bool): State
    requires w.copy.Present?
  {
    if (o.same && w.copy.ready == Some(ready)) || o.refused || !Current(s, w) then Stop(s)
    else Stop(Append(s, WithStatus(Last(s), w.copy.(ready := Some(ready)))))
  }

  function AtDeleteFile(s: State, w: Worker, o: Outcome): State
    requires w.copy.Present?
  {
    if o.refused then Go(s, w, FailStatus)
    else if w.copy.filename !in s.files then Go(s, w, Unhook)
    else Go(s.(files := s.files - {w.copy.filename}), w, if o.lost then FailStatus else Unhook)
  }

  function AtUnhook(s: State, w: Worker, o: Outcome): State
    requires w.copy.Present?
  {
    if !w.copy.finalizer then Stop(s)
    else
      var unhooked := w.(copy := w.copy.(finalizer := false));
      if o.refused || !Current(s, w) then Go(s, unhooked, FailStatus)
      else
        var t := Append(s, if Last(s).held then Last(s).(finalizer := false) else Absent);
        if o.lost then Go(t, unhooked, FailStatus) else Stop(t)
  }

  function Called(s: State, o: Outcome): State {
    if s.worker.None? || s.worker.value.copy.Absent? then s
    else
      var w := s.worker.value;
      match w.at
      case Begin => Stop(s)
      case CheckCluster =>
        if o.refused || s.cluster.NoCluster? || !s.cluster.ready then Go(s, w, FailStatus)
        else Go(s, w, if w.copy.finalizer then Save else Hook)
      case Hook => AtHook(s, w, o)
      case Save => AtSave(s, w, o)
      case Record(_) => AtRecord(s, w, o)
      case MarkReady => AtStatus(s, w, o, true)
      case FailStatus => AtStatus(s, w, o, false)
      case CheckDeletion =>
        if o.refused then Go(s, w, FailStatus)
        else if s.cluster.NoCluster? || s.cluster.terminating then Go(s, w, Unhook)
        else Go(s, w, DeleteFile)
      case DeleteFile => AtDeleteFile(s, w, o)
      case Unhook => AtUnhook(s, w, o)
  }

  function Next(s: State, a: Action): State {
    match a
    case Create(_) => UserStep(s, a)
    case Delete => UserStep(s, a)
    case Touch(_) => UserStep(s, a)
    case Start(index) => Started(s, index)
    case Call(o) => Called(s, o)
    case Crash => Stop(s)
    case _ => ClusterStep(s, a)
  }

  // ---------------------------------------------------------------------------------------------
  // The invariant
  // ---------------------------------------------------------------------------------------------

  /** What holds of every version. */
  predicate VersionOk(v: Version, used: set<string>) {
    v.Present? ==>
      && (v.ready == Some(true) ==> v.filename != "")
      && (v.filename != "" ==> v.filename in used && (v.finalizer || v.deleting))
  }

  /** What holds of a version and the next one: a new object has no file, a recorded file name stays, and it is only
      recorded while the finalizer is there; the finalizer only goes from an object that is being deleted. */
  predicate Follows(v: Version, w: Version) {
    if v.Absent? then w.Present? ==> w.filename == ""
    else w.Present? ==>
      && (v.filename != "" ==> w.filename == v.filename)
      && (v.filename == "" && w.filename != "" ==> v.finalizer && w.finalizer)
      && (v.finalizer && !w.finalizer ==> v.deleting)
  }

  /** The file of a version, if any, is no longer the cluster's business. */
  predicate Released(s: State, filename: string) {
    filename == "" || filename !in s.files || s.cluster.NoCluster? || s.cluster.terminating
  }

  predicate WorkerOk(s: State, w: Worker) {
    && w.read < |s.history| && s.history[w.read].Present? && w.copy.Present?
    && var v := s.history[w.read];
       && w.copy.deleting == v.deleting && w.copy.held == v.held
       && (!w.at.FailStatus? ==> w.copy.filename == v.filename && w.copy.finalizer == v.finalizer)
       && (w.at.FailStatus? && w.copy.filename != v.filename ==> v.filename == "" && v.finalizer && w.copy.filename in s.used)
       && (w.copy.ready == Some(true) ==> v.filename != "")
       && (w.at.CheckCluster? || w.at.Hook? || w.at.Save? || w.at.Record? ==> v.filename == "" && !v.deleting)
       && (w.at.Save? || w.at.Record? ==> v.finalizer)
       && (w.at.Record? ==> w.at.name != "" && w.at.name in s.used)
       && (w.at.MarkReady? ==> v.filename != "")
       && (w.at.CheckDeletion? || w.at.DeleteFile? || w.at.Unhook? ==> v.deleting)
       && (w.at.Unhook? ==> Released(s, w.copy.filename))
  }

  ghost predicate Inv(s: State) {
    && (forall i :: 0 <= i < |s.history| ==> VersionOk(s.history[i], s.used))
    && (forall i {:trigger s.history[i]} :: 0 < i < |s.history| ==> Follows(s.history[i - 1], s.history[i]))
    && s.files <= s.used
    && (s.worker.Some? ==> WorkerOk(s, s.worker.value))
  }

  lemma AppendKeeps(s: State, v: Version)
    requires Inv(s) && VersionOk(v, s.used) && Follows(Last(s), v)
    ensures Inv(Append(s, v))
  {
  }

  lemma UserKeeps(s: State, a: Action)
    requires Inv(s) && (a.Create? || a.Delete? || a.Touch?)
    ensures Inv(UserStep(s, a))
  {
    var t := UserStep(s, a);
    if t != s { AppendKeeps(s, t.history[|s.history|]); }
  }

  lemma ClusterKeeps(s: State, a: Action)
    requires Inv(s)
    ensures Inv(ClusterStep(s, a))
  {
  }

  lemma StartKeeps(s: State, index: nat)
    requires Inv(s)
    ensures Inv(Started(s, index))
  {
  }

  lemma CheckKeeps(s: State, o: Outcome)
    requires Inv(s) && s.worker.Some? && (s.worker.value.at.Begin? || s.worker.value.at.CheckCluster? || s.worker.value.at.CheckDeletion?)
    ensures Inv(Called(s, o))
  {
  }

  lemma HookKeeps(s: State, o: Outcome)
    requires Inv(s) && s.worker.Some? && (s.worker.value.at.Hook?)
    ensures Inv(Called(s, o))
  {
    assert VersionOk(s.history[s.worker.value.read], s.used);
    var t := Called(s, o);
    if |t.history| > |s.history| { AppendKeeps(s, t.history[|s.history|]); }
  }

  lemma FileKeeps(s: State, o: Outcome)
    requires Inv(s) && s.worker.Some? && (s.worker.value.at.Save? || s.worker.value.at.DeleteFile?)
    ensures Inv(Called(s, o))
  {
    assert VersionOk(s.history[s.worker.value.read], s.used);
  }

  lemma RecordKeeps(s: State, w: Worker, o: Outcome)
    requires Inv(s) && s.worker == Some(w) && w.at.Record?
    ensures Inv(AtRecord(s, w, o))
  {
    assert VersionOk(s.history[w.read], s.used);
    var t := AtRecord(s, w, o);
    if |t.history| > |s.history| { AppendKeeps(s, t.history[|s.history|]); }
  }

  lemma StatusKeeps(s: State, w: Worker, o: Outcome, ready: bool)
    requires Inv(s) && s.worker == Some(w) && (if ready then w.at.MarkReady? else w.at.FailStatus?)
    ensures Inv(AtStatus(s, w, o, ready))
  {
    assert VersionOk(s.history[w.read], s.used);
    var t := AtStatus(s, w, o, ready);
    if |t.history| > |s.history| { AppendKeeps(s, t.history[|s.history|]); }
  }

  lemma UnhookKeeps(s: State, o: Outcome)
    requires Inv(s) && s.worker.Some? && (s.worker.value.at.Unhook?)
    ensures Inv(Called(s, o))
  {
    assert VersionOk(s.history[s.worker.value.read], s.used);
    var t := Called(s, o);
    if |t.history| > |s.history| { AppendKeeps(s, t.history[|s.history|]); }
  }

  lemma CallKeeps(s: State, o: Outcome)
    requires Inv(s)
    ensures Inv(Called(s, o))
  {
    if s.worker.Some? {
      match s.worker.value.at
      case Begin => CheckKeeps(s, o);
      case CheckCluster => CheckKeeps(s, o);
      case CheckDeletion => CheckKeeps(s, o);
      case Hook => HookKeeps(s, o);
      case Save => FileKeeps(s, o);
      case DeleteFile => FileKeeps(s, o);
      case Record(_) => RecordKeeps(s, s.worker.value, o);
      case MarkReady => StatusKeeps(s, s.worker.value, o, true);
      case FailStatus => StatusKeeps(s, s.worker.value, o, false);
      case Unhook => UnhookKeeps(s, o);
    }
  }

  lemma NextKeeps(s: State, a: Action)
    requires Inv(s)
    ensures Inv(Next(s, a))
  {
    match a
    case Create(_) => UserKeeps(s, a);
    case Delete => UserKeeps(s, a);
    case Touch(_) => UserKeeps(s, a);
    case Start(index) => StartKeeps(s, index);
    case Call(o) => CallKeeps(s, o);
    case Crash =>
    case _ => ClusterKeeps(s, a);
  }

  ghost function After(s: State, run: seq<Action>): State
    decreases |run|
  {
    if run == [] then s else After(Next(s, run[0]), run[1..])
  }

  lemma {:induction false} RunKeeps(s: State, run: seq<Action>)
    requires Inv(s)
    ensures Inv(After(s, run))
    decreases |run|
  {
    if run != [] {
      NextKeeps(s, run[0]);
      RunKeeps(Next(s, run[0]), run[1..]);
    }
  }

  lemma {:induction false} AfterAppend(s: State, run: seq<Action>, a: Action)
    ensures After(s, run + [a]) == Next(After(s, run), a)
    decreases |run|
  {
    if run == [] {
      assert [a][1..] == [] && run + [a] == [a];
      assert After(s, [a]) == After(Next(s, a), []);
    } else {
      assert (run + [a])[1..] == run[1..] + [a];
      AfterAppend(Next(s, run[0]), run[1..], a);
    }
  }

  ghost predicate Reaches(s: State, t: State) {
    exists run :: After(s, run) == t
  }

  lemma ReachStep(s: State, t: State, a: Action)
    requires Reaches(s, t)
    ensures Reaches(s, Next(t, a))
  {
    var run :| After(s, run) == t;
    AfterAppend(s, run, a);
    assert After(s, run + [a]) == Next(t, a);
  }

  const START := State([], None, NoCluster, {}, {})

  // ---------------------------------------------------------------------------------------------
  // Whole runs
  // ---------------------------------------------------------------------------------------------

  /** The same object throughout: it is never gone in between. */
  predicate Lives(history: seq<Version>, i: nat, j: nat) {
    i <= j < |history| && forall k :: i <= k <= j ==> history[k].Present?
  }

  lemma {:induction false} FilenameStays(s: State, i: nat, j: nat)
    requires Inv(s) && Lives(s.history, i, j) && s.history[i].filename != ""
    ensures s.history[j].filename == s.history[i].filename
    decreases j
  {
    if i < j {
      FilenameStays(s, i, j - 1);
      assert Follows(s.history[j - 1], s.history[j]);
    }
  }

  /** Over every run: a recorded file name never changes while the object lives, no matter how stale the reads were. */
  lemma FilenameNeverChanges(run: seq<Action>, i: nat, j: nat)
    requires var h := After(START, run).history; Lives(h, i, j) && h[i].filename != ""
    ensures After(START, run).history[j].filename == After(START, run).history[i].filename
  {
    RunKeeps(START, run);
    FilenameStays(After(START, run), i, j);
  }

  /** Over every run: Ready is true only with a recorded file, and a file is recorded only from and to a version that
      carries the finalizer. */
  lemma RecordedWithFinalizer(run: seq<Action>, i: nat)
    requires i < |After(START, run).history| && After(START, run).history[i].Present?
    ensures var h := After(START, run).history;
      && (h[i].ready == Some(true) ==> h[i].filename != "")
      && (h[i].filename != "" ==> h[i].finalizer || h[i].deleting)
      && (h[i].filename != "" ==> i > 0 && h[i - 1].Present? && (h[i - 1].filename == "" ==> h[i - 1].finalizer && h[i].finalizer))
  {
    RunKeeps(START, run);
    var h := After(START, run).history;
    assert VersionOk(h[i], After(START, run).used);
    if i > 0 { assert Follows(h[i - 1], h[i]); }
    FirstHasNoFile(START, run);
  }

  /** A new object has no file. */
  lemma {:induction false} FirstHasNoFile(s: State, run: seq<Action>)
    requires Inv(s) && (s.history != [] ==> s.history[0].Present? ==> s.history[0].filename == "")
    ensures var h := After(s, run).history; h != [] && h[0].Present? ==> h[0].filename == ""
    decreases |run|
  {
    if run != [] {
      NextKeeps(s, run[0]);
      HistoryGrows(s, run[0]);
      FirstHasNoFile(Next(s, run[0]), run[1..]);
    }
  }

  lemma HistoryGrows(s: State, a: Action)
    requires Inv(s)
    ensures s.history <= Next(s, a).history
    ensures s.history == [] && Next(s, a).history != [] ==> Next(s, a).history[0].Present? ==> Next(s, a).history[0].filename == ""
  {
  }

  lemma OtherCallsKeepFinalizer(s: State, o: Outcome)
    requires s.worker.Some? && !s.worker.value.at.Unhook? && Last(s).Present? && Last(s).finalizer
    ensures Last(Called(s, o)).Present? && Last(Called(s, o)).finalizer
  {
  }

  lemma UnhookIsSafe(s: State, o: Outcome)
    requires Inv(s) && s.worker.Some? && s.worker.value.at.Unhook? && |Called(s, o).history| > |s.history|
    ensures Last(s).Present? && Last(s).deleting && Released(s, Last(s).filename)
  {
    var w := s.worker.value;
    assert w.copy.finalizer && Current(s, w) && WorkerOk(s, w);
  }

  /** The finalizer goes in one way only: from an object that is being deleted, when there is no recorded file, or the
      server does not have it, or the cluster is gone or terminating. This is so at the very moment of the removal. */
  lemma FinalizerGoesSafely(s: State, a: Action)
    requires Inv(s) && Last(s).Present? && Last(s).finalizer
    requires |Next(s, a).history| > |s.history| && !(Last(Next(s, a)).Present? && Last(Next(s, a)).finalizer)
    ensures Last(s).deleting && Released(s, Last(s).filename)
  {
    if a.Call? && s.worker.Some? {
      if s.worker.value.at.Unhook? { UnhookIsSafe(s, a.outcome); } else { OtherCallsKeepFinalizer(s, a.outcome); }
    }
  }
}
