/** One reconciliation of an EtcdSnapshot as the controller runs it when nobody interferes, with any calls failing. Each
    method is proved to be a run of the machine in Snapshot: the ghost parameters `s` and `t` are its state when the
    reconciliation began and now, and the ghost result is its state afterwards. */
module SnapshotController {
  import opened Basics
  import opened Snapshot

  datatype ApiCall = GetCluster | UpdateObject | UpdateStatus | SaveFile | ListFiles | DeleteFileCall

  /** `Requeue` is the answer while the cluster is not ready. */
  datatype Answer = Done | Requeue | Failed

  class Controller {
    /** The calls that fail, without effect. */
    const faults: set<ApiCall>
    var obj: Version
    var cluster: Cluster
    var files: set<string>

    constructor (faults: set<ApiCall>, obj: Version, cluster: Cluster, files: set<string>)
      ensures this.faults == faults && this.obj == obj && this.cluster == cluster && this.files == files
    {
      this.faults, this.obj, this.cluster, this.files := faults, obj, cluster, files;
    }

    /** The machine has come from `s` to `t`, which has the same object, cluster and files as the controller. */
    ghost predicate Shows(s: State, t: State)
      reads this
    {
      Reaches(s, t) && t.history != [] && Last(t) == obj && t.cluster == cluster && t.files == files
    }

    /** And its reconciliation, with this copy of the current version, is at this place. */
    ghost predicate Stands(s: State, t: State, copy: Version, at: Pc)
      reads this
    {
      Shows(s, t) && obj.Present? && copy.Present? && t.worker == Some(Worker(|t.history| - 1, copy, at))
    }

    /** Or there is none any more. */
    ghost predicate Rests(s: State, t: State)
      reads this
    {
      Shows(s, t) && t.worker.None?
    }

    /** Writes the status of the controller's copy with the Ready condition set. Nothing is written if the condition was
        set like this already, with the same reason and message (`same`). */
    method UpdateSnapshotStatus(copy: Version, ready: bool, same: bool, ghost s: State, ghost t: State)
      returns (ok: bool, ghost u: State)
      requires Stands(s, t, copy, if ready then MarkReady else FailStatus)
      modifies `obj
      ensures ok <==> (copy.ready == Some(ready) && same) || UpdateStatus !in faults
      ensures obj == if ok && !(copy.ready == Some(ready) && same) then WithStatus(old(obj), copy.(ready := Some(ready))) else old(obj)
      ensures Rests(s, u)
    {
      ghost var o := Outcome(UpdateStatus in faults, false, "", same);
      ReachStep(s, t, Call(o));
      u := Called(t, o);
      if copy.ready == Some(ready) && same { return true, u; }
      ok := UpdateStatus !in faults;
      if ok { obj := WithStatus(obj, copy.(ready := Some(ready))); }
    }

    /** Looks the saved file up, and records it. The returned copy has the file name even if it was not written. */
    method BackpopulateSnapshotStatus(name: string, copy: Version, ghost s: State, ghost t: State)
      returns (ok: bool, after: Version, ghost u: State)
      requires Stands(s, t, copy, Save) && name != "" && name !in t.used && cluster.Cluster?
      modifies `obj, `files
      ensures files == old(files) + {name}
      ensures after == if ListFiles in faults then copy else copy.(filename := name, ready := None)
      ensures ok <==> ListFiles !in faults && UpdateStatus !in faults
      ensures obj == if ok then WithStatus(old(obj), after) else old(obj)
      ensures Stands(s, u, after, if ok then MarkReady else FailStatus)
    {
      after := copy;
      ghost var o := Outcome(false, ListFiles in faults, name, false);
      ReachStep(s, t, Call(o));
      u := Called(t, o);
      files := files + {name};
      if ListFiles in faults { return false, after, u; }
      after := copy.(filename := name, ready := None);
      ok := UpdateStatus !in faults;
      o := Outcome(UpdateStatus in faults, false, "", false);
      ReachStep(s, u, Call(o));
      u := Called(u, o);
      if ok { obj := WithStatus(obj, after); }
    }

    /** Adds the finalizer, or, with the finalizer there, saves a file and records it. */
    method ReconcileSnapshot(copy: Version, newName: string, ghost s: State, ghost t: State)
      returns (answer: Answer, after: Version, ghost u: State)
      requires copy == obj && Stands(s, t, copy, CheckCluster) && newName != "" && newName !in t.used
      requires !copy.deleting && copy.filename == ""
      modifies `obj, `files
      ensures after.Present? && obj.Present?
      ensures obj.deleting == old(obj).deleting && obj.held == old(obj).held
      ensures answer == Done && !old(obj).finalizer ==> obj == old(obj).(finalizer := true) && files == old(files) && after == obj
      ensures answer == Done && old(obj).finalizer ==>
        obj == old(obj).(filename := newName, ready := None) && files == old(files) + {newName} && after == obj
      ensures answer != Done ==> obj == old(obj) && after.ready in {old(obj).ready, None}
      ensures answer != Done ==> after.filename == "" || (after.filename == newName && newName in files && obj.finalizer)
      ensures var calls := if old(obj).finalizer then {GetCluster, SaveFile, ListFiles, UpdateStatus} else {GetCluster, UpdateObject};
        answer == Done <==> cluster.Cluster? && cluster.ready && calls !! faults
      ensures !old(obj).finalizer ==> files == old(files)
      ensures answer == Requeue <==> GetCluster !in faults && cluster.Cluster? && !cluster.ready
      ensures answer == Requeue ==> after == obj && files == old(files)
      ensures answer != Done && UpdateStatus !in faults ==> after.filename == "" && after.ready == old(obj).ready
      ensures answer == Done && !old(obj).finalizer ==> Rests(s, u)
      ensures answer == Done && old(obj).finalizer ==> Stands(s, u, after, MarkReady)
      ensures answer != Done ==> Stands(s, u, after, FailStatus)
    {
      after := copy;
      ghost var o := Outcome(GetCluster in faults, false, "", false);
      ReachStep(s, t, Call(o));
      u := Called(t, o);
      if GetCluster in faults || cluster.NoCluster? { return Failed, after, u; }
      if !cluster.ready { return Requeue, after, u; }
      if !copy.finalizer {
        after := copy.(finalizer := true);
        o := Outcome(UpdateObject in faults, false, "", false);
        ReachStep(s, u, Call(o));
        u := Called(u, o);
        if UpdateObject in faults { return Failed, after, u; }
        obj := obj.(finalizer := true);
        return Done, after, u;
      }
      if SaveFile in faults {
        o := Outcome(true, false, "", false);
        ReachStep(s, u, Call(o));
        u := Called(u, o);
        return Failed, after, u;
      }
      var ok;
      ok, after, u := BackpopulateSnapshotStatus(newName, after, s, u);
      answer := if ok then Done else Failed;
    }

    /** The file goes from the server, unless there is none, or no cluster to ask. */
    method DeleteSnapshot(copy: Version, ghost s: State, ghost t: State) returns (ok: bool, ghost u: State)
      requires copy.Present? && Stands(s, t, copy, if copy.filename == "" then Unhook else CheckDeletion)
      modifies `files
      ensures copy.filename == "" ==> ok
      ensures copy.filename != "" ==>
        (ok <==> GetCluster !in faults && (cluster.NoCluster? || cluster.terminating || DeleteFileCall !in faults))
      ensures files == if ok && copy.filename != "" && cluster.Cluster? && !cluster.terminating then old(files) - {copy.filename}
                       else old(files)
      ensures Stands(s, u, copy, if ok then Unhook else FailStatus)
    {
      u := t;
      if copy.filename == "" { return true, u; }
      ghost var o := Outcome(GetCluster in faults, false, "", false);
      ReachStep(s, u, Call(o));
      u := Called(u, o);
      if GetCluster in faults { return false, u; }
      if cluster.NoCluster? || cluster.terminating { return true, u; }
      o := Outcome(DeleteFileCall in faults, false, "", false);
      ReachStep(s, u, Call(o));
      u := Called(u, o);
      if DeleteFileCall in faults { return false, u; }
      // a file that the server does not have counts as deleted
      files := files - {copy.filename};
      ok := true;
    }

    method FinalizeSnapshot(copy: Version, ghost s: State, ghost t: State) returns (ok: bool, after: Version, ghost u: State)
      requires copy == obj && copy.Present? && copy.deleting
      requires Stands(s, t, copy, if copy.filename == "" then Unhook else CheckDeletion)
      modifies `obj, `files
      ensures ok ==> obj == (if !old(obj).finalizer then old(obj) else if old(obj).held then old(obj).(finalizer := false) else Absent)
      ensures ok ==> copy.filename == "" || copy.filename !in files || cluster.NoCluster? || cluster.terminating
      ensures var asks := copy.filename != "";
        var deletes := asks && cluster.Cluster? && !cluster.terminating;
        ok <==> !(asks && GetCluster in faults) && !(deletes && DeleteFileCall in faults) && !(copy.finalizer && UpdateObject in faults)
      ensures !ok ==> obj == old(obj)
      ensures after == old(obj) || after == old(obj).(finalizer := false)
      ensures if ok then Rests(s, u) else Stands(s, u, after, FailStatus)
    {
      after := copy;
      ok, u := DeleteSnapshot(copy, s, t);
      if !ok { return; }
      ghost var o := Outcome(UpdateObject in faults, false, "", false);
      ReachStep(s, u, Call(o));
      u := Called(u, o);
      if copy.finalizer {
        after := copy.(finalizer := false);
        ok := UpdateObject !in faults;
        if ok { obj := if copy.held then obj.(finalizer := false) else Absent; }
      }
    }

    method Reconcile(newName: string, same: bool, ghost s: State) returns (answer: Answer, ghost u: State)
      requires newName != "" && newName !in s.used && Rests(s, s)
      requires obj.Present? ==> obj.ready == Some(true) ==> obj.filename != ""
      modifies `obj, `files
      // it is a run of the machine
      ensures Rests(s, u)
      // a recorded file is not saved again, and stays recorded
      ensures old(obj).Absent? ==> obj == Absent && files == old(files)
      ensures old(obj).Present? && !old(obj).deleting && old(obj).filename != "" ==>
        answer == Done && obj == old(obj) && files == old(files)
      ensures obj.Present? ==> obj.ready == Some(true) ==> obj.filename != ""
      ensures old(obj).Present? && obj.Present? && old(obj).filename != "" ==> obj.filename == old(obj).filename
      // a file is only recorded with the finalizer there, and it is on the server
      ensures old(obj).Present? && old(obj).filename == "" && obj.Present? && obj.filename != "" ==>
        old(obj).finalizer && obj.finalizer && obj.filename == newName && newName in files
      // the first reconciliation adds the finalizer, and nothing else
      ensures old(obj).Present? && !old(obj).deleting && old(obj).filename == "" && !old(obj).finalizer ==>
        && (answer == Done <==> GetCluster !in faults && cluster.Cluster? && cluster.ready && UpdateObject !in faults)
        && (answer == Done ==> obj == old(obj).(finalizer := true)) && files == old(files)
      // whatever fails, the status then says so; while the cluster is not ready the answer is to come back
      ensures answer != Done && UpdateStatus !in faults ==> old(obj).Present? && obj == old(obj).(ready := Some(false))
      ensures answer == Requeue ==> cluster.Cluster? && !cluster.ready
      ensures old(obj).Present? && !old(obj).deleting && old(obj).filename == "" && faults == {} ==>
        answer == if cluster.NoCluster? then Failed else if cluster.ready then Done else Requeue
      // a smooth creation ends Ready
      ensures old(obj).Present? && !old(obj).deleting && old(obj).filename == "" && old(obj).finalizer ==>
        faults == {} && cluster.Cluster? && cluster.ready ==>
        answer == Done && obj == old(obj).(filename := newName, ready := Some(true))
      // a deletion that succeeds has let go of the object, and of its file
      ensures old(obj).Present? && old(obj).deleting && answer == Done ==>
        && (obj.Present? ==> !obj.finalizer) && (old(obj).finalizer && !old(obj).held ==> obj == Absent)
        && (old(obj).filename == "" || old(obj).filename !in files || cluster.NoCluster? || cluster.terminating)
      ensures old(obj).Present? && old(obj).finalizer && !(obj.Present? && obj.finalizer) ==> old(obj).deleting && answer == Done
    {
      ghost var index := |s.history| - 1;
      ReachStep(s, s, Start(index));
      u := Started(s, index);
      answer := Done;
      if obj.Absent? { return; }
      var copy := obj;
      if copy.deleting {
        var ok, after;
        ok, after, u := FinalizeSnapshot(copy, s, u);
        if !ok {
          var updated;
          updated, u := UpdateSnapshotStatus(after, false, same, s, u);
          answer := Failed;
        }
        return;
      }
      if copy.filename != "" { return; }
      var after;
      answer, after, u := ReconcileSnapshot(copy, newName, s, u);
      if answer != Done {
        var updated;
        updated, u := UpdateSnapshotStatus(after, false, same, s, u);
        if !updated { answer := Failed; }
        return;
      }
      if after.filename != "" {
        var updated;
        updated, u := UpdateSnapshotStatus(after, true, same, s, u);
        if !updated { answer := Failed; }
      }
    }
  }
}
