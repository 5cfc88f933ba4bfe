/** One reconciliation of a syncer, call by call, while users and the reconciliations of other objects go on between
    any two calls. */
module SyncerController {
  import opened Basics
  import opened Syncer

  /** What others do: anything but running a reconciliation of this very object. */
  predicate Elsewhere(k: Key, events: seq<Event>) {
    forall e :: e in events && e.key == k ==> !e.action.Start? && !e.action.Call? && !e.action.Crash?
  }

  lemma {:induction false} OthersKeepWorker(c: Setup, s: State, k: Key, events: seq<Event>)
    requires Elsewhere(k, events)
    ensures var i, j := Get(s, k), Get(After(c, s, events), k);
      j.worker == i.worker && j.read == i.read && i.history <= j.history
    decreases |events|
  {
    if events != [] {
      assert events[0] in events && forall e :: e in events[1..] ==> e in events;
      OtherStep(c, s, k, events[0]);
      OthersKeepWorker(c, Next(c, s, events[0].key, events[0].action), k, events[1..]);
    }
  }

  lemma OtherStep(c: Setup, s: State, k: Key, e: Event)
    requires e.key == k ==> !e.action.Start? && !e.action.Call? && !e.action.Crash?
    ensures var i, j := Get(s, k), Get(Next(c, s, e.key, e.action), k);
      j.worker == i.worker && j.read == i.read && i.history <= j.history
  {
  }

  class Reconciler {
    const c: Setup
    /** The objects of the virtual cluster with their versions, and the copies in the host cluster. */
    var s: State

    constructor (c: Setup)
      ensures this.c == c && s == State(map[], map[]) && Inv(c, s)
    {
      this.c, s := c, State(map[], map[]);
    }

    /** Others act. */
    method Interleave(k: Key, events: seq<Event>)
      requires Inv(c, s) && Elsewhere(k, events)
      modifies this
      ensures s == After(c, old(s), events) && Inv(c, s)
      ensures Get(s, k).worker == Get(old(s), k).worker && Get(s, k).read == Get(old(s), k).read
      ensures Get(old(s), k).history <= Get(s, k).history
    {
      RunKeeps(c, s, events);
      OthersKeepWorker(c, s, k, events);
      s := After(c, s, events);
    }

    /** Reconciles the object as its version number `index` says. `others(i)` happens before call `i`, which fails if
        `refused(i)`; `found` says whether the lookup in the host cluster finds a copy. */
    method Reconcile(k: Key, index: nat, others: nat -> seq<Event>, refused: nat -> bool, found: bool) returns (ok: bool)
      requires Inv(c, s) && Get(s, k).worker.None? && Get(s, k).read <= index < |Get(s, k).history|
      requires forall i :: Elsewhere(k, others(i))
      modifies this
      ensures Inv(c, s) && Get(s, k).worker.None?
      ensures Get(old(s), k).history <= Get(s, k).history
      // excluded or missing: nothing to do
      ensures Excluded(c.kind, k) ==> ok && s == old(s)
      ensures Get(old(s), k).history[index].Absent? ==> ok && s.host == old(s).host
      // an object that is not being deleted has its copy, and the finalizer
      ensures var v := Get(old(s), k).history[index];
        ok && !Excluded(c.kind, k) && v.Present? && !v.deleting ==>
          && HostName(c, k) in s.host && s.host[HostName(c, k)].obj == Translate(c.kind, c.t, k, v.source)
          && Renders(c.kind, c.t, k, v.source, s.host[HostName(c, k)].obj) && HasFinalizer(Last(Get(s, k)))
      // both under the host name of the object
      ensures HostName(c, k) == c.t.hostName(k.namespace, k.name)
      // one that is being deleted has no copy any more, and the finalizer is gone
      ensures var v := Get(old(s), k).history[index];
        ok && !Excluded(c.kind, k) && v.Present? && v.deleting ==>
          && (HostName(c, k) in s.host ==> KeyOf(s.host[HostName(c, k)].obj) != k)
          && (v.finalizer ==> !HasFinalizer(Last(Get(s, k))))
    {
      if Excluded(c.kind, k) { return true; }
      ghost var start := s;
      var v, n := Get(s, k).history[index], HostName(c, k);
      NextKeeps(c, s, k, Start(index));
      s := Set(s, k, Started(c, Get(s, k), k, index));
      if v.Absent? { return true; }
      assert Get(s, k).history[Get(s, k).read] == v && v == Get(start, k).history[index];
      if v.deleting { ok := Remove(k, others, refused); } else { ok := Provide(k, v, others, refused, found); }
    }

    /** The finalizer comes first, then the copy. */
    method Provide(k: Key, v: Version, others: nat -> seq<Event>, refused: nat -> bool, found: bool) returns (ok: bool)
      requires Inv(c, s) && v == Get(s, k).history[Get(s, k).read] && v.Present?
      requires Get(s, k).worker == Some(if v.finalizer then Writing else Adding)
      requires forall i :: Elsewhere(k, others(i))
      modifies this
      ensures Inv(c, s) && Get(s, k).worker.None? && Get(old(s), k).history <= Get(s, k).history
      ensures ok ==> HasFinalizer(Last(Get(s, k)))
      ensures ok ==> HostName(c, k) in s.host && s.host[HostName(c, k)].obj == Translate(c.kind, c.t, k, v.source)
      ensures ok ==> Renders(c.kind, c.t, k, v.source, s.host[HostName(c, k)].obj)
    {
      if !v.finalizer {
        Interleave(k, others(0));
        ok := AddFinalizer(k, v, refused(0));
        if !ok { return; }
      }
      Interleave(k, others(1));
      ok := WriteCopy(k, v, found, refused(1));
    }

    /** Adds the finalizer, if the version that was read is still the current one. */
    method AddFinalizer(k: Key, v: Version, refused: bool) returns (ok: bool)
      requires Inv(c, s) && Get(s, k).worker == Some(Adding) && v == Get(s, k).history[Get(s, k).read]
      modifies this
      ensures Inv(c, s) && Get(s, k).worker == if ok then Some(Writing) else None
      ensures Get(old(s), k).history <= Get(s, k).history && Get(s, k).read == Get(old(s), k).read
      ensures ok <==> !refused && Get(old(s), k).read == |Get(old(s), k).history| - 1
      ensures v.Present? && Get(s, k).history == if ok then Get(old(s), k).history + [v.(finalizer := true)] else Get(old(s), k).history
      ensures s.host == old(s).host
    {
      var i := Get(s, k);
      ok := !refused && i.read == |i.history| - 1;
      CalledKeeps(c, s, k, refused, false);
      s := Set(s, k, if ok then Append(i.(worker := Some(Writing)), v.(finalizer := true)) else i.(worker := None));
    }

    /** Creates or overwrites the copy. */
    method WriteCopy(k: Key, v: Version, found: bool, refused: bool) returns (ok: bool)
      requires Inv(c, s) && Get(s, k).worker == Some(Writing) && v == Get(s, k).history[Get(s, k).read]
      modifies this
      ensures Inv(c, s) && Get(s, k).worker.None? && Get(s, k).history == Get(old(s), k).history
      ensures ok ==> v.Present? && HasFinalizer(Last(Get(s, k)))
      ensures ok ==> HostName(c, k) in s.host && s.host[HostName(c, k)].obj == Translate(c.kind, c.t, k, v.source)
      ensures ok ==> Renders(c.kind, c.t, k, v.source, s.host[HostName(c, k)].obj)
      ensures ok <==> !refused && (HostName(c, k) in old(s).host <==> found)
      ensures !ok ==> s.host == old(s).host
      ensures forall n :: n != HostName(c, k) ==> (n in s.host <==> n in old(s).host) && (n in s.host ==> s.host[n] == old(s).host[n])
    {
      var i, n := Get(s, k), HostName(c, k);
      ok := !refused && (n in s.host) == found;
      CalledKeeps(c, s, k, refused, !found);
      s := Set(s, k, i.(worker := None));
      if ok {
        TranslateRenders(c.kind, c.t, k, v.source);
        s := s.(host := s.host[n := Copy(Translate(c.kind, c.t, k, v.source), i.read)]);
      }
    }

    method DropCopy(k: Key, refused: bool) returns (ok: bool)
      requires Inv(c, s) && Get(s, k).worker == Some(Deleting)
      modifies this
      ensures Inv(c, s) && ok == !refused
      ensures Get(s, k) == Get(old(s), k).(worker := if ok then Some(Unhooking) else None)
      ensures s.host == if ok then old(s).host - {HostName(c, k)} else old(s).host
    {
      CalledKeeps(c, s, k, refused, false);
      ok := !refused;
      if ok { s := Set(s, k, Get(s, k).(worker := Some(Unhooking))).(host := s.host - {HostName(c, k)}); }
      else { s := Set(s, k, Get(s, k).(worker := None)); }
    }

    /** Takes the finalizer, if the version that was read has it and is still the current one. */
    method DropFinalizer(k: Key, v: Version, refused: bool) returns (ok: bool)
      requires Inv(c, s) && Get(s, k).worker == Some(Unhooking) && v == Get(s, k).history[Get(s, k).read] && v.Present?
      modifies this
      ensures Inv(c, s) && Get(s, k).worker.None? && s.host == old(s).host && Get(old(s), k).history <= Get(s, k).history
      ensures ok <==> !v.finalizer || (!refused && Get(old(s), k).read == |Get(old(s), k).history| - 1)
      ensures ok && v.finalizer ==> !HasFinalizer(Last(Get(s, k)))
    {
      var i := Get(s, k);
      ok := !v.finalizer || (!refused && i.read == |i.history| - 1);
      CalledKeeps(c, s, k, !ok, false);
      i := i.(worker := None);
      s := Set(s, k, if ok && v.finalizer then Append(i, if v.held then v.(finalizer := false) else Absent) else i);
    }

    /** The copy goes first, then the finalizer. */
    method Remove(k: Key, others: nat -> seq<Event>, refused: nat -> bool) returns (ok: bool)
      requires Inv(c, s) && Get(s, k).worker == Some(Deleting)
      requires forall i :: Elsewhere(k, others(i))
      modifies this
      ensures Inv(c, s) && Get(s, k).worker.None?
      ensures Get(old(s), k).history <= Get(s, k).history
      ensures ok ==> HostName(c, k) in s.host ==> KeyOf(s.host[HostName(c, k)].obj) != k
      ensures ok && Get(old(s), k).history[Get(old(s), k).read].finalizer ==> !HasFinalizer(Last(Get(s, k)))
    {
      var v, n := Get(s, k).history[Get(s, k).read], HostName(c, k);
      Interleave(k, others(0));
      ok := DropCopy(k, refused(0));
      if !ok { return; }
      Interleave(k, others(1));
      assert CopyOk(c, s, n);
      ok := DropFinalizer(k, v, refused(1));
    }
  }
}
