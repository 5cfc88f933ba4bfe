/** The kubelet port allocator: one ConfigMap, changed by compare-and-swap, that must never give a port twice. */
module Ports {
  import opened Basics
  import opened Text

  /** A port range as configured; text that does not parse is kept, and refused on first use. */
  datatype PortRange = Malformed | PortRange(first: int, last: int) {
    predicate Holds(port: int) { PortRange? && first <= port <= last }
  }

  /** The ConfigMap's data: the range, the decoded port map, and the ports whose bit is set in the snapshot. */
  datatype Stored = Stored(range: PortRange, ports: map<string, int>, bits: set<int>)

  function Initial(range: PortRange): Stored {
    Stored(range, map[], {})
  }

  /** What the allocator must keep: no port is given twice, and the bitmap says exactly which ports are given. */
  ghost predicate Consistent(s: Stored) {
    && (forall k, l :: k in s.ports && l in s.ports && s.ports[k] == s.ports[l] ==> k == l)
    && (forall k :: k in s.ports ==> s.ports[k] in s.bits)
    && (forall p :: p in s.bits ==> s.range.Holds(p) && exists k :: k in s.ports && s.ports[k] == p)
  }

  /** One accepted write. */
  datatype Change = Assign(key: string, port: int) | Free(key: string)

  ghost predicate Enabled(s: Stored, c: Change) {
    match c
    case Assign(key, port) => key !in s.ports && port !in s.bits && s.range.Holds(port)
    case Free(key) => key in s.ports
  }

  function Applied(s: Stored, c: Change): Stored {
    match c
    case Assign(key, port) => s.(ports := s.ports[key := port], bits := s.bits + {port})
    case Free(key) =>
      if key in s.ports then s.(ports := s.ports - {key}, bits := s.bits - {s.ports[key]}) else s
  }

  lemma AppliedKeepsConsistent(s: Stored, c: Change)
    requires Consistent(s) && Enabled(s, c)
    ensures Consistent(Applied(s, c)) && Applied(s, c).range == s.range
  {
    var t := Applied(s, c);
    if c.Assign? {
      forall p | p in t.bits ensures exists k :: k in t.ports && t.ports[k] == p {
        if p == c.port { assert t.ports[c.key] == p; }
        else { var k :| k in s.ports && s.ports[k] == p; assert t.ports[k] == p; }
      }
    } else {
      forall p | p in t.bits ensures exists k :: k in t.ports && t.ports[k] == p {
        var k :| k in s.ports && s.ports[k] == p;
        assert k in t.ports && t.ports[k] == p;
      }
    }
  }

  // ---------------------------------------------------------------------------------------------
  // Whole runs, by any number of clients
  // ---------------------------------------------------------------------------------------------

  ghost predicate Runs(s: Stored, changes: seq<Change>)
    decreases |changes|
  {
    changes != [] ==> Enabled(s, changes[0]) && Runs(Applied(s, changes[0]), changes[1..])
  }

  ghost function After(s: Stored, changes: seq<Change>): Stored
    decreases |changes|
  {
    if changes == [] then s else After(Applied(s, changes[0]), changes[1..])
  }

  /** Over every run the port map stays injective, in range, and equal to the set bits. */
  lemma {:induction false} RunKeepsConsistent(s: Stored, changes: seq<Change>)
    requires Consistent(s) && Runs(s, changes)
    ensures Consistent(After(s, changes)) && After(s, changes).range == s.range
    decreases |changes|
  {
    if changes != [] {
      AppliedKeepsConsistent(s, changes[0]);
      RunKeepsConsistent(Applied(s, changes[0]), changes[1..]);
    }
  }

  /** A cluster that has a port keeps that very port for as long as nobody frees it; nobody else gets it meanwhile. */
  lemma {:induction false} PortIsConstant(s: Stored, changes: seq<Change>, key: string)
    requires Consistent(s) && Runs(s, changes) && key in s.ports && Free(key) !in changes
    ensures key in After(s, changes).ports && After(s, changes).ports[key] == s.ports[key]
    ensures forall other :: Assign(other, s.ports[key]) !in changes
    decreases |changes|
  {
    if changes != [] {
      var t := Applied(s, changes[0]);
      AppliedKeepsConsistent(s, changes[0]);
      assert changes[0] in changes;
      assert forall c :: c in changes <==> c == changes[0] || c in changes[1..];
      PortIsConstant(t, changes[1..], key);
    }
  }

  // ---------------------------------------------------------------------------------------------
  // The store and its clients
  // ---------------------------------------------------------------------------------------------

  /** Which calls of one operation fail before they reach the store. */
  datatype Faults = Faults(get: bool, create: bool, update: bool)

  /** The stored ConfigMap. An update carries the version that was read, and is refused if that one is not current. */
  class ConfigMapStore {
    var current: Option<Stored>
    var version: nat

    ghost predicate Valid()
      reads this
    {
      current.Some? ==> Consistent(current.value)
    }

    constructor ()
      ensures Valid() && current == None
    {
      current, version := None, 0;
    }

    method Create(s: Stored) returns (ok: bool)
      modifies this
      ensures ok == old(current).None?
      ensures ok ==> current == Some(s)
      ensures !ok ==> current == old(current) && version == old(version)
    {
      ok := current.None?;
      if ok { current, version := Some(s), version + 1; }
    }

    method Update(s: Stored, read: nat) returns (ok: bool)
      modifies this
      ensures ok == (old(current).Some? && old(version) == read)
      ensures ok ==> current == Some(s)
      ensures !ok ==> current == old(current) && version == old(version)
    {
      ok := current.Some? && version == read;
      if ok { current, version := Some(s), version + 1; }
    }

    /** Writes that other clients get accepted in the meantime; those that are not enabled do not happen. */
    method Interleave(others: seq<Change>)
      requires Valid() && current.Some?
      modifies this
      ensures Valid() && current.Some? && current.value == Others(old(current).value, others)
      ensures version == old(version) <==> Quiet(old(current).value, others)
      ensures current.value.range == old(current).value.range
    {
      for i := 0 to |others|
        invariant Valid() && current.Some? && version >= old(version)
        invariant Quiet(old(current).value, others) <==> version == old(version) && Quiet(current.value, others[i..])
        invariant Others(current.value, others[i..]) == Others(old(current).value, others)
        invariant current.value.range == old(current).value.range
      {
        var c, s := others[i], current.value;
        assert others[i..][0] == c && others[i..][1..] == others[i + 1..];
        var can := if c.Assign? then c.key !in s.ports && c.port !in s.bits && s.range.Holds(c.port) else c.key in s.ports;
        assert can == Enabled(s, c);
        if can {
          AppliedKeepsConsistent(s, c);
          current, version := Some(Applied(s, c)), version + 1;
        }
      }
      assert others[|others|..] == [];
    }
  }

  ghost function Others(s: Stored, others: seq<Change>): Stored
    decreases |others|
  {
    if others == [] then s
    else Others(if Enabled(s, others[0]) then Applied(s, others[0]) else s, others[1..])
  }

  /** None of the other clients' writes is accepted. */
  ghost predicate Quiet(s: Stored, others: seq<Change>)
    ensures Quiet(s, others) ==> Others(s, others) == s
    decreases |others|
  {
    others == [] || (!Enabled(s, others[0]) && Quiet(s, others[1..]))
  }

  /** No port of the range is free. */
  ghost predicate Full(s: Stored) {
    forall p :: s.range.Holds(p) ==> p in s.bits
  }

  /** `AllocateNext` of the imported allocator: some free port, or nothing when there is none. The search starts at
      an arbitrary place. */
  method AllocateNext(s: Stored, start: int) returns (next: Option<int>)
    requires s.range.PortRange?
    ensures next.None? <==> Full(s)
    ensures next.Some? ==> s.range.Holds(next.value) && next.value !in s.bits
  {
    var first, last := s.range.first, s.range.last;
    var from := if first <= start <= last then start else first;
    var p := from;
    while p <= last
      invariant from <= p
      invariant forall q :: from <= q < p && q <= last ==> q in s.bits
      decreases last + 1 - p
    {
      if p !in s.bits { return Some(p); }
      p := p + 1;
    }
    p := first;
    while p < from
      invariant first <= p
      invariant forall q :: first <= q < p && q < from ==> q in s.bits
    {
      if p !in s.bits { return Some(p); }
      p := p + 1;
    }
    next := None;
  }

  /** A cluster's key in the port map. */
  function PortKey(namespace: string, name: string): string {
    namespace + "/" + name
  }

  /** Object names hold no '/', so two clusters never share a key: it is cut after the namespace. */
  lemma PortKeyInjective(ns: string, name: string, ns': string, name': string)
    requires '/' !in ns && '/' !in ns' && PortKey(ns, name) == PortKey(ns', name')
    ensures ns == ns' && name == name'
    ensures IndexOf(PortKey(ns, name), '/') == |ns| && PortKey(ns, name)[|ns| + 1..] == name
  {
    var k := PortKey(ns, name);
    CutAtFirst(ns, '/', name);
    CutAtFirst(ns', '/', name');
    assert ns == k[..|ns|] && ns' == k[..|ns'|];
    assert name == k[|ns| + 1..] && name' == k[|ns'| + 1..];
  }

  class PortAllocator {
    const store: ConfigMapStore
    /** The range in the allocator's own copy of the ConfigMap; unset until the start-up runnable has run. */
    var localRange: Option<PortRange>

    constructor (store: ConfigMapStore)
      ensures this.store == store && localRange == None
    {
      this.store, localRange := store, None;
    }

    /** Reads the ConfigMap, creating an empty one with the given range the first time. */
    method GetOrCreate(range: PortRange, faults: Faults) returns (r: Result<nat>)
      requires store.Valid()
      modifies this, store
      ensures store.Valid()
      ensures r.Ok? ==> store.current.Some? && r.value == store.version && localRange == Some(store.current.value.range)
      ensures r.Ok? ==> store.current == if old(store.current).Some? then old(store.current) else Some(Initial(range))
      // the first ConfigMap has the whole range free
      ensures r.Ok? && old(store.current).None? ==>
        localRange == Some(range) && store.current.value.ports == map[] && forall p :: p !in store.current.value.bits
      ensures r.Err? ==> store.current == old(store.current) && localRange == old(localRange)
      ensures r.Err? <==> faults.get || (old(store.current).None? && faults.create)
    {
      if faults.get { return Err("get"); }
      if store.current.None? {
        if faults.create { return Err("create"); }
        var created := store.Create(Initial(range));
        assert created;
      }
      localRange := Some(store.current.value.range);
      r := Ok(store.version);
    }

    /** The stored data is `s`, or what other clients made of it. */
    ghost predicate LeftAlone(s: Stored, others: seq<Change>)
      reads store
    {
      store.current.Some? && store.current.value == Others(s, others)
    }

    /** The port of the cluster: the one it has, or a free one. `others` is what other clients get written between
        this call's read and its update. */
    method AllocatePort(namespace: string, name: string, others: seq<Change>, start: int, faults: Faults)
      returns (r: Result<int>)
      requires store.Valid()
      modifies this, store
      ensures store.Valid()
      ensures old(localRange) == None ==> r.Err? && store.current == old(store.current)
      ensures r.Ok? ==> old(localRange).Some? && store.current.Some?
      // a cluster that has a port is told that one
      ensures r.Ok? ==> var k, s := PortKey(namespace, name), Read(old(store.current), old(localRange).value);
        if k in s.ports then r.value == s.ports[k] && LeftAlone(s, others)
        else Enabled(s, Assign(k, r.value)) && store.current.value == Applied(s, Assign(k, r.value)) && Quiet(s, others)
      // a new port is in the map from then on, and nothing else changes
      ensures r.Ok? ==> var k, s := PortKey(namespace, name), Read(old(store.current), old(localRange).value);
        k !in s.ports ==> store.current.value.ports == s.ports[k := r.value]
      // a failure writes nothing
      ensures r.Err? && store.current != old(store.current) ==>
        old(localRange).Some? && LeftAlone(Read(old(store.current), old(localRange).value), others)
      // and has one of these reasons
      ensures old(localRange).Some? ==> var k, s := PortKey(namespace, name), Read(old(store.current), old(localRange).value);
        var unread := faults.get || (old(store.current).None? && faults.create);
        r.Err? <==> unread || (k !in s.ports && (s.range.Malformed? || Full(s) || faults.update || !Quiet(s, others)))
    {
      if localRange.None? { return Err("port range is not initialized"); }
      var read := GetOrCreate(localRange.value, faults);
      if read.Err? { return Err(read.error); }
      var copy, key := store.current.value, PortKey(namespace, name);
      store.Interleave(others);
      if key in copy.ports { return Ok(copy.ports[key]); }
      if copy.range.Malformed? { return Err("malformed range"); }
      var next := AllocateNext(copy, start);
      if next.None? { return Err("full"); }
      AppliedKeepsConsistent(copy, Assign(key, next.value));
      copy := copy.(ports := copy.ports[key := next.value], bits := copy.bits + {next.value});
      if faults.update { return Err("update"); }
      var ok := store.Update(copy, read.value);
      if !ok { return Err("conflict"); }
      r := Ok(next.value);
    }

    /** Gives the cluster's port back. A cluster that has none is fine; one that has another port is an error. */
    method DeallocatePort(namespace: string, name: string, port: int, others: seq<Change>, faults: Faults)
      returns (r: Result<()>)
      requires store.Valid()
      modifies this, store
      ensures store.Valid()
      ensures old(localRange) == None ==> r.Err? && store.current == old(store.current)
      ensures r.Ok? ==> old(localRange).Some? && store.current.Some?
      ensures r.Ok? ==> var k, s := PortKey(namespace, name), Read(old(store.current), old(localRange).value);
        && (k in s.ports ==> s.ports[k] == port)
        && store.current.value == Applied(s, Free(k)) && Quiet(s, others)
        && store.current.value.ports == s.ports - {k}
      ensures r.Err? && store.current != old(store.current) ==>
        old(localRange).Some? && LeftAlone(Read(old(store.current), old(localRange).value), others)
      ensures old(localRange).Some? ==> var k, s := PortKey(namespace, name), Read(old(store.current), old(localRange).value);
        var unread := faults.get || (old(store.current).None? && faults.create);
        var refused := k in s.ports && (s.ports[k] != port || s.range.Malformed?);
        r.Err? <==> unread || refused || faults.update || !Quiet(s, others)
    {
      if localRange.None? { return Err("port range is not initialized"); }
      var read := GetOrCreate(localRange.value, faults);
      if read.Err? { return Err(read.error); }
      var copy, key := store.current.value, PortKey(namespace, name);
      store.Interleave(others);
      if key in copy.ports {
        if copy.ports[key] != port { return Err("port does not match"); }
        if copy.range.Malformed? { return Err("malformed range"); }
        AppliedKeepsConsistent(copy, Free(key));
        copy := copy.(ports := copy.ports - {key}, bits := copy.bits - {port});
      }
      if faults.update { return Err("update"); }
      var ok := store.Update(copy, read.value);
      if !ok { return Err("conflict"); }
      r := Ok(());
    }
  }

  /** What an operation reads: the stored data, or what it creates when there is none yet. */
  function Read(current: Option<Stored>, range: PortRange): Stored {
    if current.Some? then current.value else Initial(range)
  }
}
