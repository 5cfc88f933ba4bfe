/** Merging virtual clusters into the user's kubeconfig file, and taking them out again. */
module Kubeconfig {
  import opened Basics

  datatype Context = Context(cluster: string, user: string)

  /** Clusters and users are opaque; `other` is everything that is never touched. */
  datatype Config = Config(clusters: map<string, string>, users: map<string, string>, contexts: map<string, Context>,
                           current: string, other: string)

  const EMPTY := Config(map[], map[], map[], "", "")

  /** The file: missing, with text that does not parse, or with a config. */
  datatype Disk = Missing | Garbled | Holds(config: Config)

  predicate Has(c: Config, name: string) {
    name in c.clusters || name in c.users || name in c.contexts
  }

  /** The cluster and the user of the current context. */
  function CurrentEntries(c: Config): Result<(string, string)> {
    if c.current !in c.contexts then Err("no such entry")
    else
      var context := c.contexts[c.current];
      if context.cluster !in c.clusters || context.user !in c.users then Err("no such entry")
      else Ok((c.clusters[context.cluster], c.users[context.user]))
  }

  function Added(c: Config, name: string, cluster: string, user: string): Config {
    c.(clusters := c.clusters[name := cluster], users := c.users[name := user], contexts := c.contexts[name := Context(name, name)])
  }

  /** The entry of one name. */
  function At<T>(m: map<string, T>, n: string): Option<T> {
    if n in m then Some(m[n]) else None
  }

  /** `d` is `c` with this cluster and this user under the name, and a context of that name for the two. */
  ghost predicate Puts(c: Config, d: Config, name: string, cluster: string, user: string) {
    && At(d.clusters, name) == Some(cluster) && At(d.users, name) == Some(user) && At(d.contexts, name) == Some(Context(name, name))
    && (forall n :: n != name ==>
          At(d.clusters, n) == At(c.clusters, n) && At(d.users, n) == At(c.users, n) && At(d.contexts, n) == At(c.contexts, n))
    && d.current == c.current && d.other == c.other
  }

  lemma AddedPuts(c: Config, name: string, cluster: string, user: string)
    ensures Puts(c, Added(c, name, cluster, user), name, cluster, user)
  {
  }

  /** The current context names a context whose cluster and user are there. */
  predicate Resolves(c: Config) {
    c.current in c.contexts && c.contexts[c.current].cluster in c.clusters && c.contexts[c.current].user in c.users
  }

  function Removed(c: Config, name: string): Config {
    if !Has(c, name) then c
    else c.(clusters := c.clusters - {name}, users := c.users - {name}, contexts := c.contexts - {name},
            current := if c.current == name then "" else c.current)
  }

  function RemovedAll(c: Config, names: seq<string>): Config
    decreases |names|
  {
    if names == [] then c else RemovedAll(Removed(c, names[0]), names[1..])
  }

  /** The names that are found when they are removed one after the other. */
  function Found(c: Config, names: seq<string>): seq<string>
    decreases |names|
  {
    if names == [] then []
    else (if Has(c, names[0]) then [names[0]] else []) + Found(Removed(c, names[0]), names[1..])
  }

  lemma {:induction false} RemovedAllStep(c: Config, names: seq<string>, i: nat)
    requires i < |names|
    ensures RemovedAll(c, names[..i + 1]) == Removed(RemovedAll(c, names[..i]), names[i])
    ensures Found(c, names[..i + 1]) == Found(c, names[..i]) + if Has(RemovedAll(c, names[..i]), names[i]) then [names[i]] else []
    decreases i
  {
    var d := Removed(c, names[0]);
    if i == 0 {
      assert names[..1][1..] == [] && names[..0] == [];
      assert RemovedAll(d, []) == d && Found(d, []) == [];
    } else {
      RemovedAllStep(d, names[1..], i - 1);
      assert names[..i + 1][1..] == names[1..][..i] && names[..i][1..] == names[1..][..i - 1];
    }
  }

  class File {
    var disk: Disk
    /** Whether the file can be written. */
    const writable: bool

    constructor (disk: Disk, writable: bool)
      ensures this.disk == disk && this.writable == writable
    {
      this.disk, this.writable := disk, writable;
    }

    /** The config of a missing file is the empty one. */
    function Loaded(): Config
      reads this
    {
      if disk.Holds? then disk.config else EMPTY
    }

    method Write(c: Config) returns (ok: bool)
      modifies this
      ensures ok == writable && disk == if ok then Holds(c) else old(disk)
    {
      ok := writable;
      if ok { disk := Holds(c); }
    }

    method Add(name: string, src: Config) returns (ok: bool)
      modifies this
      ensures ok <==> Resolves(src) && !old(disk).Garbled? && writable
      ensures ok ==> var context := src.contexts[src.current];
        disk.Holds? && Puts(old(Loaded()), disk.config, name, src.clusters[context.cluster], src.users[context.user])
      // nothing else is in a file that was missing
      ensures ok && old(disk).Missing? ==>
        disk.Holds? && disk.config.current == "" && forall n :: Has(disk.config, n) ==> n == name
      ensures !ok ==> disk == old(disk)
    {
      var entries := CurrentEntries(src);
      if entries.Err? || disk.Garbled? { return false; }
      var config := Loaded();
      config := config.(clusters := config.clusters[name := entries.value.0]);
      config := config.(users := config.users[name := entries.value.1]);
      config := config.(contexts := config.contexts[name := Context(name, name)]);
      assert config == Added(Loaded(), name, entries.value.0, entries.value.1);
      AddedPuts(Loaded(), name, entries.value.0, entries.value.1);
      ok := Write(config);
    }

    /** Removes the names that are found; without any, the file is not written, and a missing one not created. */
    method Remove(names: seq<string>) returns (removed: seq<string>, ok: bool)
      modifies this
      ensures removed == if old(disk).Garbled? then [] else Found(old(Loaded()), names)
      ensures ok <==> !old(disk).Garbled? && (removed == [] || writable)
      ensures disk == if ok && removed != [] then Holds(RemovedAll(old(Loaded()), names)) else old(disk)
    {
      removed := [];
      if disk.Garbled? { return removed, false; }
      var config := Loaded();
      for i := 0 to |names|
        invariant disk == old(disk)
        invariant config == RemovedAll(old(Loaded()), names[..i]) && removed == Found(old(Loaded()), names[..i])
      {
        RemovedAllStep(old(Loaded()), names, i);
        var name := names[i];
        if name !in config.clusters && name !in config.users && name !in config.contexts { continue; }
        config := config.(clusters := config.clusters - {name}, users := config.users - {name}, contexts := config.contexts - {name});
        if config.current == name { config := config.(current := ""); }
        removed := removed + [name];
      }
      assert names[..|names|] == names;
      if removed == [] { return removed, true; }
      ok := Write(config);
    }
  }

  // ---------------------------------------------------------------------------------------------
  // What is removed
  // ---------------------------------------------------------------------------------------------

  lemma {:induction false} RemovedAllEntries(c: Config, names: seq<string>, n: string)
    ensures var d := RemovedAll(c, names);
      && (n in d.clusters <==> n in c.clusters && n !in names) && (n in d.clusters ==> d.clusters[n] == c.clusters[n])
      && (n in d.users <==> n in c.users && n !in names) && (n in d.users ==> d.users[n] == c.users[n])
      && (n in d.contexts <==> n in c.contexts && n !in names) && (n in d.contexts ==> d.contexts[n] == c.contexts[n])
      && d.other == c.other
    decreases |names|
  {
    if names != [] { RemovedAllEntries(Removed(c, names[0]), names[1..], n); }
  }

  function FirstIndex(names: seq<string>, x: string): nat {
    if names == [] || names[0] == x then 0 else 1 + FirstIndex(names[1..], x)
  }

  /** Exactly the names that were there are returned, once each, in the order in which they were first given. */
  lemma {:induction false} FoundOnceInOrder(c: Config, names: seq<string>)
    ensures forall x :: x in Found(c, names) <==> x in names && Has(c, x)
    ensures forall i, j :: 0 <= i < j < |Found(c, names)| ==>
      Found(c, names)[i] != Found(c, names)[j] && FirstIndex(names, Found(c, names)[i]) < FirstIndex(names, Found(c, names)[j])
    decreases |names|
  {
    if names != [] {
      var d, rest := Removed(c, names[0]), Found(Removed(c, names[0]), names[1..]);
      FoundOnceInOrder(d, names[1..]);
      forall x ensures Has(d, x) <==> Has(c, x) && x != names[0] {}
      assert forall x :: x in names <==> x == names[0] || x in names[1..];
      forall i | 0 <= i < |rest| ensures rest[i] != names[0] && FirstIndex(names, rest[i]) == 1 + FirstIndex(names[1..], rest[i]) {
        assert rest[i] in rest;
      }
    }
  }

  // ---------------------------------------------------------------------------------------------
  // Any sequence of edits
  // ---------------------------------------------------------------------------------------------

  datatype Edit = AddEntry(name: string, cluster: string, user: string) | RemoveEntries(names: seq<string>)

  function Edited(c: Config, e: Edit): Config {
    match e
    case AddEntry(name, cluster, user) => Added(c, name, cluster, user)
    case RemoveEntries(names) => RemovedAll(c, names)
  }

  ghost function EditedAll(c: Config, edits: seq<Edit>): Config
    decreases |edits|
  {
    if edits == [] then c else EditedAll(Edited(c, edits[0]), edits[1..])
  }

  predicate Mentions(e: Edit, n: string) {
    match e
    case AddEntry(name, _, _) => n == name
    case RemoveEntries(names) => n in names
  }

  /** Entries that no edit mentions are untouched, and so is everything else in the file. */
  lemma {:induction false} EditsFrame(c: Config, edits: seq<Edit>, n: string)
    requires forall e :: e in edits ==> !Mentions(e, n)
    ensures var d := EditedAll(c, edits);
      At(d.clusters, n) == At(c.clusters, n) && At(d.users, n) == At(c.users, n) && At(d.contexts, n) == At(c.contexts, n)
    ensures EditedAll(c, edits).other == c.other
    decreases |edits|
  {
    if edits != [] {
      assert edits[0] in edits && forall e :: e in edits[1..] ==> e in edits;
      if edits[0].RemoveEntries? { RemovedAllEntries(c, edits[0].names, n); }
      EditsFrame(Edited(c, edits[0]), edits[1..], n);
    }
  }

  /** The current context is empty or names a context. */
  predicate Anchored(c: Config) {
    c.current == "" || c.current in c.contexts
  }

  lemma {:induction false} RemovalsKeepAnchored(c: Config, names: seq<string>)
    requires Anchored(c)
    ensures Anchored(RemovedAll(c, names))
    ensures RemovedAll(c, names).current == if c.current in names then "" else c.current
    decreases |names|
  {
    if names != [] { RemovalsKeepAnchored(Removed(c, names[0]), names[1..]); }
  }

  /** No sequence of edits leaves the current context dangling, or moves it to another context. */
  lemma {:induction false} EditsKeepAnchored(c: Config, edits: seq<Edit>)
    requires Anchored(c)
    ensures Anchored(EditedAll(c, edits)) && EditedAll(c, edits).current in {c.current, ""}
    decreases |edits|
  {
    if edits != [] {
      if edits[0].RemoveEntries? { RemovalsKeepAnchored(c, edits[0].names); }
      EditsKeepAnchored(Edited(c, edits[0]), edits[1..]);
    }
  }

  /** Adding a fresh name and removing it again restores the config exactly when the name was not, dangling, the current
      context already. */
  lemma AddThenRemove(c: Config, name: string, cluster: string, user: string)
    requires !Has(c, name)
    ensures RemovedAll(Added(c, name, cluster, user), [name]) == c <==> c.current != name || name == ""
  {
  }
}
