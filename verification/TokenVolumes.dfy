/** The token sources of a pod's volumes: replaced by host secrets when the pod is created, and visited again whenever
    tokens are refreshed. */
module TokenVolumes {
  import opened Basics
  import opened Text
  import opened TokenNames

  const KUBE_ACCESS := "kube-api-access"

  /** A projected source; `other` stands for what is neither a token nor a secret. */
  datatype Source = Source(token: Option<Token>, secret: Option<string>, other: string)
  datatype Volume = Volume(name: string, projected: Option<seq<Source>>, other: string)

  /** The names in the host cluster of the secrets for a pod's tokens. */
  datatype Naming = Naming(ofToken: Token -> string, ofKubeAccess: string)

  predicate IsKubeAccess(v: Volume) {
    HasPrefix(v.name, KUBE_ACCESS)
  }

  function SourceTokens(sources: seq<Source>): seq<Token> {
    if sources == [] then []
    else (if sources[0].token.Some? then [sources[0].token.value] else []) + SourceTokens(sources[1..])
  }

  function TokensOf(v: Volume): seq<Token> {
    if v.projected.None? then [] else SourceTokens(v.projected.value)
  }

  /** All tokens outside the kube-api-access volumes, in order. */
  function ProjectedTokens(volumes: seq<Volume>): seq<Token> {
    if volumes == [] then []
    else (if IsKubeAccess(volumes[0]) then [] else TokensOf(volumes[0])) + ProjectedTokens(volumes[1..])
  }

  function Names(n: Naming, tokens: seq<Token>): (r: seq<string>)
    ensures |r| == |tokens|
  {
    seq(|tokens|, i requires 0 <= i < |tokens| => n.ofToken(tokens[i]))
  }

  predicate HasKubeAccess(volumes: seq<Volume>) {
    exists i :: 0 <= i < |volumes| && IsKubeAccess(volumes[i])
  }

  /** `hasKubeAccessVolume`. */
  method FindKubeAccess(volumes: seq<Volume>) returns (found: bool)
    ensures found <==> HasKubeAccess(volumes)
  {
    for i := 0 to |volumes|
      invariant forall j :: 0 <= j < i ==> !IsKubeAccess(volumes[j])
    {
      if IsKubeAccess(volumes[i]) { return true; }
    }
    found := false;
  }

  // ---------------------------------------------------------------------------------------------
  // Creation
  // ---------------------------------------------------------------------------------------------

  function SourceDone(n: Naming, s: Source): Source {
    if s.token.Some? then s.(token := None, secret := Some(n.ofToken(s.token.value))) else s
  }

  function SourcesDone(n: Naming, sources: seq<Source>): (r: seq<Source>)
    ensures |r| == |sources|
  {
    seq(|sources|, j requires 0 <= j < |sources| => SourceDone(n, sources[j]))
  }

  function VolumeDone(n: Naming, v: Volume): Volume {
    if IsKubeAccess(v) || v.projected.None? then v else v.(projected := Some(SourcesDone(n, v.projected.value)))
  }

  /** What is left after the first kube-api-access volume is gone. */
  function RemoveFirst(volumes: seq<Volume>): seq<Volume> {
    if volumes == [] then []
    else if IsKubeAccess(volumes[0]) then volumes[1..]
    else [volumes[0]] + RemoveFirst(volumes[1..])
  }

  function AllDone(n: Naming, volumes: seq<Volume>): (r: seq<Volume>)
    ensures |r| == |volumes|
  {
    seq(|volumes|, i requires 0 <= i < |volumes| => VolumeDone(n, volumes[i]))
  }

  /** The host pod's volumes once its tokens are transformed. */
  function Transformed(n: Naming, volumes: seq<Volume>): seq<Volume> {
    if HasKubeAccess(volumes) then RemoveFirst(AllDone(n, volumes)) + [Volume("k3k-" + KUBE_ACCESS, None, n.ofKubeAccess)]
    else AllDone(n, volumes)
  }

  lemma {:induction false} ProjectedTokensStep(volumes: seq<Volume>, i: nat)
    requires i < |volumes|
    ensures ProjectedTokens(volumes[..i + 1]) ==
      ProjectedTokens(volumes[..i]) + if IsKubeAccess(volumes[i]) then [] else TokensOf(volumes[i])
    decreases i
  {
    if i == 0 {
      assert volumes[..1][1..] == [];
    } else {
      ProjectedTokensStep(volumes[1..], i - 1);
      assert volumes[..i + 1][1..] == volumes[1..][..i] && volumes[..i][1..] == volumes[1..][..i - 1];
    }
  }

  lemma {:induction false} SourceTokensStep(sources: seq<Source>, j: nat)
    requires j < |sources|
    ensures SourceTokens(sources[..j + 1]) ==
      SourceTokens(sources[..j]) + if sources[j].token.Some? then [sources[j].token.value] else []
    decreases j
  {
    if j == 0 {
      assert sources[..1][1..] == [];
    } else {
      SourceTokensStep(sources[1..], j - 1);
      assert sources[..j + 1][1..] == sources[1..][..j] && sources[..j][1..] == sources[1..][..j - 1];
    }
  }

  lemma NamesAppend(n: Naming, a: seq<Token>, b: seq<Token>)
    ensures Names(n, a + b) == Names(n, a) + Names(n, b)
  {
  }

  class HostPod {
    const naming: Naming
    var volumes: seq<Volume>

    constructor (naming: Naming, volumes: seq<Volume>)
      ensures this.naming == naming && this.volumes == volumes
    {
      this.naming, this.volumes := naming, volumes;
    }

    /** Replaces the tokens of one volume in place. */
    method TransformVolume(i: nat) returns (names: seq<string>)
      requires i < |volumes| && volumes[i].projected.Some? && !IsKubeAccess(volumes[i])
      modifies this
      ensures names == Names(naming, TokensOf(old(volumes)[i]))
      ensures volumes == old(volumes)[i := VolumeDone(naming, old(volumes)[i])]
    {
      var sources := volumes[i].projected.value;
      var done := sources;
      names := [];
      for j := 0 to |sources|
        invariant volumes == old(volumes) && |done| == |sources| && names == Names(naming, SourceTokens(sources[..j]))
        invariant forall k :: 0 <= k < |sources| ==> done[k] == if k < j then SourceDone(naming, sources[k]) else sources[k]
      {
        SourceTokensStep(sources, j);
        if sources[j].token.Some? {
          var name := naming.ofToken(sources[j].token.value);
          done := done[j := sources[j].(token := None, secret := Some(name))];
          names := names + [name];
        }
      }
      assert sources[..|sources|] == sources;
      volumes := volumes[i := volumes[i].(projected := Some(done))];
      assert done == SourcesDone(naming, sources);
    }

    /** Kube-api-access volumes are left for later, and volumes that are not projected have no tokens. */
    method TransformIfProjected(i: nat) returns (names: seq<string>)
      requires i < |volumes|
      modifies this
      ensures names == Names(naming, if IsKubeAccess(old(volumes)[i]) then [] else TokensOf(old(volumes)[i]))
      ensures volumes == old(volumes)[i := VolumeDone(naming, old(volumes)[i])]
    {
      names := [];
      if !IsKubeAccess(volumes[i]) && volumes[i].projected.Some? { names := TransformVolume(i); }
    }

    method TransformProjectedTokens() returns (names: seq<string>)
      modifies this
      ensures names == Names(naming, ProjectedTokens(old(volumes)))
      ensures volumes == AllDone(naming, old(volumes))
    {
      names := [];
      ghost var start := volumes;
      for i := 0 to |volumes|
        invariant |volumes| == |start|
        invariant names == Names(naming, ProjectedTokens(start[..i]))
        invariant forall k :: 0 <= k < |start| ==> volumes[k] == if k < i then VolumeDone(naming, start[k]) else start[k]
      {
        ProjectedTokensStep(start, i);
        NamesAppend(naming, ProjectedTokens(start[..i]), if IsKubeAccess(start[i]) then [] else TokensOf(start[i]));
        var more := TransformIfProjected(i);
        names := names + more;
      }
      assert start[..|start|] == start;
    }

    method RemoveKubeAccessVolume()
      modifies this
      ensures volumes == RemoveFirst(old(volumes))
    {
      for i := 0 to |volumes|
        invariant volumes == old(volumes)
        invariant forall j :: 0 <= j < i ==> !IsKubeAccess(volumes[j])
      {
        if IsKubeAccess(volumes[i]) {
          RemoveFirstAt(volumes, i);
          volumes := volumes[..i] + volumes[i + 1..];
          return;
        }
      }
      RemoveNone(volumes);
    }

    /** Replaces all tokens of the pod. `virtualVolumes` are those of the virtual pod. */
    method TransformTokens(virtualVolumes: seq<Volume>) returns (names: seq<string>)
      requires HasKubeAccess(virtualVolumes) <==> HasKubeAccess(volumes)
      modifies this
      ensures names == CreatedSecrets(naming, old(volumes))
      ensures volumes == Transformed(naming, old(volumes))
      ensures MountsNames(naming, old(volumes), volumes, names)
    {
      TransformedMounts(naming, volumes);
      names := TransformProjectedTokens();
      var found := FindKubeAccess(virtualVolumes);
      if found {
        RemoveKubeAccessVolume();
        volumes := volumes + [Volume("k3k-" + KUBE_ACCESS, None, naming.ofKubeAccess)];
        names := names + [naming.ofKubeAccess];
      }
    }
  }

  lemma {:induction false} RemoveFirstAt(volumes: seq<Volume>, i: nat)
    requires i < |volumes| && IsKubeAccess(volumes[i]) && forall j :: 0 <= j < i ==> !IsKubeAccess(volumes[j])
    ensures RemoveFirst(volumes) == volumes[..i] + volumes[i + 1..]
    decreases i
  {
    if i > 0 {
      RemoveFirstAt(volumes[1..], i - 1);
      assert volumes[..i] == [volumes[0]] + volumes[1..][..i - 1] && volumes[1..][i..] == volumes[i + 1..];
    }
  }

  lemma {:induction false} RemoveNone(volumes: seq<Volume>)
    requires !HasKubeAccess(volumes)
    ensures RemoveFirst(volumes) == volumes
  {
    if volumes != [] {
      assert !IsKubeAccess(volumes[0]);
      forall j | 0 <= j < |volumes[1..]| ensures !IsKubeAccess(volumes[1..][j]) { assert volumes[1..][j] == volumes[j + 1]; }
      RemoveNone(volumes[1..]);
    }
  }

  // ---------------------------------------------------------------------------------------------
  // Refresh
  // ---------------------------------------------------------------------------------------------

  method VisitSources(naming: Naming, sources: seq<Source>) returns (visited: seq<string>)
    ensures visited == Names(naming, SourceTokens(sources))
  {
    visited := [];
    for j := 0 to |sources|
      invariant visited == Names(naming, SourceTokens(sources[..j]))
    {
      SourceTokensStep(sources, j);
      if sources[j].token.Some? { visited := visited + [naming.ofToken(sources[j].token.value)]; }
    }
    assert sources[..|sources|] == sources;
  }

  /** The host secrets that a refresh of the virtual pod's tokens looks at, in order. */
  method RefreshPodTokens(naming: Naming, virtualVolumes: seq<Volume>) returns (visited: seq<string>)
    ensures visited == VisitedSecrets(naming, virtualVolumes)
    ensures HasKubeAccess(virtualVolumes) ==> visited != [] && visited[0] == naming.ofKubeAccess
  {
    visited := [];
    var found := FindKubeAccess(virtualVolumes);
    if found { visited := [naming.ofKubeAccess]; }
    var projected := VisitVolumes(naming, virtualVolumes);
    visited := visited + projected;
  }

  method VisitVolumes(naming: Naming, volumes: seq<Volume>) returns (visited: seq<string>)
    ensures visited == Names(naming, ProjectedTokens(volumes))
  {
    visited := [];
    for i := 0 to |volumes|
      invariant visited == Names(naming, ProjectedTokens(volumes[..i]))
    {
      ProjectedTokensStep(volumes, i);
      if IsKubeAccess(volumes[i]) || volumes[i].projected.None? { continue; }
      NamesAppend(naming, ProjectedTokens(volumes[..i]), TokensOf(volumes[i]));
      var more := VisitSources(naming, volumes[i].projected.value);
      visited := visited + more;
    }
    assert volumes[..|volumes|] == volumes;
  }

  /** What the translation of volumes to the host cluster leaves alone: volume names, and the tokens in their places. */
  predicate SameTokens(virtualVolumes: seq<Volume>, hostVolumes: seq<Volume>) {
    && |virtualVolumes| == |hostVolumes|
    && forall i :: 0 <= i < |hostVolumes| ==>
         hostVolumes[i].name == virtualVolumes[i].name && SameSources(virtualVolumes[i].projected, hostVolumes[i].projected)
  }

  predicate SameSources(a: Option<seq<Source>>, b: Option<seq<Source>>) {
    (a.Some? <==> b.Some?)
    && (a.Some? ==> |a.value| == |b.value| && forall j :: 0 <= j < |b.value| ==> b.value[j].token == a.value[j].token)
  }

  lemma {:induction false} SameSourceTokens(a: seq<Source>, b: seq<Source>)
    requires |a| == |b| && forall j :: 0 <= j < |b| ==> b[j].token == a[j].token
    ensures SourceTokens(a) == SourceTokens(b)
  {
    if a != [] { SameSourceTokens(a[1..], b[1..]); }
  }

  lemma {:induction false} SameProjectedTokens(a: seq<Volume>, b: seq<Volume>)
    requires SameTokens(a, b)
    ensures ProjectedTokens(a) == ProjectedTokens(b)
  {
    if a != [] {
      assert SameSources(a[0].projected, b[0].projected);
      if a[0].projected.Some? { SameSourceTokens(a[0].projected.value, b[0].projected.value); }
      SameProjectedTokens(a[1..], b[1..]);
    }
  }

  lemma SameKubeAccess(a: seq<Volume>, b: seq<Volume>)
    requires SameTokens(a, b)
    ensures HasKubeAccess(a) <==> HasKubeAccess(b)
  {
  }

  /** What the creation of a pod returns, and what a refresh of its tokens visits. */
  function CreatedSecrets(n: Naming, hostVolumes: seq<Volume>): seq<string> {
    Names(n, ProjectedTokens(hostVolumes)) + if HasKubeAccess(hostVolumes) then [n.ofKubeAccess] else []
  }

  function VisitedSecrets(n: Naming, virtualVolumes: seq<Volume>): seq<string> {
    (if HasKubeAccess(virtualVolumes) then [n.ofKubeAccess] else []) + Names(n, ProjectedTokens(virtualVolumes))
  }

  /** The secrets that a refresh visits are exactly those that the creation returned, each as often, although the one
      goes through the virtual pod's volumes and the other through the host pod's. */
  lemma RefreshCoversCreation(n: Naming, virtualVolumes: seq<Volume>, hostVolumes: seq<Volume>)
    requires SameTokens(virtualVolumes, hostVolumes)
    ensures multiset(CreatedSecrets(n, hostVolumes)) == multiset(VisitedSecrets(n, virtualVolumes))
  {
    SameKubeAccess(virtualVolumes, hostVolumes);
    SameProjectedTokens(virtualVolumes, hostVolumes);
  }

  // ---------------------------------------------------------------------------------------------
  // What is mounted
  // ---------------------------------------------------------------------------------------------

  /** A place where a token is replaced. */
  predicate TokenAt(volumes: seq<Volume>, i: int, j: int) {
    && 0 <= i < |volumes| && !HasPrefix(volumes[i].name, "kube-api-access") && volumes[i].projected.Some?
    && 0 <= j < |volumes[i].projected.value| && volumes[i].projected.value[j].token.Some?
  }

  /** A token gives way to the secret with its name; nothing else of the volume changes. */
  predicate Replaced(n: Naming, v: Volume, v': Volume) {
    && v'.name == v.name && v'.other == v.other && (v'.projected.Some? <==> v.projected.Some?)
    && (HasPrefix(v.name, "kube-api-access") ==> v' == v)
    && (v.projected.Some? && !HasPrefix(v.name, "kube-api-access") ==>
          && |v'.projected.value| == |v.projected.value|
          && forall j :: 0 <= j < |v.projected.value| ==> Mounts(n, v.projected.value[j], v'.projected.value[j]))
  }

  predicate Mounts(n: Naming, s: Source, s': Source) {
    s'.other == s.other && s'.token.None? &&
    s'.secret == if s.token.Some? then Some(n.ofToken(s.token.value)) else s.secret
  }

  /** How many tokens come before the place. */
  function Rank(volumes: seq<Volume>, i: nat, j: nat): nat
    requires TokenAt(volumes, i, j)
  {
    |ProjectedTokens(volumes[..i])| + |SourceTokens(volumes[i].projected.value[..j])|
  }

  lemma {:induction false} SourcePrefix(sources: seq<Source>, a: nat, b: nat)
    requires a <= b <= |sources|
    ensures SourceTokens(sources[..a]) <= SourceTokens(sources[..b])
    decreases b
  {
    if a < b { SourcePrefix(sources, a, b - 1); SourceTokensStep(sources, b - 1); }
  }

  lemma {:induction false} VolumePrefix(volumes: seq<Volume>, a: nat, b: nat)
    requires a <= b <= |volumes|
    ensures ProjectedTokens(volumes[..a]) <= ProjectedTokens(volumes[..b])
    decreases b
  {
    if a < b { VolumePrefix(volumes, a, b - 1); ProjectedTokensStep(volumes, b - 1); }
  }

  /** The token is the one at its rank, within its volume and among all. */
  lemma TokenAtRank(volumes: seq<Volume>, i: nat, j: nat)
    requires TokenAt(volumes, i, j)
    ensures Rank(volumes, i, j) < |ProjectedTokens(volumes[..i + 1])| <= |ProjectedTokens(volumes)|
    ensures ProjectedTokens(volumes)[Rank(volumes, i, j)] == volumes[i].projected.value[j].token.value
  {
    var sources := volumes[i].projected.value;
    SourceTokensStep(sources, j);
    SourcePrefix(sources, j + 1, |sources|);
    assert sources[..|sources|] == sources;
    ProjectedTokensStep(volumes, i);
    VolumePrefix(volumes, i + 1, |volumes|);
    assert volumes[..|volumes|] == volumes;
  }

  /** A later place has a higher rank. */
  lemma RankGrows(volumes: seq<Volume>, i: nat, j: nat, i': nat, j': nat)
    requires TokenAt(volumes, i, j) && TokenAt(volumes, i', j') && (i < i' || (i == i' && j < j'))
    ensures Rank(volumes, i, j) < Rank(volumes, i', j')
  {
    TokenAtRank(volumes, i, j);
    if i < i' {
      VolumePrefix(volumes, i + 1, i');
    } else {
      SourceTokensStep(volumes[i].projected.value, j);
      SourcePrefix(volumes[i].projected.value, j + 1, j');
    }
  }

  lemma {:induction false} SourceOfRank(sources: seq<Source>, m: nat, x: nat) returns (j: nat)
    requires m <= |sources| && x < |SourceTokens(sources[..m])|
    ensures j < m && sources[j].token.Some? && |SourceTokens(sources[..j])| == x
    decreases m
  {
    SourceTokensStep(sources, m - 1);
    if x < |SourceTokens(sources[..m - 1])| { j := SourceOfRank(sources, m - 1, x); } else { j := m - 1; }
  }

  /** Every rank is that of a place. */
  lemma {:induction false} PlaceOfRank(volumes: seq<Volume>, m: nat, x: nat) returns (i: nat, j: nat)
    requires m <= |volumes| && x < |ProjectedTokens(volumes[..m])|
    ensures TokenAt(volumes, i, j) && Rank(volumes, i, j) == x
    decreases m
  {
    ProjectedTokensStep(volumes, m - 1);
    if x < |ProjectedTokens(volumes[..m - 1])| {
      i, j := PlaceOfRank(volumes, m - 1, x);
    } else {
      var sources := volumes[m - 1].projected.value;
      assert sources[..|sources|] == sources;
      i := m - 1;
      j := SourceOfRank(sources, |sources|, x - |ProjectedTokens(volumes[..m - 1])|);
    }
  }

  predicate HasRank(volumes: seq<Volume>, x: int, i: int, j: int) {
    TokenAt(volumes, i, j) && Rank(volumes, i, j) == x
  }

  ghost predicate IsRank(volumes: seq<Volume>, x: int) {
    exists i, j :: HasRank(volumes, x, i, j)
  }

  lemma RankExactly(volumes: seq<Volume>, x: int)
    ensures IsRank(volumes, x) <==> 0 <= x < |ProjectedTokens(volumes)|
  {
    if 0 <= x < |ProjectedTokens(volumes)| {
      assert volumes[..|volumes|] == volumes;
      var i, j := PlaceOfRank(volumes, |volumes|, x);
      assert HasRank(volumes, x, i, j);
    }
    if IsRank(volumes, x) {
      var i, j :| HasRank(volumes, x, i, j);
      TokenAtRank(volumes, i, j);
    }
  }

  /** The ranks are the positions of the places in their order, without gaps. */
  lemma RanksInOrder(volumes: seq<Volume>)
    ensures forall x :: IsRank(volumes, x) <==> 0 <= x < |ProjectedTokens(volumes)|
    ensures forall i, j, i', j' :: TokenAt(volumes, i, j) && TokenAt(volumes, i', j') ==>
      (Rank(volumes, i, j) < Rank(volumes, i', j') <==> i < i' || (i == i' && j < j'))
  {
    forall x ensures IsRank(volumes, x) <==> 0 <= x < |ProjectedTokens(volumes)| { RankExactly(volumes, x); }
    forall i, j, i', j' | TokenAt(volumes, i, j) && TokenAt(volumes, i', j')
      ensures Rank(volumes, i, j) < Rank(volumes, i', j') <==> i < i' || (i == i' && j < j')
    {
      if i < i' || (i == i' && j < j') { RankGrows(volumes, i, j, i', j'); }
      else if i' < i || j' < j { RankGrows(volumes, i', j', i, j); }
    }
  }

  /** The volumes of the host pod: all of them with their tokens replaced, but for the first kube-api-access volume, which
      gives way to one with the secret for it at the end. */
  ghost predicate MountsVolumes(n: Naming, before: seq<Volume>, after: seq<Volume>) {
    && |after| == |before|
    && (!HasKubeAccess(before) ==> forall i :: 0 <= i < |before| ==> Replaced(n, before[i], after[i]))
    && forall f: nat :: IsFirst(before, f) ==> MountsFrom(n, before, f, after)
  }

  predicate MountsFrom(n: Naming, before: seq<Volume>, f: nat, after: seq<Volume>)
    requires f < |before| == |after|
  {
    && after[|after| - 1] == Volume("k3k-kube-api-access", None, n.ofKubeAccess)
    && forall i :: 0 <= i < |after| - 1 ==> Replaced(n, before[if i < f then i else i + 1], after[i])
  }

  /** The names are those of the replaced tokens, one for each, in the order of their places, and that of the secret for
      kube-api-access comes last. */
  ghost predicate NamesMounted(n: Naming, before: seq<Volume>, names: seq<string>) {
    && |names| == |ProjectedTokens(before)| + (if HasKubeAccess(before) then 1 else 0)
    && (HasKubeAccess(before) ==> names[|names| - 1] == n.ofKubeAccess)
    && forall i, j :: TokenAt(before, i, j) ==>
         Rank(before, i, j) < |names| && names[Rank(before, i, j)] == n.ofToken(before[i].projected.value[j].token.value)
  }

  ghost predicate MountsNames(n: Naming, before: seq<Volume>, after: seq<Volume>, names: seq<string>) {
    MountsVolumes(n, before, after) && NamesMounted(n, before, names)
  }

  lemma DoneReplaced(n: Naming, v: Volume)
    ensures Replaced(n, v, VolumeDone(n, v))
  {
  }

  lemma MountedAt(n: Naming, volumes: seq<Volume>, f: nat, i: nat)
    requires IsFirst(volumes, f) && i < |volumes| - 1
    ensures |Transformed(n, volumes)| == |volumes| && Replaced(n, volumes[if i < f then i else i + 1], Transformed(n, volumes)[i])
  {
    RestAt(n, volumes, f, i);
    var rest := RemoveFirst(AllDone(n, volumes));
    assert Transformed(n, volumes)[i] == rest[i];
    DoneReplaced(n, volumes[if i < f then i else i + 1]);
  }

  lemma LastMounted(n: Naming, volumes: seq<Volume>)
    requires HasKubeAccess(volumes)
    ensures var after := Transformed(n, volumes);
      after != [] && after[|after| - 1] == Volume("k3k-kube-api-access", None, n.ofKubeAccess)
  {
    assert "k3k-" + KUBE_ACCESS == "k3k-kube-api-access";
  }

  lemma MountedFrom(n: Naming, volumes: seq<Volume>, f: nat)
    requires IsFirst(volumes, f)
    ensures |Transformed(n, volumes)| == |volumes| && MountsFrom(n, volumes, f, Transformed(n, volumes))
  {
    var after := Transformed(n, volumes);
    RestAt(n, volumes, f, 0);
    LastMounted(n, volumes);
    forall i | 0 <= i < |volumes| - 1 ensures Replaced(n, volumes[if i < f then i else i + 1], after[i]) {
      MountedAt(n, volumes, f, i);
    }
  }

  lemma VolumesMounted(n: Naming, volumes: seq<Volume>)
    ensures MountsVolumes(n, volumes, Transformed(n, volumes))
  {
    if i :| 0 <= i < |volumes| && IsKubeAccess(volumes[i]) {
      var f := FirstUpTo(volumes, i);
      MountedFrom(n, volumes, f);
    } else {
      forall i | 0 <= i < |volumes| ensures Replaced(n, volumes[i], AllDone(n, volumes)[i]) { DoneReplaced(n, volumes[i]); }
    }
    forall f: nat | IsFirst(volumes, f) ensures |Transformed(n, volumes)| == |volumes| && MountsFrom(n, volumes, f, Transformed(n, volumes)) {
      MountedFrom(n, volumes, f);
    }
  }

  lemma TransformedMounts(n: Naming, volumes: seq<Volume>)
    ensures MountsNames(n, volumes, Transformed(n, volumes), CreatedSecrets(n, volumes))
  {
    VolumesMounted(n, volumes);
    forall i, j | TokenAt(volumes, i, j)
      ensures var rank, names := Rank(volumes, i, j), CreatedSecrets(n, volumes);
        rank < |names| && names[rank] == n.ofToken(volumes[i].projected.value[j].token.value)
    {
      TokenAtRank(volumes, i, j);
    }
  }

  // ---------------------------------------------------------------------------------------------
  // What stays behind
  // ---------------------------------------------------------------------------------------------

  predicate AnyToken(volumes: seq<Volume>) {
    exists i :: 0 <= i < |volumes| && TokensOf(volumes[i]) != []
  }

  /** A kube-api-access volume after the first one. */
  predicate LaterKubeAccess(volumes: seq<Volume>, i: int) {
    0 <= i < |volumes| && IsKubeAccess(volumes[i]) && exists j :: 0 <= j < i && IsKubeAccess(volumes[j])
  }

  lemma {:induction false} NoTokenIffEmpty(sources: seq<Source>)
    ensures SourceTokens(sources) == [] <==> forall j :: 0 <= j < |sources| ==> sources[j].token.None?
  {
    if sources != [] {
      NoTokenIffEmpty(sources[1..]);
      assert forall j :: 0 < j < |sources| ==> sources[j] == sources[1..][j - 1];
    }
  }

  lemma DoneHasToken(n: Naming, v: Volume)
    ensures TokensOf(VolumeDone(n, v)) != [] <==> IsKubeAccess(v) && TokensOf(v) != []
  {
    if !IsKubeAccess(v) && v.projected.Some? { NoTokenIffEmpty(VolumeDone(n, v).projected.value); }
  }

  predicate IsFirst(volumes: seq<Volume>, f: nat) {
    f < |volumes| && IsKubeAccess(volumes[f]) && forall j :: 0 <= j < f ==> !IsKubeAccess(volumes[j])
  }

  lemma {:induction false} FirstUpTo(volumes: seq<Volume>, j: nat) returns (f: nat)
    requires j < |volumes| && IsKubeAccess(volumes[j])
    ensures f <= j && IsFirst(volumes, f)
    decreases j
  {
    f := j;
    if i :| 0 <= i < j && IsKubeAccess(volumes[i]) { f := FirstUpTo(volumes, i); }
  }

  lemma RestAt(n: Naming, volumes: seq<Volume>, f: nat, i: nat)
    requires IsFirst(volumes, f)
    ensures |RemoveFirst(AllDone(n, volumes))| == |volumes| - 1
    ensures i < |volumes| - 1 ==>
      RemoveFirst(AllDone(n, volumes))[i] == VolumeDone(n, volumes[if i < f then i else i + 1])
  {
    var done := AllDone(n, volumes);
    assert done[f].name == volumes[f].name && forall j :: 0 <= j < f ==> done[j].name == volumes[j].name;
    RemoveFirstAt(done, f);
  }

  predicate Left(n: Naming, volumes: seq<Volume>, i: nat) {
    i < |Transformed(n, volumes)| && TokensOf(Transformed(n, volumes)[i]) != []
  }

  /** Where the volumes are after the first kube-api-access volume is replaced, and which of them have tokens. */
  lemma TransformedAt(n: Naming, volumes: seq<Volume>, f: nat, i: nat)
    requires IsFirst(volumes, f)
    ensures Left(n, volumes, i) <==>
      i < |volumes| - 1 && var k := if i < f then i else i + 1; IsKubeAccess(volumes[k]) && TokensOf(volumes[k]) != []
  {
    var rest := RemoveFirst(AllDone(n, volumes));
    RestAt(n, volumes, f, i);
    if i < |volumes| - 1 {
      assert Transformed(n, volumes)[i] == rest[i];
      DoneHasToken(n, volumes[if i < f then i else i + 1]);
    }
  }

  predicate LaterToken(volumes: seq<Volume>, i: int) {
    LaterKubeAccess(volumes, i) && TokensOf(volumes[i]) != []
  }

  lemma LeftoverIsLater(n: Naming, volumes: seq<Volume>, i: nat)
    requires HasKubeAccess(volumes) && Left(n, volumes, i)
    ensures LaterToken(volumes, i + 1)
  {
    var j :| 0 <= j < |volumes| && IsKubeAccess(volumes[j]);
    var f := FirstUpTo(volumes, j);
    TransformedAt(n, volumes, f, i);
    assert i >= f;
  }

  lemma LaterIsLeftover(n: Naming, volumes: seq<Volume>, i: nat, j: nat)
    requires j < i < |volumes| && IsKubeAccess(volumes[j]) && IsKubeAccess(volumes[i]) && TokensOf(volumes[i]) != []
    ensures Left(n, volumes, i - 1)
  {
    var f := FirstUpTo(volumes, j);
    TransformedAt(n, volumes, f, i - 1);
  }

  /** Only the first kube-api-access volume is replaced: the host pod still asks for a service account token of the host
      cluster exactly when a later such volume does. */
  lemma LeftoverTokens(n: Naming, volumes: seq<Volume>)
    ensures AnyToken(Transformed(n, volumes)) <==> exists i :: LaterToken(volumes, i)
  {
    if AnyToken(Transformed(n, volumes)) {
      var i :| 0 <= i < |Transformed(n, volumes)| && TokensOf(Transformed(n, volumes)[i]) != [];
      assert Left(n, volumes, i);
      if HasKubeAccess(volumes) { LeftoverIsLater(n, volumes, i); } else { DoneHasToken(n, volumes[i]); }
    }
    if i :| LaterToken(volumes, i) {
      var j :| 0 <= j < i && IsKubeAccess(volumes[j]);
      LaterIsLeftover(n, volumes, i, j);
    }
  }

  /** It happens: of two kube-api-access volumes with a token each, the second one's stays. */
  lemma SecondKubeAccessStays(n: Naming, token: Token)
    ensures var source := Source(Some(token), None, "");
      AnyToken(Transformed(n, [Volume(KUBE_ACCESS + "-a", Some([source]), ""), Volume(KUBE_ACCESS + "-b", Some([source]), "")]))
  {
    var source := Source(Some(token), None, "");
    var volumes := [Volume(KUBE_ACCESS + "-a", Some([source]), ""), Volume(KUBE_ACCESS + "-b", Some([source]), "")];
    assert IsKubeAccess(volumes[0]) && IsKubeAccess(volumes[1]);
    assert LaterKubeAccess(volumes, 1);
    assert SourceTokens([source]) == [token] + SourceTokens([source][1..]);
    assert LaterToken(volumes, 1);
    LeftoverTokens(n, volumes);
  }
}
