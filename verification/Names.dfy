/** Length-safe names, and the names that virtual objects get in the host cluster. */
module Names {
  import opened Basics
  import opened Text

  /** A Go string is a sequence of bytes. */
  predicate IsGoString(s: string) {
    forall i :: 0 <= i < |s| ==> s[i] as int < 256
  }

  /** SHA-256 as a parameter: only the size of its result matters. */
  type Sha256 = f: string -> string | forall s :: |f(s)| == 32 && IsGoString(f(s)) witness (s: string) => seq(32, _ => '0')

  predicate HexChar(c: char) {
    '0' <= c <= '9' || 'a' <= c <= 'f'
  }

  /** `hex.EncodeToString`. */
  function Hex(s: string): (h: string)
    requires IsGoString(s)
    ensures |h| == 2 * |s|
    ensures forall i :: 0 <= i < |h| ==> HexChar(h[i])
  {
    if s == [] then []
    else [Digit(s[0] as int / 16), Digit(s[0] as int % 16)] + Hex(s[1..])
  }

  /** Two digits for each byte, the high half first. */
  lemma {:induction false} HexDecodes(s: string, i: nat)
    requires IsGoString(s) && i < |s|
    ensures 16 * Nibble(Hex(s)[2 * i]) + Nibble(Hex(s)[2 * i + 1]) == s[i] as int && Nibble(Hex(s)[2 * i + 1]) < 16
  {
    var rest := Hex(s[1..]);
    assert Hex(s)[2..] == rest;
    if i > 0 {
      HexDecodes(s[1..], i - 1);
      assert Hex(s)[2 * i] == rest[2 * (i - 1)] && Hex(s)[2 * i + 1] == rest[2 * (i - 1) + 1];
    }
  }

  lemma {:induction false} HexInjective(s: string, t: string)
    requires IsGoString(s) && IsGoString(t) && Hex(s) == Hex(t)
    ensures s == t
  {
    assert |s| == |t|;
    if s != [] {
      var a, b := s[0] as int, t[0] as int;
      assert Hex(s)[0] == Digit(a / 16) && Hex(s)[1] == Digit(a % 16) && Hex(s)[2..] == Hex(s[1..]);
      assert Hex(t)[0] == Digit(b / 16) && Hex(t)[1] == Digit(b % 16) && Hex(t)[2..] == Hex(t[1..]);
      HexInjective(s[1..], t[1..]);
      assert s == [s[0]] + s[1..] && t == [t[0]] + t[1..];
    }
  }

  predicate LowerAlnum(c: char) {
    'a' <= c <= 'z' || '0' <= c <= '9'
  }

  function DropEmpty(names: seq<string>): seq<string> {
    if names == [] then []
    else if names[0] == "" then DropEmpty(names[1..])
    else [names[0]] + DropEmpty(names[1..])
  }

  /** A name of 64 bytes or more is cut, and completed with the start of its digest. */
  function Shorten(sha: Sha256, full: string): string {
    if |full| < 64 then full
    else if LowerAlnum(full[56]) then full[..57] + "-" + Hex(sha(full))[..5]
    else full[..56] + "-" + Hex(sha(full))[..6]
  }

  function SafeConcatName(sha: Sha256, names: seq<string>): string {
    Shorten(sha, Join(DropEmpty(names), "-"))
  }

  function SafeConcatNameWithPrefix(sha: Sha256, names: seq<string>): string {
    SafeConcatName(sha, ["k3k"] + names)
  }

  /** The identity of an object of a virtual cluster; the namespace is empty for cluster-scoped objects. */
  datatype VirtualName = VirtualName(namespace: string, name: string, cluster: string) {
    predicate IsGo() {
      IsGoString(namespace) && IsGoString(name) && IsGoString(cluster)
    }

    function Parts(): seq<string> {
      if namespace == "" then [name, cluster] else [name, namespace, cluster]
    }
  }

  lemma {:induction false} JoinIsGo(parts: seq<string>, sep: string)
    requires IsGoString(sep) && forall p :: p in parts ==> IsGoString(p)
    ensures IsGoString(Join(parts, sep))
  {
    if |parts| > 1 {
      JoinIsGo(parts[1..], sep);
      assert parts[0] in parts;
    } else if |parts| == 1 {
      assert parts[0] in parts;
    }
  }

  function NameKey(v: VirtualName): (k: string)
    requires v.IsGo()
    ensures IsGoString(k)
  {
    JoinIsGo(v.Parts(), "+");
    Join(v.Parts(), "+")
  }

  function TranslateName(sha: Sha256, v: VirtualName): string
    requires v.IsGo()
  {
    SafeConcatName(sha, [Join(v.Parts(), "-"), Hex(NameKey(v))])
  }

  /** The name before it is shortened. */
  function FullName(v: VirtualName): string
    requires v.IsGo()
  {
    Join(v.Parts(), "-") + "-" + Hex(NameKey(v))
  }

  lemma {:induction false} JoinLength(parts: seq<string>, s: string, t: string)
    requires |s| == |t|
    ensures |Join(parts, s)| == |Join(parts, t)|
  {
    if |parts| > 1 { JoinLength(parts[1..], s, t); }
  }

  lemma JoinAtLeastSeparator(v: VirtualName, sep: string)
    requires |sep| == 1
    ensures |Join(v.Parts(), sep)| >= 1
  {
  }

  lemma ConcatPair(sha: Sha256, p: string, h: string)
    requires p != "" && h != ""
    ensures SafeConcatName(sha, [p, h]) == Shorten(sha, p + "-" + h)
  {
    assert [p, h][1..] == [h] && [h][1..] == [];
    assert DropEmpty([h]) == [h];
    assert DropEmpty([p, h]) == [p, h];
    assert Join([h], "-") == h;
    assert Join([p, h], "-") == p + "-" + h;
  }

  /** An unshortened name is one byte more than three times as long as its key. */
  lemma FullNameShape(sha: Sha256, v: VirtualName)
    requires v.IsGo()
    ensures TranslateName(sha, v) == Shorten(sha, FullName(v))
    ensures |FullName(v)| == 3 * |NameKey(v)| + 1
    ensures |Join(v.Parts(), "-")| == |NameKey(v)| > 0
  {
    JoinAtLeastSeparator(v, "-");
    JoinLength(v.Parts(), "-", "+");
    ConcatPair(sha, Join(v.Parts(), "-"), Hex(NameKey(v)));
  }

  /** Joining with two different separators loses nothing: the first place where the joins differ ends the
      first part. No assumption on what the parts contain is needed. */
  lemma {:induction false} JoinsDecode(a: seq<string>, b: seq<string>)
    requires a != [] && b != []
    requires Join(a, "-") == Join(b, "-") && Join(a, "+") == Join(b, "+")
    ensures a == b
  {
    JoinLength(a, "-", "+");
    FirstSeparator(a);
    FirstSeparator(b);
    if |a| > 1 && |b| > 1 {
      assert |a[0]| == |b[0]|;
      var n := |a[0]|;
      assert a[0] == Join(a, "-")[..n] && b[0] == Join(b, "-")[..n];
      assert Join(a, "-")[n + 1..] == Join(a[1..], "-") && Join(b, "-")[n + 1..] == Join(b[1..], "-");
      assert Join(a, "+")[n + 1..] == Join(a[1..], "+") && Join(b, "+")[n + 1..] == Join(b[1..], "+");
      JoinsDecode(a[1..], b[1..]);
      assert a == [a[0]] + a[1..] && b == [b[0]] + b[1..];
    } else {
      assert |a| == 1 && |b| == 1;
    }
  }

  lemma FirstSeparator(a: seq<string>)
    requires a != []
    ensures |Join(a, "-")| == |Join(a, "+")| >= |a[0]|
    ensures |a| == 1 ==> Join(a, "-") == Join(a, "+")
    ensures |a| > 1 ==> |Join(a, "-")| > |a[0]| && Join(a, "-")[|a[0]|] != Join(a, "+")[|a[0]|]
    ensures forall i :: 0 <= i < |a[0]| ==> Join(a, "-")[i] == Join(a, "+")[i]
  {
  }

  /** The readable part names the object, its namespace if it has one, and its cluster; the digits encode the same. */
  lemma NameText(sha: Sha256, v: VirtualName)
    requires v.IsGo()
    ensures var dashed := if v.namespace == "" then v.name + "-" + v.cluster else v.name + "-" + v.namespace + "-" + v.cluster;
      var key := if v.namespace == "" then v.name + "+" + v.cluster else v.name + "+" + v.namespace + "+" + v.cluster;
      IsGoString(key) && TranslateName(sha, v) == Shorten(sha, dashed + "-" + Hex(key))
  {
    TwoParts(v.name, v.cluster);
    ThreeParts(v.name, v.namespace, v.cluster);
    FullNameShape(sha, v);
  }

  lemma TwoParts(a: string, b: string)
    ensures Join([a, b], "-") == a + "-" + b && Join([a, b], "+") == a + "+" + b
  {
    assert [a, b][1..] == [b];
  }

  lemma ThreeParts(a: string, b: string, c: string)
    ensures Join([a, b, c], "-") == a + "-" + b + "-" + c && Join([a, b, c], "+") == a + "+" + b + "+" + c
  {
    assert [a, b, c][1..] == [b, c];
    TwoParts(b, c);
  }

  /** A name below 64 bytes is left as it is. Of any other, 63 bytes are left: the first 56, one more if that one can stand
      before a '-', and as many digits of the digest as there is room for. */
  lemma ShortenText(sha: Sha256, full: string)
    ensures |full| < 64 ==> Shorten(sha, full) == full
    ensures |full| >= 64 ==>
      var short, digits := Shorten(sha, full), Hex(sha(full));
      && |short| == 63 && short[..56] == full[..56]
      && if LowerAlnum(full[56]) then short[56] == full[56] && short[57] == '-' && short[58..] == digits[..5]
         else short[56] == '-' && short[57..] == digits[..6]
  {
  }

  /** Empty names are ignored, and nothing else is. */
  lemma {:induction false} DropEmptyConcat(a: seq<string>, b: seq<string>)
    ensures DropEmpty(a + b) == DropEmpty(a) + DropEmpty(b)
  {
    if a == [] { assert a + b == b; } else { assert (a + b)[1..] == a[1..] + b; DropEmptyConcat(a[1..], b); }
  }

  /** Different virtual objects have different full names. */
  lemma FullNameInjective(v: VirtualName, w: VirtualName)
    requires v.IsGo() && w.IsGo() && FullName(v) == FullName(w)
    ensures v == w
  {
    JoinLength(v.Parts(), "-", "+");
    JoinLength(w.Parts(), "-", "+");
    SplitFull(Join(v.Parts(), "-"), Hex(NameKey(v)), Join(w.Parts(), "-"), Hex(NameKey(w)));
    HexInjective(NameKey(v), NameKey(w));
    JoinsDecode(v.Parts(), w.Parts());
  }

  /** The lengths alone say where the readable part ends. */
  lemma SplitFull(p: string, h: string, p': string, h': string)
    requires |h| == 2 * |p| && |h'| == 2 * |p'|
    requires p + "-" + h == p' + "-" + h'
    ensures p == p' && h == h'
  {
    var f := p + "-" + h;
    assert |f| == 3 * |p| + 1 == 3 * |p'| + 1;
    assert p == f[..|p|] && p' == f[..|p|];
    assert h == f[|p| + 1..] && h' == f[|p| + 1..];
  }

  /** Two different strings that are cut at the same place, look the same up to there, and share the digits kept
      of their digests. */
  predicate Confused(sha: Sha256, f: string, g: string) {
    && f != g && |f| >= 64 && |g| >= 64
    && LowerAlnum(f[56]) == LowerAlnum(g[56])
    && if LowerAlnum(f[56]) then f[..57] == g[..57] && Hex(sha(f))[..5] == Hex(sha(g))[..5]
       else f[..56] == g[..56] && Hex(sha(f))[..6] == Hex(sha(g))[..6]
  }

  lemma ShortenLength(sha: Sha256, full: string)
    ensures |Shorten(sha, full)| == if |full| < 64 then |full| else 63
  {
  }

  /** What a shortened name is made of, and which branch made it, can be read off it. */
  lemma CutParts(f: string, n: nat, h: string)
    requires n <= |f|
    ensures (f[..n] + "-" + h)[..n] == f[..n]
    ensures (f[..n] + "-" + h)[n] == '-'
    ensures (f[..n] + "-" + h)[n + 1..] == h
  {
  }

  /** Shortening confuses two different long strings only by a digest collision in the same branch. */
  lemma ShortenCollides(sha: Sha256, f: string, g: string)
    requires |f| >= 64 && |g| >= 64
    ensures Shorten(sha, f) == Shorten(sha, g) <==> f == g || Confused(sha, f, g)
  {
    var n, m := if LowerAlnum(f[56]) then 57 else 56, if LowerAlnum(g[56]) then 57 else 56;
    var h, k := Hex(sha(f))[..62 - n], Hex(sha(g))[..62 - m];
    assert Shorten(sha, f) == f[..n] + "-" + h && Shorten(sha, g) == g[..m] + "-" + k;
    CutParts(f, n, h);
    CutParts(g, m, k);
    if Shorten(sha, f) == Shorten(sha, g) {
      if LowerAlnum(f[56]) { BranchesDiffer(f, h, g, k); }
      if LowerAlnum(g[56]) { BranchesDiffer(g, k, f, h); }
      assert f[..n] == g[..n] && h == k;
    }
  }

  /** The byte at position 56 is alphanumeric in the one branch and a '-' in the other. */
  lemma BranchesDiffer(f: string, h: string, g: string, k: string)
    requires |f| >= 64 && |g| >= 64 && LowerAlnum(f[56])
    ensures f[..57] + "-" + h != g[..56] + "-" + k
  {
    assert (f[..57] + "-" + h)[56] == f[56] && (g[..56] + "-" + k)[56] == '-';
  }

  /** A name of length 63 is either cut or uncut, and one of length 3n + 1 never has that length. */
  lemma ShortenAgrees(sha: Sha256, f: string, g: string)
    requires |f| != 63 && |g| != 63
    ensures Shorten(sha, f) == Shorten(sha, g) <==> f == g || Confused(sha, f, g)
  {
    if |f| >= 64 && |g| >= 64 { ShortenCollides(sha, f, g); } else { ShortAgrees(sha, f, g); }
  }

  lemma ShortAgrees(sha: Sha256, f: string, g: string)
    requires |f| < 64 || |g| < 64
    requires |f| != 63 && |g| != 63
    ensures Shorten(sha, f) == Shorten(sha, g) <==> f == g
  {
  }

  /** Exactly when two virtual objects share a host name. */
  lemma TranslateNameCollides(sha: Sha256, v: VirtualName, w: VirtualName)
    requires v.IsGo() && w.IsGo()
    ensures TranslateName(sha, v) == TranslateName(sha, w) <==> v == w || Confused(sha, FullName(v), FullName(w))
    ensures TranslateName(sha, v) == TranslateName(sha, w) && v != w ==> |NameKey(v)| >= 21 && |NameKey(w)| >= 21
  {
    FullNameShape(sha, v);
    FullNameShape(sha, w);
    if FullName(v) == FullName(w) { FullNameInjective(v, w); }
    CollidesByLength(sha, FullName(v), |NameKey(v)|, FullName(w), |NameKey(w)|);
  }

  lemma CollidesByLength(sha: Sha256, f: string, n: nat, g: string, m: nat)
    requires |f| == 3 * n + 1 && |g| == 3 * m + 1
    ensures Shorten(sha, f) == Shorten(sha, g) <==> f == g || Confused(sha, f, g)
    ensures Confused(sha, f, g) ==> n >= 21 && m >= 21
  {
    ShortenAgrees(sha, f, g);
  }

  // ---------------------------------------------------------------------------------------------
  // Host names stay valid
  // ---------------------------------------------------------------------------------------------

  predicate LabelChar(c: char) {
    LowerAlnum(c) || c == '-'
  }

  predicate IsLabel(s: string) {
    s != "" && LowerAlnum(s[0]) && LowerAlnum(s[|s| - 1]) && forall c :: c in s ==> LabelChar(c)
  }

  /** `strings.Split(s, ".")`. */
  function Labels(s: string): seq<string>
    decreases |s|
  {
    var i := IndexOf(s, '.');
    if i == |s| then [s] else [s[..i]] + Labels(s[i + 1..])
  }

  /** A lower case host name of RFC 1123, section 2.1, as Kubernetes restricts it. */
  predicate IsHostName(s: string) {
    forall l :: l in Labels(s) ==> IsLabel(l)
  }

  /** The same, read off neighbouring characters. */
  predicate WellSpelled(s: string) {
    && s != "" && LowerAlnum(s[0]) && LowerAlnum(s[|s| - 1])
    && (forall i :: 0 <= i < |s| ==> LabelChar(s[i]) || s[i] == '.')
    && (forall i :: 0 < i < |s| && s[i] == '.' ==> LowerAlnum(s[i - 1]))
    && (forall i :: 0 <= i < |s| - 1 && s[i] == '.' ==> LowerAlnum(s[i + 1]))
  }

  lemma {:induction false} HostNameIsWellSpelled(s: string)
    ensures IsHostName(s) <==> WellSpelled(s)
    decreases |s|
  {
    var i := IndexOf(s, '.');
    if i == |s| {
      assert Labels(s) == [s];
      if IsLabel(s) { assert forall k :: 0 <= k < |s| ==> s[k] in s; }
      if WellSpelled(s) { assert forall c :: c in s ==> LabelChar(c); }
    } else {
      var head, tail := s[..i], s[i + 1..];
      HostNameIsWellSpelled(tail);
      assert IsHostName(s) <==> IsLabel(head) && IsHostName(tail) by {
        assert Labels(s)[0] == head && Labels(s)[1..] == Labels(tail);
        assert forall l :: l in Labels(s) <==> l == head || l in Labels(tail);
      }
      WellSpelledSplits(s, i);
    }
  }

  lemma WellSpelledSplits(s: string, i: nat)
    requires i < |s| && s[i] == '.' && forall k :: 0 <= k < i ==> s[k] != '.'
    ensures WellSpelled(s) <==> IsLabel(s[..i]) && WellSpelled(s[i + 1..])
  {
  }

  lemma WellSpelledJoin(a: string, b: string)
    requires WellSpelled(a) && WellSpelled(b)
    ensures WellSpelled(a + "-" + b)
  {
  }

  lemma DigitsWellSpelled(h: string)
    requires h != "" && forall i :: 0 <= i < |h| ==> HexChar(h[i])
    ensures WellSpelled(h)
  {
  }

  /** The cut never leaves a '-' or a '.' where the syntax does not allow it. */
  lemma ShortenWellSpelled(sha: Sha256, full: string)
    requires WellSpelled(full)
    ensures WellSpelled(Shorten(sha, full))
    ensures Shorten(sha, full)[0] == full[0]
  {
  }

  predicate ValidParts(v: VirtualName) {
    IsHostName(v.name) && IsHostName(v.cluster) && (v.namespace != "" ==> IsHostName(v.namespace))
  }

  lemma WellSpelledIsGo(s: string)
    requires WellSpelled(s)
    ensures IsGoString(s)
  {
  }

  lemma PartsWellSpelled(v: VirtualName)
    requires ValidParts(v)
    ensures WellSpelled(v.name) && WellSpelled(v.cluster) && (v.namespace != "" ==> WellSpelled(v.namespace))
    ensures v.IsGo()
  {
    HostNameIsWellSpelled(v.name);
    WellSpelledIsGo(v.name);
    HostNameIsWellSpelled(v.cluster);
    WellSpelledIsGo(v.cluster);
    if v.namespace != "" {
      HostNameIsWellSpelled(v.namespace);
      WellSpelledIsGo(v.namespace);
    }
  }

  lemma ReadableWellSpelled(v: VirtualName)
    requires WellSpelled(v.name) && WellSpelled(v.cluster) && (v.namespace != "" ==> WellSpelled(v.namespace))
    ensures WellSpelled(Join(v.Parts(), "-")) && Join(v.Parts(), "-")[0] == v.name[0]
  {
    assert [v.name, v.cluster][1..] == [v.cluster];
    assert [v.name, v.namespace, v.cluster][1..] == [v.namespace, v.cluster];
    assert [v.namespace, v.cluster][1..] == [v.cluster];
    if v.namespace == "" {
      WellSpelledJoin(v.name, v.cluster);
      assert Join(v.Parts(), "-") == v.name + "-" + v.cluster;
    } else {
      var rest := v.namespace + "-" + v.cluster;
      assert Join([v.namespace, v.cluster], "-") == rest;
      WellSpelledJoin(v.namespace, v.cluster);
      WellSpelledJoin(v.name, rest);
      assert Join(v.Parts(), "-") == v.name + "-" + rest;
    }
  }

  lemma FullNameWellSpelled(v: VirtualName)
    requires ValidParts(v) && v.IsGo()
    ensures WellSpelled(FullName(v)) && v.name != "" && FullName(v)[0] == v.name[0]
  {
    PartsWellSpelled(v);
    ReadableWellSpelled(v);
    var p, h := Join(v.Parts(), "-"), Hex(NameKey(v));
    JoinLength(v.Parts(), "-", "+");
    DigitsWellSpelled(h);
    WellSpelledJoin(p, h);
    assert FullName(v) == p + "-" + h;
  }

  /** The translation of valid names is a valid host name of at most 63 characters with the same first character. */
  lemma TranslateNameValid(sha: Sha256, v: VirtualName)
    requires ValidParts(v)
    ensures v.IsGo() && v.name != ""
    ensures IsHostName(TranslateName(sha, v)) && 0 < |TranslateName(sha, v)| <= 63
    ensures TranslateName(sha, v)[0] == v.name[0]
  {
    PartsWellSpelled(v);
    FullNameShape(sha, v);
    FullNameWellSpelled(v);
    var f := FullName(v);
    ShortenWellSpelled(sha, f);
    ShortenLength(sha, f);
    HostNameIsWellSpelled(Shorten(sha, f));
  }
}
