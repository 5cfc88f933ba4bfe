/** Byte-wise ordered strings, the way Go compares, sorts and trims them. */
module Text {

  /** Go's `<` on strings: the first differing byte decides, and a proper prefix comes first. */
  predicate Before(a: string, b: string) {
    if b == [] then false
    else if a == [] then true
    else a[0] < b[0] || (a[0] == b[0] && Before(a[1..], b[1..]))
  }

  /** At position `i` it is decided that `a` comes first: there the two differ, or only `b` goes on. */
  predicate DecidedAt(a: string, b: string, i: int) {
    0 <= i <= |a| && i < |b| && a[..i] == b[..i] && (i < |a| ==> a[i] < b[i])
  }

  lemma {:induction false} BeforeIsDecided(a: string, b: string)
    ensures Before(a, b) <==> exists i :: DecidedAt(a, b, i)
  {
    if a == [] {
      if b != [] { assert DecidedAt(a, b, 0); }
    } else if b != [] {
      BeforeIsDecided(a[1..], b[1..]);
      assert a[0] < b[0] ==> DecidedAt(a, b, 0);
      if a[0] == b[0] { DecidedLater(a, b); }
      if a[0] != b[0] { assert forall i :: DecidedAt(a, b, i) && i > 0 ==> a[..i][0] == b[..i][0]; }
    }
  }

  lemma DecidedLater(a: string, b: string)
    requires a != [] && b != [] && a[0] == b[0]
    ensures (exists i :: DecidedAt(a, b, i)) <==> (exists i :: DecidedAt(a[1..], b[1..], i))
  {
    forall i ensures DecidedAt(a, b, i + 1) && i >= 0 <==> DecidedAt(a[1..], b[1..], i) {
      if 0 <= i <= |a| - 1 && i < |b| - 1 {
        assert a[..i + 1] == [a[0]] + a[1..][..i] && b[..i + 1] == [b[0]] + b[1..][..i];
      }
    }
    if i :| DecidedAt(a, b, i) {
      assert i > 0 && i == (i - 1) + 1;
      assert DecidedAt(a[1..], b[1..], i - 1);
    }
    if i :| DecidedAt(a[1..], b[1..], i) { assert DecidedAt(a, b, i + 1); }
  }

  lemma {:induction false} BeforeIrreflexive(a: string)
    ensures !Before(a, a)
  {
    if a != [] { BeforeIrreflexive(a[1..]); }
  }

  lemma {:induction false} BeforeTransitive(a: string, b: string, c: string)
    requires Before(a, b) && Before(b, c)
    ensures Before(a, c)
  {
    if a != [] && a[0] == b[0] && b[0] == c[0] { BeforeTransitive(a[1..], b[1..], c[1..]); }
  }

  lemma {:induction false} BeforeTotal(a: string, b: string)
    ensures a == b || Before(a, b) || Before(b, a)
  {
    if a != [] && b != [] && a[0] == b[0] {
      BeforeTotal(a[1..], b[1..]);
      assert a == [a[0]] + a[1..] && b == [b[0]] + b[1..];
    }
  }

  predicate Ascending(s: seq<string>) {
    forall i, j :: 0 <= i < j < |s| ==> Before(s[i], s[j])
  }

  ghost predicate Lists(s: seq<string>, names: set<string>) {
    Ascending(s) && forall x :: x in s <==> x in names
  }

  /** The position at which `x` keeps `s` ascending. */
  function Insert(x: string, s: seq<string>): seq<string> {
    if s == [] then [x]
    else if Before(x, s[0]) then [x] + s
    else [s[0]] + Insert(x, s[1..])
  }

  lemma {:induction false} InsertKeepsOrder(x: string, s: seq<string>)
    requires Ascending(s) && x !in s
    ensures Ascending(Insert(x, s))
    ensures forall y :: y in Insert(x, s) <==> y == x || y in s
  {
    if s != [] {
      if Before(x, s[0]) {
        forall j | 0 <= j < |s| ensures Before(x, s[j]) {
          if j > 0 { BeforeTransitive(x, s[0], s[j]); }
        }
      } else {
        InsertKeepsOrder(x, s[1..]);
        BeforeTotal(x, s[0]);
        var rest := Insert(x, s[1..]);
        forall y | y in rest ensures Before(s[0], y) {
          assert y == x || y in s[1..];
        }
        assert forall y :: y in s <==> y == s[0] || y in s[1..];
      }
    }
  }

  lemma {:induction false} ListingExists(names: set<string>)
    ensures exists s :: Lists(s, names)
  {
    if names == {} {
      assert Lists([], names);
    } else {
      var x :| x in names;
      ListingExists(names - {x});
      var rest :| Lists(rest, names - {x});
      InsertKeepsOrder(x, rest);
      assert Lists(Insert(x, rest), names);
    }
  }

  /** The names of a set in ascending order. */
  ghost function Listing(names: set<string>): (s: seq<string>)
    ensures Lists(s, names)
  {
    ListingExists(names);
    var s :| Lists(s, names);
    s
  }

  /** An ascending enumeration is determined by the set it enumerates. */
  lemma {:induction false} ListingUnique(s: seq<string>, t: seq<string>)
    requires Ascending(s) && Ascending(t)
    requires forall x :: x in s <==> x in t
    ensures s == t
  {
    if s == [] {
      assert forall i :: 0 <= i < |t| ==> t[i] in t;
    } else {
      assert s[0] in t;
      assert t[0] in s;
      HeadIsLeast(s, t);
      forall x ensures x in s[1..] <==> x in t[1..] {
        BeforeIrreflexive(s[0]);
        assert x in s <==> x == s[0] || x in s[1..];
        assert x in t <==> x == t[0] || x in t[1..];
      }
      ListingUnique(s[1..], t[1..]);
      assert s == [s[0]] + s[1..] && t == [t[0]] + t[1..];
    }
  }

  lemma HeadIsLeast(s: seq<string>, t: seq<string>)
    requires Ascending(s) && Ascending(t) && s != [] && t != []
    requires s[0] in t && t[0] in s
    ensures s[0] == t[0]
  {
    if s[0] != t[0] {
      assert Before(t[0], s[0]) && Before(s[0], t[0]);
      BeforeTransitive(s[0], t[0], s[0]);
      BeforeIrreflexive(s[0]);
    }
  }

  /** `slices.Sort` on pairwise distinct names, as an insertion sort. */
  method SortNames(names: seq<string>) returns (sorted: seq<string>)
    requires forall i, j :: 0 <= i < j < |names| ==> names[i] != names[j]
    ensures sorted == Listing(set x | x in names)
  {
    sorted := [];
    for i := 0 to |names|
      invariant Ascending(sorted)
      invariant forall x :: x in sorted <==> x in names[..i]
    {
      InsertKeepsOrder(names[i], sorted);
      sorted := Insert(names[i], sorted);
      assert names[..i + 1] == names[..i] + [names[i]];
    }
    assert names[..|names|] == names;
    ListingUnique(sorted, Listing(set x | x in names));
  }

  /** `strings.HasPrefix`. */
  predicate HasPrefix(s: string, prefix: string) {
    |prefix| <= |s| && s[..|prefix|] == prefix
  }

  /** `strings.TrimPrefix`. */
  function TrimPrefix(s: string, prefix: string): string {
    if HasPrefix(s, prefix) then s[|prefix|..] else s
  }

  /** `strings.Join`. */
  function Join(parts: seq<string>, sep: string): string {
    if |parts| == 0 then ""
    else if |parts| == 1 then parts[0]
    else parts[0] + sep + Join(parts[1..], sep)
  }

  /** The first position of `c`, or the length of `s` when it has none. */
  function IndexOf(s: string, c: char): (i: nat)
    ensures i <= |s| && (i < |s| ==> s[i] == c)
    ensures forall k :: 0 <= k < i ==> s[k] != c
  {
    if s == "" || s[0] == c then 0 else 1 + IndexOf(s[1..], c)
  }

  lemma {:induction false} CutAtFirst(a: string, c: char, b: string)
    requires c !in a
    ensures IndexOf(a + [c] + b, c) == |a|
  {
    if a != "" {
      CutAtFirst(a[1..], c, b);
      assert (a + [c] + b)[1..] == a[1..] + [c] + b;
    }
  }
}
