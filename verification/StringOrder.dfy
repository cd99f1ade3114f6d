/**
  The order of the program's strings, and the two ordered collections built on
  it: a `BTreeSet` collected into a vector (an ascending sequence without
  repeats) and a vector after `sort()`.
 */
module StringOrder {

  /** Lexicographic order by code point, which is the byte order of UTF-8. */
  predicate Less(a: string, b: string) {
    if b == "" then false
    else if a == "" then true
    else a[0] < b[0] || (a[0] == b[0] && Less(a[1..], b[1..]))
  }

  /** Where the strings first differ, the smaller ends or has the smaller character. */
  lemma {:induction false} LessIsLexicographic(a: string, b: string)
    ensures Less(a, b) <==> exists k :: 0 <= k <= |a| && FirstLess(a, b, k)
  {
    if a == "" || b == "" || a[0] != b[0] {
      assert FirstLess(a, b, 0) <==> Less(a, b);
    } else {
      LessIsLexicographic(a[1..], b[1..]);
      forall k | 0 <= k <= |a[1..]| ensures FirstLess(a[1..], b[1..], k) <==> FirstLess(a, b, k + 1) {
        if k < |b| {
          assert a[..k + 1] == [a[0]] + a[1..][..k] && b[..k + 1] == [b[0]] + b[1..][..k];
          assert a[1..][..k] == a[..k + 1][1..] && b[1..][..k] == b[..k + 1][1..];
        }
      }
      if Less(a, b) {
        var k :| 0 <= k <= |a[1..]| && FirstLess(a[1..], b[1..], k);
        assert FirstLess(a, b, k + 1);
      }
      if k :| 0 <= k <= |a| && FirstLess(a, b, k) {
        assert k > 0;
        assert FirstLess(a[1..], b[1..], k - 1);
      }
    }
  }

  /** The strings agree up to the index, and there the first ends early or is smaller. */
  predicate FirstLess(a: string, b: string, k: nat)
    requires k <= |a|
  {
    k < |b| && a[..k] == b[..k] && (k == |a| || a[k] < b[k])
  }

  lemma {:induction false} LessIrreflexive(a: string)
    ensures !Less(a, a)
  {
    if a == "" {
    } else {
      LessIrreflexive(a[1..]);
    }
  }

  lemma {:induction false} LessTransitive(a: string, b: string, c: string)
    requires Less(a, b) && Less(b, c)
    ensures Less(a, c)
  {
    if a != "" && a[0] == b[0] && b[0] == c[0] {
      LessTransitive(a[1..], b[1..], c[1..]);
    }
  }

  lemma {:induction false} LessTotal(a: string, b: string)
    ensures Less(a, b) || a == b || Less(b, a)
  {
    if a != "" && b != "" && a[0] == b[0] {
      LessTotal(a[1..], b[1..]);
      assert a == [a[0]] + a[1..] && b == [b[0]] + b[1..];
    }
  }

  // ---- BTreeSet ------------------------------------------------------------

  ghost predicate Ascending(s: seq<string>) {
    forall i, j :: 0 <= i < j < |s| ==> Less(s[i], s[j])
  }

  function Elements(s: seq<string>): set<string> {
    set x | x in s
  }

  /** `BTreeSet::insert` on the ascending contents. */
  function Insert(s: seq<string>, x: string): seq<string> {
    if s == [] || Less(x, s[0]) then [x] + s
    else if x == s[0] then s
    else [s[0]] + Insert(s[1..], x)
  }

  lemma ConsElements(x: string, s: seq<string>)
    ensures Elements([x] + s) == {x} + Elements(s)
  {
  }

  lemma {:induction false} ConsLess(x: string, s: seq<string>)
    requires Ascending(s) && s != [] && Less(x, s[0])
    ensures Ascending([x] + s)
  {
    forall j | 0 <= j < |s| ensures Less(x, s[j]) {
      if j > 0 { LessTransitive(x, s[0], s[j]); }
    }
  }

  lemma {:induction false} InsertKeepsSet(s: seq<string>, x: string)
    requires Ascending(s)
    ensures Elements(Insert(s, x)) == Elements(s) + {x}
    ensures Ascending(Insert(s, x))
  {
    if s == [] {
    } else if Less(x, s[0]) {
      ConsElements(x, s);
      ConsLess(x, s);
    } else if x == s[0] {
      assert x in Elements(s);
    } else {
      var rest := s[1..];
      InsertKeepsSet(rest, x);
      LessTotal(x, s[0]);
      assert s == [s[0]] + rest;
      ConsElements(s[0], rest);
      ConsElements(s[0], Insert(rest, x));
      ConsAscends(s[0], rest, Insert(rest, x), x);
    }
  }

  lemma ConsAscends(first: string, rest: seq<string>, grown: seq<string>, x: string)
    requires Ascending(grown) && Elements(grown) == Elements(rest) + {x}
    requires Less(first, x) && forall i :: 0 <= i < |rest| ==> Less(first, rest[i])
    ensures Ascending([first] + grown)
  {
    forall j | 0 <= j < |grown| ensures Less(first, grown[j]) {
      assert grown[j] in Elements(grown);
      assert grown[j] == x || grown[j] in rest;
    }
  }

  /** An ascending sequence has as many entries as distinct elements. */
  lemma {:induction false} AscendingSize(s: seq<string>)
    requires Ascending(s)
    ensures |s| == |Elements(s)|
  {
    if s != [] {
      AscendingSize(s[1..]);
      assert s == [s[0]] + s[1..];
      LessIrreflexive(s[0]);
      assert s[0] !in Elements(s[1..]);
      assert Elements(s) == {s[0]} + Elements(s[1..]);
    } else {
      assert Elements(s) == {};
    }
  }

  // ---- sort() --------------------------------------------------------------

  ghost predicate Sorted(s: seq<string>) {
    forall i, j :: 0 <= i < j < |s| ==> !Less(s[j], s[i])
  }

  function Place(x: string, s: seq<string>): seq<string> {
    if s == [] || !Less(s[0], x) then [x] + s else [s[0]] + Place(x, s[1..])
  }

  function Sort(s: seq<string>): seq<string> {
    if s == [] then [] else Place(s[0], Sort(s[1..]))
  }

  lemma {:induction false} NotLessTransitive(a: string, b: string, c: string)
    requires !Less(b, a) && !Less(c, b)
    ensures !Less(c, a)
  {
    if Less(c, a) {
      LessTotal(b, a);
      LessTransitive(c, a, b);
    }
  }

  lemma {:induction false} PlaceKeepsBag(x: string, s: seq<string>)
    ensures multiset(Place(x, s)) == multiset(s) + multiset{x}
  {
    if s != [] && Less(s[0], x) {
      PlaceKeepsBag(x, s[1..]);
      assert s == [s[0]] + s[1..];
    }
  }

  lemma {:induction false} PlaceSorts(x: string, s: seq<string>)
    requires Sorted(s)
    ensures Sorted(Place(x, s))
  {
    if s == [] {
    } else if !Less(s[0], x) {
      forall j | 0 <= j < |s| ensures !Less(s[j], x) {
        if j > 0 { NotLessTransitive(x, s[0], s[j]); }
      }
    } else {
      var t := Place(x, s[1..]);
      PlaceSorts(x, s[1..]);
      PlaceKeepsBag(x, s[1..]);
      forall j | 0 <= j < |t| ensures !Less(t[j], s[0]) {
        assert t[j] in multiset(t);
        NotLessBoth(s, x, t[j]);
      }
    }
  }

  lemma NotLessBoth(s: seq<string>, x: string, y: string)
    requires Sorted(s) && s != [] && Less(s[0], x)
    requires y in multiset(s[1..]) + multiset{x}
    ensures !Less(y, s[0])
  {
    if y == x {
      if Less(x, s[0]) { LessTransitive(x, s[0], x); LessIrreflexive(x); }
    } else {
      assert y in multiset(s[1..]);
    }
  }

  lemma {:induction false} SortSorts(s: seq<string>)
    ensures Sorted(Sort(s))
    ensures multiset(Sort(s)) == multiset(s)
  {
    if s == [] {
    } else {
      SortSorts(s[1..]);
      PlaceSorts(s[0], Sort(s[1..]));
      PlaceKeepsBag(s[0], Sort(s[1..]));
      assert s == [s[0]] + s[1..];
    }
  }

  lemma SameHead(a: seq<string>, b: seq<string>)
    requires Sorted(a) && Sorted(b) && a != [] && b != []
    requires multiset(a) == multiset(b)
    ensures a[0] == b[0]
  {
    assert a[0] in multiset(a) && b[0] in multiset(b);
    SmallestFirst(a, b[0]);
    SmallestFirst(b, a[0]);
    LessTotal(a[0], b[0]);
  }

  lemma TailBag(s: seq<string>)
    requires s != []
    ensures multiset(s[1..]) == multiset(s) - multiset{s[0]}
  {
    assert s == [s[0]] + s[1..];
  }

  lemma {:induction false} SortedUnique(a: seq<string>, b: seq<string>)
    requires Sorted(a) && Sorted(b)
    requires multiset(a) == multiset(b)
    ensures a == b
  {
    assert |multiset(a)| == |a| && |multiset(b)| == |b|;
    if a != [] {
      SameHead(a, b);
      TailBag(a);
      TailBag(b);
      SortedUnique(a[1..], b[1..]);
      assert a == [a[0]] + a[1..] && b == [b[0]] + b[1..];
    }
  }

  lemma SmallestFirst(s: seq<string>, x: string)
    requires Sorted(s) && x in s
    ensures !Less(x, s[0])
  {
    var i :| 0 <= i < |s| && s[i] == x;
    if i == 0 { LessIrreflexive(x); }
  }

  /** Sorting is canonical: two lists sort alike exactly when they are reorderings. */
  lemma {:induction false} SortCanonical(a: seq<string>, b: seq<string>)
    ensures Sort(a) == Sort(b) <==> multiset(a) == multiset(b)
  {
    SortSorts(a);
    SortSorts(b);
    if multiset(a) == multiset(b) {
      SortedUnique(Sort(a), Sort(b));
    }
  }
}
