/**
 * Garbage collection of pieces that have left the board: what is left of a
 * list is the list filtered to the pieces still in bounds.
 */
module Survivors {

  /** The elements of s for which gone is false, in their original order. */
  function Surviving<T>(s: seq<T>, gone: T -> bool): (r: seq<T>)
    ensures |r| <= |s|
  {
    if s == [] then [] else (if gone(s[0]) then [] else [s[0]]) + Surviving(s[1..], gone)
  }

  /** Garbage collection removes exactly the pieces out of bounds: x survives iff it was there and is in bounds. */
  lemma {:induction false} SurvivingMembers<T>(s: seq<T>, gone: T -> bool, x: T)
    ensures x in Surviving(s, gone) <==> x in s && !gone(x)
  {
    if s != [] {
      SurvivingMembers(s[1..], gone, x);
      assert x in s <==> x == s[0] || x in s[1..];
    }
  }

  /** The verdict "is c". */
  function Is<T(==)>(c: T): T -> bool
  {
    x => x == c
  }

  /** The verdict "removed by f or by g". */
  function Either<T>(f: T -> bool, g: T -> bool): T -> bool
  {
    x => f(x) || g(x)
  }

  /**
   * `array.filter(obj => obj !== c)`: every occurrence of c removed, every
   * other element kept as often as it occurred.
   */
  function Without<T(==)>(s: seq<T>, c: T): (r: seq<T>)
    ensures forall x :: x in r ==> x in s && x != c
    ensures forall x :: x in s && x != c ==> x in r
    ensures multiset(r) == multiset(s)[c := 0]
  {
    SurvivingIs(s, c);
    Surviving(s, Is(c))
  }

  /** Filtering with the verdict "is c" removes c and nothing else. */
  lemma SurvivingIs<T>(s: seq<T>, c: T)
    ensures forall x :: x in Surviving(s, Is(c)) ==> x in s && x != c
    ensures forall x :: x in s && x != c ==> x in Surviving(s, Is(c))
    ensures multiset(Surviving(s, Is(c))) == multiset(s)[c := 0]
  {
    var r := Surviving(s, Is(c));
    forall x ensures x in r <==> x in s && x != c {
      SurvivingMembers(s, Is(c), x);
    }
    forall x ensures multiset(r)[x] == multiset(s)[c := 0][x] {
      SurvivingCounts(s, Is(c), x);
    }
  }

  /** Filtering keeps the order: it distributes over concatenation. */
  lemma {:induction false} SurvivingAppend<T>(a: seq<T>, b: seq<T>, gone: T -> bool)
    ensures Surviving(a + b, gone) == Surviving(a, gone) + Surviving(b, gone)
  {
    if a == [] {
      assert a + b == b;
    } else {
      assert (a + b)[0] == a[0];
      assert (a + b)[1..] == a[1..] + b;
      SurvivingAppend(a[1..], b, gone);
    }
  }

  /** Each element the filter keeps is kept as often as it occurs; the others vanish. */
  lemma {:induction false} SurvivingCounts<T>(s: seq<T>, gone: T -> bool, x: T)
    ensures multiset(Surviving(s, gone))[x] == if gone(x) then 0 else multiset(s)[x]
  {
    if s != [] {
      assert s == [s[0]] + s[1..];
      SurvivingCounts(s[1..], gone, x);
    }
  }

  /** A filter depends only on its verdict for the elements present. */
  lemma {:induction false} SurvivingCongruent<T>(s: seq<T>, f: T -> bool, g: T -> bool)
    requires forall x :: x in s ==> f(x) == g(x)
    ensures Surviving(s, f) == Surviving(s, g)
  {
    if s != [] {
      assert s[0] in s;
      assert forall x :: x in s[1..] ==> x in s;
      SurvivingCongruent(s[1..], f, g);
    }
  }

  /** Two filters in a row are one filter removing what either removes. */
  lemma {:induction false} SurvivingTwice<T>(s: seq<T>, f: T -> bool, g: T -> bool)
    ensures Surviving(Surviving(s, f), g) == Surviving(s, Either(f, g))
  {
    if s != [] {
      SurvivingTwice(s[1..], f, g);
      var h := Either(f, g);
      assert h(s[0]) == (f(s[0]) || g(s[0]));
      assert Surviving(s, h) == (if h(s[0]) then [] else [s[0]]) + Surviving(s[1..], h);
      if !f(s[0]) {
        var r := Surviving(s, f);
        assert r == [s[0]] + Surviving(s[1..], f);
        assert r[0] == s[0];
        assert r[1..] == Surviving(s[1..], f);
        assert Surviving(r, g) == (if g(s[0]) then [] else [s[0]]) + Surviving(r[1..], g);
      } else {
        assert Surviving(s, f) == Surviving(s[1..], f);
        assert Surviving(s, h) == Surviving(s[1..], h);
      }
    }
  }

  /** Collecting garbage twice with the same verdicts removes nothing more. */
  lemma SurvivingIdempotent<T>(s: seq<T>, gone: T -> bool)
    ensures Surviving(Surviving(s, gone), gone) == Surviving(s, gone)
  {
    SurvivingTwice(s, gone, gone);
    SurvivingCongruent(s, Either(gone, gone), gone);
  }

  /** A list with nothing out of bounds is left exactly as it was. */
  lemma {:induction false} SurvivingKeepsAll<T>(s: seq<T>, gone: T -> bool)
    requires forall x :: x in s ==> !gone(x)
    ensures Surviving(s, gone) == s
  {
    if s != [] {
      assert s[0] in s;
      assert forall x :: x in s[1..] ==> x in s;
      SurvivingKeepsAll(s[1..], gone);
      assert s == [s[0]] + s[1..];
    }
  }

  /** The verdict "seen already and out of bounds". */
  function SeenOut<T(==)>(seen: seq<T>, gone: T -> bool): T -> bool
  {
    x => x in seen && gone(x)
  }

  /**
   * One iteration of the source's removal loop: removing c, when c is out of
   * bounds, from what survives the elements seen so far gives what survives
   * the elements seen including c; an in-bounds c changes nothing.
   */
  lemma RemovalStep<T>(orig: seq<T>, seen: seq<T>, c: T, gone: T -> bool)
    ensures gone(c) ==>
      Without(Surviving(orig, SeenOut(seen, gone)), c) == Surviving(orig, SeenOut(seen + [c], gone))
    ensures !gone(c) ==>
      Surviving(orig, SeenOut(seen, gone)) == Surviving(orig, SeenOut(seen + [c], gone))
  {
    var before := SeenOut(seen, gone);
    var after := SeenOut(seen + [c], gone);
    if gone(c) {
      SurvivingTwice(orig, before, Is(c));
      SurvivingCongruent(orig, Either(before, Is(c)), after);
    } else {
      SurvivingCongruent(orig, before, after);
    }
  }

  /** Once every element has been seen, the loop's filter is the plain filter. */
  lemma AllSeen<T>(orig: seq<T>, gone: T -> bool)
    ensures Surviving(orig, SeenOut(orig, gone)) == Surviving(orig, gone)
  {
    SurvivingCongruent(orig, SeenOut(orig, gone), gone);
  }

  /** Before any element has been seen the loop's filter removes nothing. */
  lemma NoneSeen<T>(orig: seq<T>, gone: T -> bool)
    ensures Surviving(orig, SeenOut([], gone)) == orig
  {
    SurvivingKeepsAll(orig, SeenOut([], gone));
  }
}
