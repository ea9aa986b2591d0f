/**
 * The read-only scans of the controller: hit-testing a click against the
 * pieces and the stillness test at the end of a tick.
 */
module Scans {

  import opened Options

  /** Position of the first element of s that the click hits, or |s| when none does. */
  function FirstHitIndex<T>(s: seq<T>, hit: T -> bool): (k: nat)
    ensures k <= |s|
    ensures k < |s| ==> hit(s[k])
    ensures forall m :: 0 <= m < k ==> !hit(s[m])
  {
    if s == [] then 0
    else if hit(s[0]) then 0
    else 1 + FirstHitIndex(s[1..], hit)
  }

  /** A position with no hit before it and a hit at it (or the end) is the first hit position. */
  lemma {:induction false} FirstHitIndexIs<T>(s: seq<T>, hit: T -> bool, k: nat)
    requires k <= |s|
    requires forall m :: 0 <= m < k ==> !hit(s[m])
    requires k < |s| ==> hit(s[k])
    ensures FirstHitIndex(s, hit) == k
  {
    if s != [] && k > 0 {
      FirstHitIndexIs(s[1..], hit, k - 1);
    }
  }

  /** The first element of s that the click hits, if any. */
  function FirstHit<T>(s: seq<T>, hit: T -> bool): Option<T>
  {
    var k := FirstHitIndex(s, hit);
    if k < |s| then Some(s[k]) else None
  }

  /**
   * Hit-testing a concatenation tests the first part first: a hit in the
   * first part wins, the second part answers only when the first has no hit.
   * None is answered exactly when nothing is hit.
   */
  lemma {:induction false} FirstHitConcat<T>(a: seq<T>, b: seq<T>, hit: T -> bool)
    ensures FirstHit(a + b, hit) == if FirstHit(a, hit).Some? then FirstHit(a, hit) else FirstHit(b, hit)
    ensures FirstHit(a + b, hit).None? <==> forall x :: x in a + b ==> !hit(x)
  {
    if a == [] {
      assert a + b == b;
    } else {
      assert (a + b)[0] == a[0];
      if !hit(a[0]) {
        assert (a + b)[1..] == a[1..] + b;
        FirstHitConcat(a[1..], b, hit);
      }
    }
  }

  /** The verdict "contains the point (x, y)" of the hit query. */
  function At<T>(contains: (T, real, real) -> bool, x: real, y: real): T -> bool
  {
    p => contains(p, x, y)
  }

  /** Every piece of s is still. */
  ghost predicate AllStill<T>(s: seq<T>, still: T -> bool)
  {
    forall k :: 0 <= k < |s| ==> still(s[k])
  }
}
