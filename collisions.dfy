/**
 * The pairwise collision pass. Positions are numbered in the list
 * player + enemy: player piece i is position i, enemy piece j is position
 * n + j (n player pieces, m enemy pieces). The pass calls collide on each
 * pair; CollisionPairs lists those pairs in the order of the source's loops.
 */
module Collisions {

  import opened Pieces

  /** (i, j) for lo <= j < lo + k, skipping j == i, with j increasing. */
  function Partners(i: nat, lo: nat, k: nat): seq<(int, int)>
  {
    if k == 0 then []
    else if lo + (k - 1) == i then Partners(i, lo, k - 1)
    else Partners(i, lo, k - 1) + [(i, lo + (k - 1))]
  }

  /**
   * The calls of the first i pieces of one side: the piece at position
   * lo + t meets its own side (positions lo .. lo + k - 1, itself skipped),
   * then the other side (positions olo .. olo + ok - 1).
   */
  function SidePairs(lo: nat, k: nat, olo: nat, ok: nat, i: nat): seq<(int, int)>
  {
    if i == 0 then [] else SidePairs(lo, k, olo, ok, i - 1) + Row(lo + (i - 1), lo, k, olo, ok)
  }

  /** The calls of the piece at position u: its own side first, then the other side. */
  function Row(u: nat, lo: nat, k: nat, olo: nat, ok: nat): seq<(int, int)>
  {
    Partners(u, lo, k) + Partners(u, olo, ok)
  }

  /**
   * All calls of one collision pass over n player and m enemy pieces: the
   * player pieces' rows, then the enemy pieces' rows.
   */
  function CollisionPairs(n: nat, m: nat): seq<(int, int)>
  {
    SidePairs(0, n, n, m, n) + SidePairs(n, m, 0, n, m)
  }

  /** The two sides occupy disjoint ranges of positions. */
  predicate Apart(lo: nat, k: nat, olo: nat, ok: nat)
  {
    lo + k <= olo || olo + ok <= lo
  }

  /** Position x belongs to one of the two sides. */
  predicate Sides(x: int, lo: nat, k: nat, olo: nat, ok: nat)
  {
    (lo <= x < lo + k) || (olo <= x < olo + ok)
  }

  /** Every pair of ps names two positions of a list of length w. */
  ghost predicate InRange(ps: seq<(int, int)>, w: int)
  {
    forall k :: 0 <= k < |ps| ==> Names(ps[k], w)
  }

  /** Both positions of p are positions of a list of length w. */
  predicate Names(p: (int, int), w: int)
  {
    0 <= p.0 < w && 0 <= p.1 < w
  }

  /** No element occurs twice. */
  ghost predicate NoDup<T>(s: seq<T>)
  {
    forall a, b :: 0 <= a < b < |s| ==> s[a] != s[b]
  }

  lemma {:induction false} NoDupConcat<T>(s: seq<T>, t: seq<T>)
    requires NoDup(s) && NoDup(t)
    requires forall k :: 0 <= k < |s| ==> s[k] !in t
    ensures NoDup(s + t)
  {
    forall a, b | 0 <= a < b < |s + t| ensures (s + t)[a] != (s + t)[b] {
      if b < |s| {
        assert (s + t)[a] == s[a] && (s + t)[b] == s[b];
      } else if a >= |s| {
        assert (s + t)[a] == t[a - |s|] && (s + t)[b] == t[b - |s|];
      } else {
        assert (s + t)[a] == s[a];
        assert (s + t)[b] == t[b - |s|];
      }
    }
  }

  /** The partners of i among lo .. lo + k - 1 are the positions there other than i. */
  lemma {:induction false} PartnersMembers(i: nat, lo: nat, k: nat)
    ensures forall p :: p in Partners(i, lo, k) <==> p.0 == i && lo <= p.1 < lo + k && p.1 != i
  {
    if k > 0 {
      PartnersMembers(i, lo, k - 1);
      if lo + (k - 1) != i {
        var prev, last := Partners(i, lo, k - 1), (i, lo + (k - 1));
        forall p: (int, int) ensures p in prev + [last] <==> p in prev || p == last {
        }
      }
    }
  }

  lemma {:induction false} PartnersNoDup(i: nat, lo: nat, k: nat)
    ensures NoDup(Partners(i, lo, k))
  {
    if k > 0 {
      PartnersNoDup(i, lo, k - 1);
      PartnersMembers(i, lo, k - 1);
      if lo + (k - 1) != i {
        NoDupConcat(Partners(i, lo, k - 1), [(i, lo + (k - 1))]);
      }
    }
  }

  lemma {:induction false} PartnersLength(i: nat, lo: nat, k: nat)
    ensures |Partners(i, lo, k)| == if lo <= i < lo + k then k - 1 else k
  {
    if k > 0 {
      PartnersLength(i, lo, k - 1);
    }
  }

  /** The row of the piece at position lo + t holds it with every other position of either side. */
  lemma {:induction false} RowMembers(lo: nat, t: nat, k: nat, olo: nat, ok: nat)
    requires t < k && Apart(lo, k, olo, ok)
    ensures forall p :: p in Row(lo + t, lo, k, olo, ok) <==> p.0 == lo + t && Sides(p.1, lo, k, olo, ok) && p.1 != lo + t
  {
    var u := lo + t;
    var own, other := Partners(u, lo, k), Partners(u, olo, ok);
    PartnersMembers(u, lo, k);
    PartnersMembers(u, olo, ok);
    forall p: (int, int) ensures p in own + other <==> p.0 == u && Sides(p.1, lo, k, olo, ok) && p.1 != u {
      assert p in own + other <==> p in own || p in other;
    }
  }

  lemma {:induction false} RowNoDup(lo: nat, t: nat, k: nat, olo: nat, ok: nat)
    requires t < k && Apart(lo, k, olo, ok)
    ensures NoDup(Row(lo + t, lo, k, olo, ok))
  {
    var u := lo + t;
    var own, other := Partners(u, lo, k), Partners(u, olo, ok);
    PartnersNoDup(u, lo, k);
    PartnersNoDup(u, olo, ok);
    PartnersMembers(u, lo, k);
    PartnersMembers(u, olo, ok);
    forall q | 0 <= q < |own| ensures own[q] !in other {
      assert own[q] in own;
    }
    NoDupConcat(own, other);
  }

  lemma {:induction false} RowLength(lo: nat, t: nat, k: nat, olo: nat, ok: nat)
    requires t < k && Apart(lo, k, olo, ok)
    ensures |Row(lo + t, lo, k, olo, ok)| == k - 1 + ok
  {
    var u := lo + t;
    PartnersLength(u, lo, k);
    PartnersLength(u, olo, ok);
  }

  /** The first i rows of a side hold exactly the pairs from those pieces to any other position. */
  lemma {:induction false} SidePairsMembers(lo: nat, k: nat, olo: nat, ok: nat, i: nat)
    requires i <= k && Apart(lo, k, olo, ok)
    ensures forall p :: p in SidePairs(lo, k, olo, ok, i) <==>
      lo <= p.0 < lo + i && Sides(p.1, lo, k, olo, ok) && p.0 != p.1
  {
    for t := 0 to i
      invariant forall p :: p in SidePairs(lo, k, olo, ok, t) <==>
        lo <= p.0 < lo + t && Sides(p.1, lo, k, olo, ok) && p.0 != p.1
    {
      SidePairsMembersStep(lo, k, olo, ok, t);
    }
  }

  lemma {:induction false} SidePairsMembersStep(lo: nat, k: nat, olo: nat, ok: nat, t: nat)
    requires t < k && Apart(lo, k, olo, ok)
    requires forall p :: p in SidePairs(lo, k, olo, ok, t) <==>
      lo <= p.0 < lo + t && Sides(p.1, lo, k, olo, ok) && p.0 != p.1
    ensures forall p :: p in SidePairs(lo, k, olo, ok, t + 1) <==>
      lo <= p.0 < lo + (t + 1) && Sides(p.1, lo, k, olo, ok) && p.0 != p.1
  {
    var prev, row := SidePairs(lo, k, olo, ok, t), Row(lo + t, lo, k, olo, ok);
    assert SidePairs(lo, k, olo, ok, t + 1) == prev + row;
    RowMembers(lo, t, k, olo, ok);
    forall p: (int, int) ensures p in prev + row <==> lo <= p.0 < lo + (t + 1) && Sides(p.1, lo, k, olo, ok) && p.0 != p.1 {
      assert p in prev + row <==> p in prev || p in row;
    }
  }

  lemma {:induction false} SidePairsNoDup(lo: nat, k: nat, olo: nat, ok: nat, i: nat)
    requires i <= k && Apart(lo, k, olo, ok)
    ensures NoDup(SidePairs(lo, k, olo, ok, i))
  {
    for t := 0 to i
      invariant NoDup(SidePairs(lo, k, olo, ok, t))
    {
      SidePairsNoDupStep(lo, k, olo, ok, t);
    }
  }

  lemma {:induction false} SidePairsNoDupStep(lo: nat, k: nat, olo: nat, ok: nat, t: nat)
    requires t < k && Apart(lo, k, olo, ok)
    requires NoDup(SidePairs(lo, k, olo, ok, t))
    ensures NoDup(SidePairs(lo, k, olo, ok, t + 1))
  {
    var prev, row := SidePairs(lo, k, olo, ok, t), Row(lo + t, lo, k, olo, ok);
    assert SidePairs(lo, k, olo, ok, t + 1) == prev + row;
    SidePairsMembers(lo, k, olo, ok, t);
    RowMembers(lo, t, k, olo, ok);
    RowNoDup(lo, t, k, olo, ok);
    forall q | 0 <= q < |prev| ensures prev[q] !in row {
      assert prev[q] in prev;
    }
    NoDupConcat(prev, row);
  }

  lemma {:induction false} SidePairsLength(lo: nat, k: nat, olo: nat, ok: nat, i: nat)
    requires i <= k && Apart(lo, k, olo, ok)
    ensures |SidePairs(lo, k, olo, ok, i)| == i * (k - 1 + ok)
  {
    for t := 0 to i
      invariant |SidePairs(lo, k, olo, ok, t)| == t * (k - 1 + ok)
    {
      assert SidePairs(lo, k, olo, ok, t + 1) == SidePairs(lo, k, olo, ok, t) + Row(lo + t, lo, k, olo, ok);
      RowLength(lo, t, k, olo, ok);
      MulSucc(t, k - 1 + ok);
    }
  }

  lemma {:induction false} MulSucc(k: int, x: int)
    ensures k * x + x == (k + 1) * x
  {
  }

  /**
   * One collision pass meets every ordered pair of distinct positions: a
   * pair occurs iff its positions differ, so both orders of each unordered
   * pair occur and no piece meets itself.
   */
  lemma {:induction false} CollisionPairsMembers(n: nat, m: nat)
    ensures forall p :: p in CollisionPairs(n, m) <==> 0 <= p.0 < n + m && 0 <= p.1 < n + m && p.0 != p.1
  {
    var own, other := SidePairs(0, n, n, m, n), SidePairs(n, m, 0, n, m);
    SidePairsMembers(0, n, n, m, n);
    SidePairsMembers(n, m, 0, n, m);
    forall p: (int, int) ensures p in own + other <==> 0 <= p.0 < n + m && 0 <= p.1 < n + m && p.0 != p.1 {
      assert p in own + other <==> p in own || p in other;
    }
  }

  /** No pair is met twice in one pass. */
  lemma {:induction false} CollisionPairsNoDup(n: nat, m: nat)
    ensures NoDup(CollisionPairs(n, m))
  {
    var own, other := SidePairs(0, n, n, m, n), SidePairs(n, m, 0, n, m);
    SidePairsNoDup(0, n, n, m, n);
    SidePairsNoDup(n, m, 0, n, m);
    SidePairsMembers(0, n, n, m, n);
    SidePairsMembers(n, m, 0, n, m);
    forall q | 0 <= q < |own| ensures own[q] !in other {
      assert own[q] in own;
    }
    NoDupConcat(own, other);
  }

  /** One pass makes (n + m)(n + m - 1) calls. */
  lemma {:induction false} CollisionPairsCount(n: nat, m: nat)
    ensures |CollisionPairs(n, m)| == (n + m) * (n + m - 1)
  {
    SidePairsLength(0, n, n, m, n);
    SidePairsLength(n, m, 0, n, m);
    assert n * (n - 1 + m) + m * (m - 1 + n) == (n + m) * (n + m - 1);
  }

  /** The collide calls for a list of position pairs of all, in order. */
  ghost function Calls(all: seq<Piece>, ps: seq<(int, int)>): seq<Event>
    requires InRange(ps, |all|)
  {
    seq(|ps|, k requires 0 <= k < |ps| && Names(ps[k], |all|) => Collided(all[ps[k].0], all[ps[k].1]))
  }

  /** The pairs of a pass name positions of player + enemy. */
  lemma {:induction false} CollisionPairsInRange(n: nat, m: nat)
    ensures InRange(CollisionPairs(n, m), n + m)
  {
    var ps := CollisionPairs(n, m);
    CollisionPairsMembers(n, m);
    forall k | 0 <= k < |ps| ensures Names(ps[k], n + m) {
      assert ps[k] in ps;
    }
  }

  /** The collide calls of one pass over player + enemy. */
  ghost function PassCalls(player: seq<Piece>, enemy: seq<Piece>): seq<Event>
  {
    CollisionPairsInRange(|player|, |enemy|);
    Calls(player + enemy, CollisionPairs(|player|, |enemy|))
  }

  /**
   * The pass over player + enemy makes (n + m)(n + m - 1) collide calls,
   * never two for the same pair of positions; call k is collide(all[u],
   * all[v]) for its pair (u, v), u and v differ, and every pair of
   * distinct positions has its call: both orders of every pair of pieces.
   */
  lemma {:induction false} CollisionCalls(player: seq<Piece>, enemy: seq<Piece>)
    ensures var all, ps := player + enemy, CollisionPairs(|player|, |enemy|);
      && |ps| == |all| * (|all| - 1) && |PassCalls(player, enemy)| == |ps| && NoDup(ps)
      && (forall k :: 0 <= k < |ps| ==>
            && ps[k].0 != ps[k].1 && Names(ps[k], |all|)
            && PassCalls(player, enemy)[k] == Collided(all[ps[k].0], all[ps[k].1]))
      && (forall u, v :: 0 <= u < |all| && 0 <= v < |all| && u != v ==> (u, v) in ps)
  {
    var all, ps := player + enemy, CollisionPairs(|player|, |enemy|);
    CollisionPairsMembers(|player|, |enemy|);
    CollisionPairsNoDup(|player|, |enemy|);
    CollisionPairsCount(|player|, |enemy|);
    CollisionPairsInRange(|player|, |enemy|);
    forall k | 0 <= k < |ps| ensures ps[k].0 != ps[k].1 {
      assert ps[k] in ps;
    }
  }

  /** One more pair adds its collide call at the end. */
  lemma {:induction false} CallsSnoc(all: seq<Piece>, ps: seq<(int, int)>, p: (int, int))
    requires InRange(ps, |all|) && Names(p, |all|)
    ensures InRange(ps + [p], |all|)
    ensures Calls(all, ps + [p]) == Calls(all, ps) + [Collided(all[p.0], all[p.1])]
  {
    assert forall k :: 0 <= k < |ps| ==> (ps + [p])[k] == ps[k];
  }

  /** Calls distributes over a concatenation of pair lists. */
  lemma {:induction false} CallsAppend(all: seq<Piece>, a: seq<(int, int)>, b: seq<(int, int)>)
    requires InRange(a, |all|) && InRange(b, |all|)
    ensures InRange(a + b, |all|)
    ensures Calls(all, a + b) == Calls(all, a) + Calls(all, b)
  {
    assert forall k :: 0 <= k < |a| ==> (a + b)[k] == a[k];
    assert forall k :: |a| <= k < |a + b| ==> (a + b)[k] == b[k - |a|];
  }

  /**
   * a.collide(others[j]) for j = 0 .. k-1 in order, except j == skip: one
   * inner loop of the pass (skip is -1 for the loop over the other side).
   */
  function Against(a: Piece, others: seq<Piece>, skip: int, k: nat): seq<Event>
    requires k <= |others|
  {
    if k == 0 then []
    else if k - 1 == skip then Against(a, others, skip, k - 1)
    else Against(a, others, skip, k - 1) + [Collided(a, others[k - 1])]
  }

  /** The calls of piece u of movers: the other movers, then every piece of others. */
  function MoverRow(movers: seq<Piece>, others: seq<Piece>, u: nat): seq<Event>
    requires u < |movers|
  {
    Against(movers[u], movers, u, |movers|) + Against(movers[u], others, -1, |others|)
  }

  /**
   * The calls of the first i pieces of one side. The pass is the player
   * side's rows followed by the enemy side's.
   */
  function SideRows(movers: seq<Piece>, others: seq<Piece>, i: nat): seq<Event>
    requires i <= |movers|
  {
    if i == 0 then [] else SideRows(movers, others, i - 1) + MoverRow(movers, others, i - 1)
  }

  /** others sits in all from position lo on. */
  ghost predicate Window(all: seq<Piece>, lo: nat, others: seq<Piece>)
  {
    && lo + |others| <= |all|
    && forall t :: 0 <= t < |others| ==> all[lo + t] == others[t]
  }

  /**
   * One inner loop of the piece at position mlo + i is the collide calls of
   * its partners among lo .. lo + k - 1: the loop over its own side skips
   * its own index, the loop over the other side skips nothing.
   */
  lemma {:induction false} AgainstIsCalls(all: seq<Piece>, mlo: nat, i: nat, a: Piece, lo: nat, others: seq<Piece>, skip: int, k: nat)
    requires mlo + i < |all| && all[mlo + i] == a && Window(all, lo, others) && k <= |others|
    requires skip == mlo + i - lo || (skip == -1 && !(lo <= mlo + i < lo + |others|))
    ensures InRange(Partners(mlo + i, lo, k), |all|)
    ensures Against(a, others, skip, k) == Calls(all, Partners(mlo + i, lo, k))
  {
    for j := 0 to k
      invariant InRange(Partners(mlo + i, lo, j), |all|)
      invariant Against(a, others, skip, j) == Calls(all, Partners(mlo + i, lo, j))
    {
      AgainstStep(all, mlo, i, a, lo, others, skip, j);
    }
  }

  /** One more iteration of the inner loop adds the call of one more partner, or none for the skipped one. */
  lemma {:induction false} AgainstStep(all: seq<Piece>, mlo: nat, i: nat, a: Piece, lo: nat, others: seq<Piece>, skip: int, j: nat)
    requires mlo + i < |all| && all[mlo + i] == a && Window(all, lo, others) && j < |others|
    requires skip == mlo + i - lo || (skip == -1 && !(lo <= mlo + i < lo + |others|))
    requires InRange(Partners(mlo + i, lo, j), |all|)
    requires Against(a, others, skip, j) == Calls(all, Partners(mlo + i, lo, j))
    ensures InRange(Partners(mlo + i, lo, j + 1), |all|)
    ensures Against(a, others, skip, j + 1) == Calls(all, Partners(mlo + i, lo, j + 1))
  {
    AgainstSnoc(a, others, skip, j);
    PartnersSnoc(mlo, i, lo, j);
    if lo + j != mlo + i {
      assert all[lo + j] == others[j];
      CallsSnoc(all, Partners(mlo + i, lo, j), (mlo + i, lo + j));
    }
  }

  lemma {:induction false} AgainstSnoc(a: Piece, others: seq<Piece>, skip: int, j: nat)
    requires j < |others|
    ensures j == skip ==> Against(a, others, skip, j + 1) == Against(a, others, skip, j)
    ensures j != skip ==> Against(a, others, skip, j + 1) == Against(a, others, skip, j) + [Collided(a, others[j])]
  {
  }

  lemma {:induction false} PartnersSnoc(mlo: nat, i: nat, lo: nat, j: nat)
    ensures lo + j == mlo + i ==> Partners(mlo + i, lo, j + 1) == Partners(mlo + i, lo, j)
    ensures lo + j != mlo + i ==> Partners(mlo + i, lo, j + 1) == Partners(mlo + i, lo, j) + [(mlo + i, lo + j)]
  {
  }

  /** The two inner loops of piece i of one side are the calls of its row. */
  lemma {:induction false} RowIsCalls(all: seq<Piece>, movers: seq<Piece>, others: seq<Piece>, mlo: nat, olo: nat, i: nat)
    requires Window(all, mlo, movers) && Window(all, olo, others) && Apart(mlo, |movers|, olo, |others|)
    requires i < |movers|
    ensures InRange(Row(mlo + i, mlo, |movers|, olo, |others|), |all|)
    ensures MoverRow(movers, others, i) == Calls(all, Row(mlo + i, mlo, |movers|, olo, |others|))
  {
    var own, other := Partners(mlo + i, mlo, |movers|), Partners(mlo + i, olo, |others|);
    assert MoverRow(movers, others, i) == Against(movers[i], movers, i, |movers|) + Against(movers[i], others, -1, |others|);
    assert all[mlo + i] == movers[i];
    AgainstIsCalls(all, mlo, i, movers[i], mlo, movers, i, |movers|);
    AgainstIsCalls(all, mlo, i, movers[i], olo, others, -1, |others|);
    CallsAppend(all, own, other);
  }

  /** The first i iterations of one side's outer loop are the calls of its first i rows. */
  lemma {:induction false} SideIsCalls(all: seq<Piece>, movers: seq<Piece>, others: seq<Piece>, mlo: nat, olo: nat, i: nat)
    requires Window(all, mlo, movers) && Window(all, olo, others) && Apart(mlo, |movers|, olo, |others|)
    requires i <= |movers|
    ensures InRange(SidePairs(mlo, |movers|, olo, |others|, i), |all|)
    ensures SideRows(movers, others, i) == Calls(all, SidePairs(mlo, |movers|, olo, |others|, i))
  {
    for t := 0 to i
      invariant InRange(SidePairs(mlo, |movers|, olo, |others|, t), |all|)
      invariant SideRows(movers, others, t) == Calls(all, SidePairs(mlo, |movers|, olo, |others|, t))
    {
      SideStep(all, movers, others, mlo, olo, t);
    }
  }

  lemma {:induction false} SideStep(all: seq<Piece>, movers: seq<Piece>, others: seq<Piece>, mlo: nat, olo: nat, t: nat)
    requires Window(all, mlo, movers) && Window(all, olo, others) && Apart(mlo, |movers|, olo, |others|)
    requires t < |movers|
    requires InRange(SidePairs(mlo, |movers|, olo, |others|, t), |all|)
    requires SideRows(movers, others, t) == Calls(all, SidePairs(mlo, |movers|, olo, |others|, t))
    ensures InRange(SidePairs(mlo, |movers|, olo, |others|, t + 1), |all|)
    ensures SideRows(movers, others, t + 1) == Calls(all, SidePairs(mlo, |movers|, olo, |others|, t + 1))
  {
    var prev, row := SidePairs(mlo, |movers|, olo, |others|, t), Row(mlo + t, mlo, |movers|, olo, |others|);
    assert SideRows(movers, others, t + 1) == SideRows(movers, others, t) + MoverRow(movers, others, t);
    assert SidePairs(mlo, |movers|, olo, |others|, t + 1) == prev + row;
    RowIsCalls(all, movers, others, mlo, olo, t);
    CallsAppend(all, prev, row);
  }

  lemma AppendAssoc<T>(a: seq<T>, b: seq<T>, c: seq<T>)
    ensures (a + b) + c == a + (b + c)
  {
  }

  /** The whole pass, as the loops make it, is the collide calls of CollisionPairs. */
  lemma {:induction false} PassIsCalls(ps: seq<Piece>, es: seq<Piece>)
    ensures SideRows(ps, es, |ps|) + SideRows(es, ps, |es|) == PassCalls(ps, es)
  {
    var all := ps + es;
    var own, other := SidePairs(0, |ps|, |ps|, |es|, |ps|), SidePairs(|ps|, |es|, 0, |ps|, |es|);
    assert CollisionPairs(|ps|, |es|) == own + other;
    CollisionPairsInRange(|ps|, |es|);
    assert PassCalls(ps, es) == Calls(all, own + other);
    assert Window(all, 0, ps);
    assert Window(all, |ps|, es);
    SideIsCalls(all, ps, es, 0, |ps|, |ps|);
    SideIsCalls(all, es, ps, |ps|, 0, |es|);
    CallsAppend(all, own, other);
  }

}
