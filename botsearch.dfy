/**
 * The bot's target search (botPickCheckers): a running minimum of the
 * distance over all (enemy piece, player piece) pairs, scanned row by row,
 * that starts from the first enemy and first player piece, replaces the
 * running pair only on a strictly smaller distance, and remembers as
 * "second" the player piece the last replacement displaced.
 */
module BotSearch {

  /** The search state: best distance, its enemy and player piece, and the displaced player piece. */
  datatype Pick<T> = Pick(d: real, bot: T, target: T, second: T)

  /** Distance of a candidate pair. */
  function Gap<T>(c: (T, T), dist: (T, T) -> real): real
  {
    dist(c.0, c.1)
  }

  /** The state before the scan: the first pair, displacing nothing yet. */
  function Start<T>(e: T, p: T, dist: (T, T) -> real): Pick<T>
  {
    Pick(dist(e, p), e, p, p)
  }

  /** One comparison of the nested loops. */
  function Compare<T>(acc: Pick<T>, c: (T, T), dist: (T, T) -> real): Pick<T>
  {
    if Gap(c, dist) < acc.d then Pick(Gap(c, dist), c.0, c.1, acc.target) else acc
  }

  /** The comparisons of s in order, from acc. */
  function Scan<T>(acc: Pick<T>, s: seq<(T, T)>, dist: (T, T) -> real): Pick<T>
  {
    if s == [] then acc else Compare(Scan(acc, s[..|s| - 1], dist), s[|s| - 1], dist)
  }

  /** The pairs of one enemy piece with every player piece, in list order. */
  function RowPairs<T>(e: T, ps: seq<T>): (r: seq<(T, T)>)
    ensures |r| == |ps|
    ensures forall j :: 0 <= j < |ps| ==> r[j] == (e, ps[j])
  {
    if ps == [] then [] else RowPairs(e, ps[..|ps| - 1]) + [(e, ps[|ps| - 1])]
  }

  /** All enemy-by-player pairs in row-major order: the scan order of the nested loops. */
  function Pairs<T>(es: seq<T>, ps: seq<T>): seq<(T, T)>
  {
    if es == [] then [] else Pairs(es[..|es| - 1], ps) + RowPairs(es[|es| - 1], ps)
  }

  /**
   * What botPickCheckers returns on these lists: an enemy piece, two player
   * pieces, and the distance of the first two.
   */
  function BestPick<T>(es: seq<T>, ps: seq<T>, dist: (T, T) -> real): (r: Pick<T>)
    requires |es| > 0 && |ps| > 0
    ensures r.bot in es && r.target in ps && r.second in ps
    ensures r.d == dist(r.bot, r.target)
  {
    ScanWithin(es, ps, dist);
    Scan(Start(es[0], ps[0], dist), Pairs(es, ps), dist)
  }

  /**
   * The piece the bot aims at: one of the two player pieces picked, the
   * displaced one exactly when r exceeds 0.65 (when the two differ).
   */
  function Aim<T(==)>(pick: Pick<T>, r: real): (t: T)
    ensures t == pick.target || t == pick.second
    ensures pick.target != pick.second ==> (t == pick.second <==> r > 0.65)
  {
    if r > 0.65 then pick.second else pick.target
  }

  /** Position k holds a minimum of s, and every earlier position is strictly farther. */
  ghost predicate IsFirstMin<T>(s: seq<(T, T)>, dist: (T, T) -> real, k: int)
  {
    && 0 <= k < |s|
    && (forall i :: 0 <= i < |s| ==> Gap(s[k], dist) <= Gap(s[i], dist))
    && (forall i :: 0 <= i < k ==> Gap(s[k], dist) < Gap(s[i], dist))
  }

  /** There is one first minimum. */
  lemma FirstMinUnique<T>(s: seq<(T, T)>, dist: (T, T) -> real, k: int, k': int)
    requires IsFirstMin(s, dist, k) && IsFirstMin(s, dist, k')
    ensures k == k'
  {
    assert Gap(s[k], dist) == Gap(s[k'], dist);
  }

  /** r is the scan result for first minimum k of s, as ScanFindsFirstMin describes. */
  ghost predicate Explains<T>(s: seq<(T, T)>, dist: (T, T) -> real, r: Pick<T>, k: int)
  {
    && IsFirstMin(s, dist, k)
    && r.d == Gap(s[k], dist) && r.bot == s[k].0 && r.target == s[k].1
    && (k == 0 ==> r.second == s[0].1)
    && (k > 0 ==> exists k' :: IsFirstMin(s[..k], dist, k') && r.second == s[k'].1)
  }

  /**
   * The scan started from the first pair ends at the first minimum k of s;
   * its "second" is the player piece of the first minimum of the pairs
   * before k, or the first pair's player piece when k is 0.
   */
  lemma {:induction false} ScanFindsFirstMin<T>(s: seq<(T, T)>, dist: (T, T) -> real)
    requires |s| > 0
    ensures exists k :: Explains(s, dist, Scan(Start(s[0].0, s[0].1, dist), s, dist), k)
  {
    var init := Start(s[0].0, s[0].1, dist);
    var n := |s|;
    var x := s[n - 1];
    var s' := s[..n - 1];
    assert Scan(init, s, dist) == Compare(Scan(init, s', dist), x, dist);
    if n == 1 {
      assert s' == [];
      assert Explains(s, dist, Scan(init, s, dist), 0);
    } else {
      assert s'[0] == s[0];
      ScanFindsFirstMin(s', dist);
      var r' := Scan(init, s', dist);
      var k0 :| Explains(s', dist, r', k0);
      if Gap(x, dist) < r'.d {
        assert IsFirstMin(s, dist, n - 1);
        assert IsFirstMin(s[..n - 1], dist, k0);
        assert Explains(s, dist, Scan(init, s, dist), n - 1);
      } else {
        assert IsFirstMin(s, dist, k0);
        if k0 > 0 {
          var k' :| IsFirstMin(s'[..k0], dist, k') && r'.second == s'[k'].1;
          assert s[..k0] == s'[..k0];
          assert s[k'] == s'[k'];
        }
        assert Explains(s, dist, Scan(init, s, dist), k0);
      }
    }
  }

  lemma {:induction false} PairsLength<T>(es: seq<T>, ps: seq<T>)
    ensures |Pairs(es, ps)| == |es| * |ps|
  {
    if es != [] {
      PairsLength(es[..|es| - 1], ps);
      assert |es| * |ps| == (|es| - 1) * |ps| + |ps|;
    }
  }

  /** Enemy piece i meets player piece j at row-major position i * |ps| + j. */
  lemma {:induction false} PairAt<T>(es: seq<T>, ps: seq<T>, i: int, j: int)
    requires 0 <= i < |es| && 0 <= j < |ps|
    ensures |Pairs(es, ps)| == |es| * |ps|
    ensures i * |ps| + j < |es| * |ps| && Pairs(es, ps)[i * |ps| + j] == (es[i], ps[j])
  {
    var n := |es|;
    var es' := es[..n - 1];
    var head, row := Pairs(es', ps), RowPairs(es[n - 1], ps);
    assert Pairs(es, ps) == head + row;
    PairsLength(es, ps);
    PairsLength(es', ps);
    CellBelow(i, j, n, |ps|);
    if i < n - 1 {
      PairAt(es', ps, i, j);
      assert es'[i] == es[i];
      assert (head + row)[i * |ps| + j] == head[i * |ps| + j];
    } else {
      assert (head + row)[i * |ps| + j] == row[j];
    }
  }

  /** Every pair the nested loops visit is an enemy piece with a player piece. */
  lemma PairsMember<T>(es: seq<T>, ps: seq<T>, k: int)
    requires 0 <= k < |Pairs(es, ps)|
    ensures Pairs(es, ps)[k].0 in es && Pairs(es, ps)[k].1 in ps
  {
    PairsLength(es, ps);
    var i, j := RowMajor(k, |es|, |ps|);
    PairAt(es, ps, i, j);
  }

  /** The scan of botPickCheckers ends on an enemy piece and two player pieces. */
  lemma ScanWithin<T>(es: seq<T>, ps: seq<T>, dist: (T, T) -> real)
    requires |es| > 0 && |ps| > 0
    ensures var r := Scan(Start(es[0], ps[0], dist), Pairs(es, ps), dist);
      r.bot in es && r.target in ps && r.second in ps && r.d == dist(r.bot, r.target)
  {
    var s := Pairs(es, ps);
    var r := Scan(Start(es[0], ps[0], dist), s, dist);
    PairAt(es, ps, 0, 0);
    assert s[0] == (es[0], ps[0]);
    ScanFindsFirstMin(s, dist);
    var k :| Explains(s, dist, r, k);
    PairsMember(es, ps, k);
    if k > 0 {
      var k' :| IsFirstMin(s[..k], dist, k') && r.second == s[k'].1;
      PairsMember(es, ps, k');
    }
  }

  /** Cell (i, j) of an n-row, w-column grid has row-major position below n * w. */
  lemma CellBelow(i: int, j: int, n: int, w: int)
    requires 0 <= i < n && 0 <= j < w
    ensures i * w + j < n * w
    ensures n * w == (n - 1) * w + w
  {
    assert i * w + j < (i + 1) * w;
    assert (i + 1) * w <= n * w;
  }

  /**
   * What botPickCheckers returns: (bot, target) is enemy piece i with player
   * piece j where position i * |ps| + j is the first closest pair in
   * row-major order (every pair scanned before it is strictly farther);
   * "second" is the player piece of the first closest pair scanned before
   * it, or the first player piece when it is the first pair.
   */
  lemma BestPickIsFirstClosest<T>(es: seq<T>, ps: seq<T>, dist: (T, T) -> real)
    requires |es| > 0 && |ps| > 0
    ensures exists i, j ::
      && 0 <= i < |es| && 0 <= j < |ps|
      && Explains(Pairs(es, ps), dist, BestPick(es, ps, dist), i * |ps| + j)
      && BestPick(es, ps, dist).bot == es[i] && BestPick(es, ps, dist).target == ps[j]
  {
    var s := Pairs(es, ps);
    var r := BestPick(es, ps, dist);
    PairAt(es, ps, 0, 0);
    assert s[0] == (es[0], ps[0]);
    ScanFindsFirstMin(s, dist);
    var k :| Explains(s, dist, r, k);
    var i, j := RowMajor(k, |es|, |ps|);
    PairAt(es, ps, i, j);
    assert k == i * |ps| + j;
    assert Explains(s, dist, r, i * |ps| + j);
  }

  /** No enemy-by-player pair is closer than the one the bot picks. */
  lemma BestPickIsClosest<T>(es: seq<T>, ps: seq<T>, dist: (T, T) -> real, i: int, j: int)
    requires 0 <= i < |es| && 0 <= j < |ps|
    ensures dist(BestPick(es, ps, dist).bot, BestPick(es, ps, dist).target) <= dist(es[i], ps[j])
  {
    var s := Pairs(es, ps);
    var r := BestPick(es, ps, dist);
    PairAt(es, ps, 0, 0);
    assert s[0] == (es[0], ps[0]);
    ScanFindsFirstMin(s, dist);
    var k :| Explains(s, dist, r, k);
    assert dist(r.bot, r.target) == Gap(s[k], dist);
    PairAt(es, ps, i, j);
    var pos := i * |ps| + j;
    assert pos < |s| && s[pos] == (es[i], ps[j]);
    assert Gap(s[k], dist) <= Gap(s[pos], dist);
  }

  /**
   * "second" is not always the second-closest player piece: when the first
   * pair is already the closest nothing is displaced, and "second" is the
   * target itself.
   */
  lemma SecondCanBeTarget()
    ensures var pick := BestPick([0], [1, 2], (e: int, p: int) => p as real);
      pick.target == 1 && pick.second == 1 && pick.d == 1.0
  {
    var dist := (e: int, p: int) => p as real;
    var es, ps := [0], [1, 2];
    assert es[..0] == [];
    assert RowPairs(0, ps) == [(0, 1), (0, 2)];
    assert Pairs(es, ps) == [(0, 1)] + [(0, 2)];
    var start := Start(0, 1, dist);
    ScanSnoc(start, [], (0, 1), dist);
    ScanSnoc(start, [(0, 1)], (0, 2), dist);
    assert Scan(start, [(0, 1)], dist) == start;
  }

  /** Every position below n * w is i * w + j for a row i < n and a column j < w. */
  lemma RowMajor(k: int, n: nat, w: nat) returns (i: nat, j: nat)
    requires 0 <= k < n * w
    ensures i < n && j < w && k == i * w + j
  {
    i, j := 0, k;
    while j >= w
      invariant i * w + j == k && 0 <= j
      invariant i < n
      decreases j
    {
      assert (i + 1) * w <= k < n * w;
      i, j := i + 1, j - w;
    }
  }

  /** One more comparison of the nested loops extends the scan by one step. */
  lemma ScanSnoc<T>(acc: Pick<T>, s: seq<(T, T)>, c: (T, T), dist: (T, T) -> real)
    ensures Scan(acc, s + [c], dist) == Compare(Scan(acc, s, dist), c, dist)
  {
    assert (s + [c])[..|s|] == s;
  }

  /** The inner loop's pairs after one more player piece. */
  lemma RowPairsSnoc<T>(e: T, ps: seq<T>, j: int)
    requires 0 <= j < |ps|
    ensures RowPairs(e, ps[..j + 1]) == RowPairs(e, ps[..j]) + [(e, ps[j])]
  {
    assert ps[..j + 1][..j] == ps[..j];
  }

  /** The outer loop's pairs after one more enemy piece. */
  lemma PairsSnoc<T>(es: seq<T>, ps: seq<T>, i: int)
    requires 0 <= i < |es|
    ensures Pairs(es[..i + 1], ps) == Pairs(es[..i], ps) + RowPairs(es[i], ps[..|ps|])
  {
    assert es[..i + 1][..i] == es[..i];
    assert ps[..|ps|] == ps;
  }
}
