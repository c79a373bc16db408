/**
 What the numbers of scan retrieval mean: the descriptor distance is a metric and a mean, the
 yaw is the angle of the shift, and the retrieved keyframes are the nearest of a shortlist.
 */
module ScanMeaning {
  import opened Sorting
  import opened ScanContext

  // ---- the distance is a metric --------------------------------------------------------------------------

  lemma {:induction false} SumOrder(a: Row, b: Row)
    requires |a| == |b| && forall i :: 0 <= i < |a| ==> a[i] <= b[i]
    ensures Sum(a) <= Sum(b)
    ensures Sum(a) == Sum(b) ==> a == b
  {
    if a != [] {
      var n := |a| - 1;
      SumOrder(a[..n], b[..n]);
      assert a == a[..n] + [a[n]] && b == b[..n] + [b[n]];
    }
  }

  function Flat(n: nat, x: real): (r: Row)
    ensures |r| == n
  {
    seq(n, i => x)
  }

  lemma {:induction false} SumFlat(n: nat, x: real)
    ensures Sum(Flat(n, x)) == n as real * x
  {
    if n > 0 {
      SumFlat(n - 1, x);
      assert Flat(n, x)[..n - 1] == Flat(n - 1, x);
      assert n as real * x == (n - 1) as real * x + x;
    }
  }

  lemma {:induction false} SumAdd(a: Row, b: Row, c: Row)
    requires |a| == |b| == |c| && forall i :: 0 <= i < |a| ==> c[i] == a[i] + b[i]
    ensures Sum(c) == Sum(a) + Sum(b)
  {
    if a != [] {
      var n := |a| - 1;
      SumAdd(a[..n], b[..n], c[..n]);
    }
  }

  lemma RowGaps(a: Row, b: Row, c: Row)
    requires |a| == |b| == |c|
    ensures Sum(Gaps(a, b)) >= 0.0
    ensures Sum(Gaps(a, b)) == 0.0 <==> a == b
    ensures Gaps(a, b) == Gaps(b, a)
    ensures Sum(Gaps(a, c)) <= Sum(Gaps(a, b)) + Sum(Gaps(b, c))
  {
    hide Sum;
    var n := |a|;
    var zero := Flat(n, 0.0);
    SumFlat(n, 0.0);
    SumOrder(zero, Gaps(a, b));
    forall i | 0 <= i < n ensures Gaps(a, b)[i] == Abs(a[i] - b[i]) && zero[i] == 0.0 {
    }
    if a == b {
      assert Gaps(a, b) == zero;
    }
    if Sum(Gaps(a, b)) == 0.0 {
      forall i | 0 <= i < n ensures a[i] == b[i] {
        assert Gaps(a, b)[i] == zero[i];
      }
    }
    var both := seq(n, i requires 0 <= i < n => Gaps(a, b)[i] + Gaps(b, c)[i]);
    SumAdd(Gaps(a, b), Gaps(b, c), both);
    SumOrder(Gaps(a, c), both);
  }

  lemma {:induction false} TotalsMetric(a: Descriptor, b: Descriptor, c: Descriptor, rings: nat)
    requires WellFormed(a) && WellFormed(b) && WellFormed(c) && rings <= RINGS
    ensures Totals(a, b, rings) >= 0.0
    ensures Totals(a, b, rings) == 0.0 <==> a[..rings] == b[..rings]
    ensures Totals(a, b, rings) == Totals(b, a, rings)
    ensures Totals(a, c, rings) <= Totals(a, b, rings) + Totals(b, c, rings)
  {
    hide Sum, Gaps;
    if rings > 0 {
      var r := rings - 1;
      TotalsMetric(a, b, c, r);
      RowGaps(a[r], b[r], c[r]);
      assert a[..rings] == a[..r] + [a[r]] && b[..rings] == b[..r] + [b[r]];
    }
  }

  /** Non-negative, zero exactly on equal scans, symmetric, and obeying the triangle inequality. */
  lemma DistanceIsMetric(a: Descriptor, b: Descriptor, c: Descriptor)
    requires WellFormed(a) && WellFormed(b) && WellFormed(c)
    ensures Distance(a, b) >= 0.0
    ensures Distance(a, b) == 0.0 <==> a == b
    ensures Distance(a, b) == Distance(b, a)
    ensures Distance(a, c) <= Distance(a, b) + Distance(b, c)
  {
    hide Totals;
    TotalsMetric(a, b, c, RINGS);
    assert a[..RINGS] == a && b[..RINGS] == b;
  }

  lemma {:induction false} TotalsOffset(a: Descriptor, b: Descriptor, d: real, rings: nat)
    requires WellFormed(a) && WellFormed(b) && rings <= RINGS && d >= 0.0
    requires forall r, s :: 0 <= r < RINGS && 0 <= s < SECTORS ==> Abs(a[r][s] - b[r][s]) == d
    ensures Totals(a, b, rings) == rings as real * (SECTORS as real * d)
  {
    hide Sum;
    if rings > 0 {
      TotalsOffset(a, b, d, rings - 1);
      assert Gaps(a[rings - 1], b[rings - 1]) == Flat(SECTORS, d);
      SumFlat(SECTORS, d);
    }
  }

  /** Scans that differ by d everywhere are d apart: the distance is the mean over all cells. */
  lemma DistanceIsMean(a: Descriptor, b: Descriptor, d: real)
    requires WellFormed(a) && WellFormed(b) && d >= 0.0
    requires forall r, s :: 0 <= r < RINGS && 0 <= s < SECTORS ==> Abs(a[r][s] - b[r][s]) == d
    ensures Distance(a, b) == d
  {
    hide Totals;
    TotalsOffset(a, b, d, RINGS);
  }

  /** A scan is found again under any turn at distance zero. */
  lemma TurnedIsFound(q: Descriptor, k: nat)
    requires WellFormed(q) && k < SECTORS
    ensures BestOf(q, Shift(q, k), SECTORS) == 0.0
  {
    hide Distance, Shift, BestOf, BestShift;
    BestIsRotationInvariant(q, q, 0, k);
    BestIsMinimum(q, q, SECTORS);
    Unturned(q);
    DistanceIsMetric(q, Shift(q, 0), q);
    DistanceIsMetric(q, Shift(q, BestShift(q, q, SECTORS)), q);
  }

  lemma Unturned(q: Descriptor)
    requires WellFormed(q)
    ensures Shift(q, 0) == q
  {
  }

  // ---- the yaw ---------------------------------------------------------------------------------------------

  /** The yaw is the angle of the shift, a sixtieth of a turn per sector, less a whole turn beyond half of one. */
  lemma YawIsAngle(shift: nat, pi: real)
    requires shift < SECTORS && pi > 0.0
    ensures shift <= 30 ==> Yaw(shift, pi) * 30.0 == shift as real * pi
    ensures shift > 30 ==> Yaw(shift, pi) * 30.0 == (shift as real - 60.0) * pi
  {
    var unit := 2.0 * pi / 60.0;
    assert unit * 30.0 == pi;
    var y := shift as real * unit;
    assert y * 30.0 == shift as real * pi;
    if shift <= 30 {
      assert shift as real * pi <= 30.0 * pi;
    } else {
      assert shift as real * pi > 30.0 * pi;
    }
  }

  // ---- what is retrieved -----------------------------------------------------------------------------------

  /** Every keyframe far enough in time is scored by its ring key. */
  lemma {:induction false} ScoresAre(query: nat, keys: seq<Row>, n: nat, x: Scored)
    requires query < |keys| && n <= |keys| && Keys(keys)
    ensures x in Scores(query, keys, n) <==>
              x.index < n && (x.index >= query + 30 || query >= x.index + 30) && x.key == KeyDistance(keys[query], keys[x.index])
  {
    hide KeyDistance;
    if n > 0 {
      ScoresAre(query, keys, n - 1, x);
    }
  }

  /** The shortlist holds the fifteen nearest by ring key, or all if there are fewer. */
  lemma ShortlistIs(query: nat, keys: seq<Row>, x: Scored, y: Scored)
    requires query < |keys| && Keys(keys)
    ensures |Shortlist(query, keys)| <= 15
    ensures x in Shortlist(query, keys) ==> x in Scores(query, keys, |keys|)
    ensures y in Scores(query, keys, |keys|) && y !in Shortlist(query, keys) ==>
              |Shortlist(query, keys)| == 15 && (x in Shortlist(query, keys) ==> x.key <= y.key)
  {
    hide Scores, SortBy;
    var all := Scores(query, keys, |keys|);
    Nearest(all, ByKey(), 15, x, y);
  }

  /** The first n of a sort: no more than n, and nothing nearer is left out. */
  lemma Nearest<T>(all: seq<T>, key: T -> real, n: nat, x: T, y: T)
    ensures var r := First(SortBy(all, key), n);
            && |r| <= n && (x in r ==> x in all)
            && (y in all && y !in r ==> |r| == n && (x in r ==> key(x) <= key(y)))
  {
    hide SortBy;
    var sorted := SortBy(all, key);
    SortKeepsMembers(all, key);
    SortIsSorted(all, key);
    var r := First(sorted, n);
    if x in r {
      assert x in sorted;
    }
    if y in all && y !in r {
      assert y in sorted;
      if x in r {
        var i :| 0 <= i < |r| && r[i] == x;
        var j :| 0 <= j < |sorted| && sorted[j] == y;
        assert sorted[i] == x;
      }
    }
  }

  /** c is returned, or five are and none of them is farther. */
  predicate Represented(r: seq<Match>, c: Match, m: Match) {
    c in r || (|r| == 5 && (m in r ==> m.distance <= c.distance))
  }

  /**
   The answer: at most five matches, ascending by distance, each a shortlisted keyframe with its
   least distance over all turns; a shortlisted keyframe that is missing is no nearer than any
   of the five returned.
   */
  lemma RetrievalIs(query: nat, ds: seq<Descriptor>, pi: real, m: Match, s: Scored)
    requires query < |ds| && Database(ds)
    ensures var r := Retrieve(query, ds, pi); var list := Shortlist(query, RingKeys(ds));
            && |r| <= 5 && SortedBy(r, ByDistance())
            && (m in r ==> exists x :: x in list && x.index < |ds| && m == MatchFor(ds[query], ds, x, pi))
            && (s in list ==> s.index < |ds| && Represented(r, MatchFor(ds[query], ds, s, pi), m))
  {
    hide SortBy, Shortlist, MatchFor, BestOf, BestShift, Yaw, RingKeys;
    var all, list := Candidates(query, ds, pi), Shortlist(query, RingKeys(ds));
    SortIsSorted(all, ByDistance());
    var r := Retrieve(query, ds, pi);
    if m in r {
      Nearest(all, ByDistance(), 5, m, m);
      var i :| 0 <= i < |all| && all[i] == m;
      ShortlistInRange(query, RingKeys(ds), i);
      assert list[i] in list;
    }
    if s in list {
      var i :| 0 <= i < |list| && list[i] == s;
      ShortlistInRange(query, RingKeys(ds), i);
      var c := MatchFor(ds[query], ds, s, pi);
      assert all[i] == c;
      Nearest(all, ByDistance(), 5, m, c);
    }
    Nearest(all, ByDistance(), 5, m, m);
  }

  // ---- ring keys -------------------------------------------------------------------------------------------

  /** The key of a ring lies between any bounds on its cells: it is their mean. */
  lemma RingKeyIsMean(d: Descriptor, r: nat, low: real, high: real)
    requires WellFormed(d) && r < RINGS && forall s :: 0 <= s < SECTORS ==> low <= d[r][s] <= high
    ensures low <= RingKey(d)[r] <= high
  {
    hide Sum;
    SumOrder(Flat(SECTORS, low), d[r]);
    SumOrder(d[r], Flat(SECTORS, high));
    SumFlat(SECTORS, low);
    SumFlat(SECTORS, high);
  }
}
