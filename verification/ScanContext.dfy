/**
 Scan-Context retrieval: descriptors are rings of sectors, a rotated scan is a cyclic shift,
 and a stored scan is compared under every shift. Retrieval is shown blind to heading.
 */
module ScanContext {
  import opened Sorting

  const RINGS := 20
  const SECTORS := 60
  const TOP_K := 5
  const MIN_KEYFRAME_GAP := 30
  const FAR := 1000000000.0

  type Row = seq<real>
  type Descriptor = seq<Row>

  predicate WellFormed(d: Descriptor) {
    |d| == RINGS && forall r :: 0 <= r < RINGS ==> |d[r]| == SECTORS
  }

  /** `row[shift:] + row[:shift]` */
  function RotateRow(row: Row, shift: nat): (r: Row)
    requires shift <= |row|
    ensures |r| == |row|
  {
    row[shift..] + row[..shift]
  }

  function Shift(d: Descriptor, shift: nat): (s: Descriptor)
    requires WellFormed(d) && shift < SECTORS
    ensures WellFormed(s)
  {
    if shift % SECTORS == 0 then d else seq(RINGS, r requires 0 <= r < RINGS => RotateRow(d[r], shift))
  }

  function Abs(x: real): real {
    if x < 0.0 then -x else x
  }

  function Sum(row: Row): real {
    if row == [] then 0.0 else Sum(row[..|row| - 1]) + row[|row| - 1]
  }

  function Gaps(a: Row, b: Row): (g: Row)
    requires |a| == |b|
    ensures |g| == |a|
  {
    seq(|a|, i requires 0 <= i < |a| => Abs(a[i] - b[i]))
  }

  function Totals(a: Descriptor, b: Descriptor, rings: nat): real
    requires WellFormed(a) && WellFormed(b) && rings <= RINGS
  {
    if rings == 0 then 0.0 else Totals(a, b, rings - 1) + Sum(Gaps(a[rings - 1], b[rings - 1]))
  }

  /** `_descriptor_distance` */
  function Distance(a: Descriptor, b: Descriptor): real
    requires WellFormed(a) && WellFormed(b)
  {
    Totals(a, b, RINGS) / (RINGS * SECTORS) as real
  }

  /** The loop as written: running total and count over rings and sectors. */
  method DescriptorDistance(a: Descriptor, b: Descriptor) returns (d: real)
    requires WellFormed(a) && WellFormed(b)
    ensures d == Distance(a, b)
  {
    var total, count := 0.0, 0;
    for ring := 0 to RINGS
      invariant total == Totals(a, b, ring) && count == ring * SECTORS
    {
      ghost var gaps := Gaps(a[ring], b[ring]);
      assert gaps[..0] == [];
      for sector := 0 to SECTORS
        invariant total == Totals(a, b, ring) + Sum(gaps[..sector]) && count == ring * SECTORS + sector
      {
        assert gaps[..sector + 1][..sector] == gaps[..sector];
        total := total + Abs(a[ring][sector] - b[ring][sector]);
        count := count + 1;
      }
      assert gaps[..SECTORS] == gaps;
    }
    d := total / (if count < 1 then 1 else count) as real;
  }

  lemma {:induction false} SumConcat(a: Row, b: Row)
    ensures Sum(a + b) == Sum(a) + Sum(b)
    decreases |b|
  {
    if b == [] {
      assert a + b == a;
    } else {
      var init := b[..|b| - 1];
      assert (a + b)[..|a + b| - 1] == a + init;
      SumConcat(a, init);
    }
  }

  /** A rotation keeps the sum of a row. */
  lemma RotationKeepsSum(row: Row, k: nat)
    requires k <= |row|
    ensures Sum(RotateRow(row, k)) == Sum(row)
  {
    hide Sum;
    var head, tail := row[..k], row[k..];
    assert row == head + tail && RotateRow(row, k) == tail + head;
    SumConcat(tail, head);
    SumConcat(head, tail);
  }

  function Index(i: nat, k: nat, n: nat): nat
    requires i < n && k <= n
  {
    if i + k < n then i + k else i + k - n
  }

  lemma RotateAt(row: Row, k: nat, i: nat)
    requires k <= |row| && i < |row|
    ensures RotateRow(row, k)[i] == row[Index(i, k, |row|)]
  {
  }

  lemma RotateTwice(row: Row, k: nat, s: nat)
    requires k < |row| && s < |row|
    ensures RotateRow(RotateRow(row, k), s) == RotateRow(row, if k + s < |row| then k + s else k + s - |row|)
  {
    var n := |row|;
    var t := if k + s < n then k + s else k + s - n;
    forall i | 0 <= i < n ensures RotateRow(RotateRow(row, k), s)[i] == RotateRow(row, t)[i] {
      RotateAt(RotateRow(row, k), s, i);
      RotateAt(row, k, Index(i, s, n));
      RotateAt(row, t, i);
    }
  }

  lemma ShiftRow(d: Descriptor, k: nat, r: nat)
    requires WellFormed(d) && k < SECTORS && r < RINGS
    ensures Shift(d, k)[r] == RotateRow(d[r], k)
  {
    if k == 0 {
      assert RotateRow(d[r], 0) == d[r];
    }
  }

  function Compose(k: nat, s: nat): (t: nat)
    requires k < SECTORS && s < SECTORS
    ensures t < SECTORS
  {
    if k + s < SECTORS then k + s else k + s - SECTORS
  }

  lemma ShiftTwice(d: Descriptor, k: nat, s: nat)
    requires WellFormed(d) && k < SECTORS && s < SECTORS
    ensures Shift(Shift(d, k), s) == Shift(d, Compose(k, s))
  {
    forall r | 0 <= r < RINGS ensures Shift(Shift(d, k), s)[r] == Shift(d, Compose(k, s))[r] {
      ShiftRow(d, k, r);
      ShiftRow(Shift(d, k), s, r);
      ShiftRow(d, Compose(k, s), r);
      RotateTwice(d[r], k, s);
    }
  }

  lemma GapsRotate(a: Row, b: Row, k: nat)
    requires |a| == |b| && k <= |a|
    ensures Gaps(RotateRow(a, k), RotateRow(b, k)) == RotateRow(Gaps(a, b), k)
  {
    forall i | 0 <= i < |a| ensures Gaps(RotateRow(a, k), RotateRow(b, k))[i] == RotateRow(Gaps(a, b), k)[i] {
      RotateAt(a, k, i);
      RotateAt(b, k, i);
      RotateAt(Gaps(a, b), k, i);
    }
  }

  lemma {:induction false} TotalsShift(a: Descriptor, b: Descriptor, k: nat, rings: nat)
    requires WellFormed(a) && WellFormed(b) && k < SECTORS && rings <= RINGS
    ensures Totals(Shift(a, k), Shift(b, k), rings) == Totals(a, b, rings)
  {
    hide Shift;
    if rings > 0 {
      TotalsShift(a, b, k, rings - 1);
      ShiftRow(a, k, rings - 1);
      ShiftRow(b, k, rings - 1);
      GapsRotate(a[rings - 1], b[rings - 1], k);
      RotationKeepsSum(Gaps(a[rings - 1], b[rings - 1]), k);
    }
  }

  /** Rotating both scans by the same amount leaves their distance alone. */
  lemma DistanceShift(a: Descriptor, b: Descriptor, k: nat)
    requires WellFormed(a) && WellFormed(b) && k < SECTORS
    ensures Distance(Shift(a, k), Shift(b, k)) == Distance(a, b)
  {
    TotalsShift(a, b, k, RINGS);
  }

  // ---- best shift --------------------------------------------------------------------------------

  /** Best distance among shifts 0..n-1, capped by the initial 1e9. */
  function BestOf(q: Descriptor, m: Descriptor, n: nat): real
    requires WellFormed(q) && WellFormed(m) && n <= SECTORS
  {
    if n == 0 then FAR
    else
      var rest, d := BestOf(q, m, n - 1), Distance(q, Shift(m, n - 1));
      if d < rest then d else rest
  }

  /** The first shift attaining the best distance, 0 when nothing beats the cap. */
  function BestShift(q: Descriptor, m: Descriptor, n: nat): (s: nat)
    requires WellFormed(q) && WellFormed(m) && n <= SECTORS
    ensures s < SECTORS
  {
    if n == 0 then 0
    else if Distance(q, Shift(m, n - 1)) < BestOf(q, m, n - 1) then n - 1
    else BestShift(q, m, n - 1)
  }

  lemma {:induction false} BestIsMinimum(q: Descriptor, m: Descriptor, n: nat)
    requires WellFormed(q) && WellFormed(m) && n <= SECTORS
    ensures BestOf(q, m, n) <= FAR
    ensures forall s :: 0 <= s < n ==> BestOf(q, m, n) <= Distance(q, Shift(m, s))
    ensures BestOf(q, m, n) < FAR ==> BestShift(q, m, n) < n && Distance(q, Shift(m, BestShift(q, m, n))) == BestOf(q, m, n)
    ensures BestOf(q, m, n) == FAR ==> BestShift(q, m, n) == 0
  {
    hide Distance, Shift;
    if n > 0 {
      BestIsMinimum(q, m, n - 1);
    }
  }

  /** The reported yaw: the shift as an angle, wrapped at half a turn. */
  function Yaw(shift: nat, pi: real): real {
    var y := shift as real * (2.0 * pi / SECTORS as real);
    if y > pi then y - 2.0 * pi else y
  }

  lemma YawRange(shift: nat, pi: real)
    requires shift < SECTORS && pi > 0.0
    ensures -pi < Yaw(shift, pi) <= pi && Yaw(0, pi) == 0.0
  {
    var unit := 2.0 * pi / SECTORS as real;
    assert unit > 0.0 && unit * SECTORS as real == 2.0 * pi;
    assert shift as real * unit < 2.0 * pi;
  }

  /** The inner loop of `_retrieve_candidates`. */
  method SearchShifts(q: Descriptor, m: Descriptor, pi: real) returns (distance: real, yaw: real)
    requires WellFormed(q) && WellFormed(m) && pi > 0.0
    ensures distance == BestOf(q, m, SECTORS) && yaw == Yaw(BestShift(q, m, SECTORS), pi)
  {
    hide Distance, Shift, Yaw;
    distance, yaw := FAR, 0.0;
    YawRange(0, pi);
    for step := 0 to SECTORS
      invariant distance == BestOf(q, m, step) && yaw == Yaw(BestShift(q, m, step), pi)
    {
      var d := DescriptorDistance(q, Shift(m, step));
      if d < distance {
        distance, yaw := d, Yaw(step, pi);
      }
    }
  }

  ghost predicate Occurs(d: real, q: Descriptor, m: Descriptor)
    requires WellFormed(q) && WellFormed(m)
  {
    exists t :: 0 <= t < SECTORS && Distance(q, Shift(m, t)) == d
  }

  /** If every distance on the left occurs on the right, the right is at least as close. */
  lemma BestAtMost(q: Descriptor, m: Descriptor, q': Descriptor, m': Descriptor)
    requires WellFormed(q) && WellFormed(m) && WellFormed(q') && WellFormed(m')
    requires forall s :: 0 <= s < SECTORS ==> Occurs(Distance(q, Shift(m, s)), q', m')
    ensures BestOf(q', m', SECTORS) <= BestOf(q, m, SECTORS)
  {
    hide Distance, Shift, BestOf, BestShift;
    BestIsMinimum(q, m, SECTORS);
    BestIsMinimum(q', m', SECTORS);
    if BestOf(q, m, SECTORS) < FAR {
      var s := BestShift(q, m, SECTORS);
      var t :| 0 <= t < SECTORS && Distance(q', Shift(m', t)) == Distance(q, Shift(m, s));
    }
  }

  /** The stored shift that a rotated query sees as shift s. */
  function Relative(a: nat, b: nat, s: nat): (t: nat)
    requires a < SECTORS && b < SECTORS && s < SECTORS
    ensures t < SECTORS
  {
    var x := b + s + SECTORS - a;
    if x < SECTORS then x else if x < 2 * SECTORS then x - SECTORS else x - 2 * SECTORS
  }

  lemma RotatedDistance(q: Descriptor, m: Descriptor, a: nat, b: nat, s: nat)
    requires WellFormed(q) && WellFormed(m) && a < SECTORS && b < SECTORS && s < SECTORS
    ensures Distance(Shift(q, a), Shift(Shift(m, b), s)) == Distance(q, Shift(m, Relative(a, b, s)))
  {
    hide Distance, Shift;
    var t := Relative(a, b, s);
    ShiftTwice(m, b, s);
    ShiftTwice(m, t, a);
    assert Compose(t, a) == Compose(b, s);
    DistanceShift(q, Shift(m, t), a);
  }

  /** Turning the query and the stored scan by any two amounts leaves the best distance unchanged. */
  lemma BestIsRotationInvariant(q: Descriptor, m: Descriptor, a: nat, b: nat)
    requires WellFormed(q) && WellFormed(m) && a < SECTORS && b < SECTORS
    ensures BestOf(Shift(q, a), Shift(m, b), SECTORS) == BestOf(q, m, SECTORS)
  {
    hide Distance, Shift, BestOf, Occurs;
    var q', m' := Shift(q, a), Shift(m, b);
    forall s | 0 <= s < SECTORS ensures Occurs(Distance(q', Shift(m', s)), q, m) {
      TurnedOccurs(q, m, a, b, s);
    }
    forall s | 0 <= s < SECTORS ensures Occurs(Distance(q, Shift(m, s)), q', m') {
      OccursTurned(q, m, a, b, s);
    }
    BestAtMost(q', m', q, m);
    BestAtMost(q, m, q', m');
  }

  lemma TurnedOccurs(q: Descriptor, m: Descriptor, a: nat, b: nat, s: nat)
    requires WellFormed(q) && WellFormed(m) && a < SECTORS && b < SECTORS && s < SECTORS
    ensures Occurs(Distance(Shift(q, a), Shift(Shift(m, b), s)), q, m)
  {
    hide Distance, Shift;
    RotatedDistance(q, m, a, b, s);
    assert Relative(a, b, s) < SECTORS;
  }

  lemma OccursTurned(q: Descriptor, m: Descriptor, a: nat, b: nat, s: nat)
    requires WellFormed(q) && WellFormed(m) && a < SECTORS && b < SECTORS && s < SECTORS
    ensures Occurs(Distance(q, Shift(m, s)), Shift(q, a), Shift(m, b))
  {
    hide Distance, Shift;
    var t := Relative(b, a, s);
    RotatedDistance(q, m, a, b, t);
    assert Relative(a, b, t) == s;
  }

  /** Exactly one shift attains the best distance. */
  ghost predicate UniqueBest(q: Descriptor, m: Descriptor)
    requires WellFormed(q) && WellFormed(m)
  {
    && BestOf(q, m, SECTORS) < FAR
    && forall s :: 0 <= s < SECTORS && Distance(q, Shift(m, s)) == BestOf(q, m, SECTORS) ==> s == BestShift(q, m, SECTORS)
  }

  /** The reported shift follows: turning the query by a and the stored scan by b moves it by a - b sectors. */
  lemma ShiftFollows(q: Descriptor, m: Descriptor, a: nat, b: nat)
    requires WellFormed(q) && WellFormed(m) && a < SECTORS && b < SECTORS && UniqueBest(q, m)
    ensures BestShift(Shift(q, a), Shift(m, b), SECTORS) == (BestShift(q, m, SECTORS) + a + SECTORS - b) % SECTORS
  {
    hide Distance, Shift, BestOf, BestShift;
    var q', m' := Shift(q, a), Shift(m, b);
    BestIsRotationInvariant(q, m, a, b);
    BestIsMinimum(q', m', SECTORS);
    var s := BestShift(q', m', SECTORS);
    RotatedDistance(q, m, a, b, s);
    assert Relative(a, b, s) == BestShift(q, m, SECTORS);
  }

  function RingKey(d: Descriptor): (k: Row)
    requires WellFormed(d)
    ensures |k| == RINGS
  {
    seq(RINGS, r requires 0 <= r < RINGS => Sum(d[r]) / SECTORS as real)
  }

  lemma RingKeyIsRotationInvariant(d: Descriptor, k: nat)
    requires WellFormed(d) && k < SECTORS
    ensures RingKey(Shift(d, k)) == RingKey(d)
  {
    hide Shift, Sum;
    forall r | 0 <= r < RINGS ensures RingKey(Shift(d, k))[r] == RingKey(d)[r] {
      ShiftRow(d, k, r);
      RotationKeepsSum(d[r], k);
    }
  }

  // ---- ranking -----------------------------------------------------------------------------------

  datatype Scored = Scored(key: real, index: nat)

  datatype Match = Match(index: nat, distance: real, yaw: real)

  /** The part of a match that does not depend on heading. */
  function Strip(m: Match): (nat, real) {
    (m.index, m.distance)
  }

  ghost predicate SameButYaw(xs: seq<Match>, ys: seq<Match>) {
    |xs| == |ys| && forall i :: 0 <= i < |xs| ==> Strip(xs[i]) == Strip(ys[i])
  }

  function ByDistance(): Match -> real {
    (m: Match) => m.distance
  }

  lemma {:induction false} InsertSame(xs: seq<Match>, ys: seq<Match>, x: Match, y: Match)
    requires SameButYaw(xs, ys) && Strip(x) == Strip(y)
    ensures SameButYaw(Insert(xs, x, ByDistance()), Insert(ys, y, ByDistance()))
  {
    if xs != [] {
      InsertSame(xs[..|xs| - 1], ys[..|ys| - 1], x, y);
    }
  }

  lemma {:induction false} SortSame(xs: seq<Match>, ys: seq<Match>)
    requires SameButYaw(xs, ys)
    ensures SameButYaw(SortBy(xs, ByDistance()), SortBy(ys, ByDistance()))
  {
    if xs != [] {
      SortSame(xs[..|xs| - 1], ys[..|ys| - 1]);
      InsertSame(SortBy(xs[..|xs| - 1], ByDistance()), SortBy(ys[..|ys| - 1], ByDistance()), xs[|xs| - 1], ys[|ys| - 1]);
    }
  }

  function KeyDistance(a: Row, b: Row): real
    requires |a| == |b|
  {
    Sum(Gaps(a, b)) / (if |a| < 1 then 1 else |a|) as real
  }

  predicate Apart(i: int, j: int) {
    i - j >= MIN_KEYFRAME_GAP || j - i >= MIN_KEYFRAME_GAP
  }

  predicate Keys(keys: seq<Row>) {
    forall i :: 0 <= i < |keys| ==> |keys[i]| == RINGS
  }

  /** Scores of the first n keyframes that are far enough in time from the query. */
  function Scores(query: nat, keys: seq<Row>, n: nat): (r: seq<Scored>)
    requires query < |keys| && n <= |keys| && Keys(keys)
    ensures forall i :: 0 <= i < |r| ==> r[i].index < n && Apart(r[i].index, query)
    ensures forall i, j :: 0 <= i < j < |r| ==> r[i].index < r[j].index
  {
    if n == 0 then []
    else Scores(query, keys, n - 1) + if Apart(n - 1, query) then [Scored(KeyDistance(keys[query], keys[n - 1]), n - 1)] else []
  }

  function ByKey(): Scored -> real {
    (s: Scored) => s.key
  }

  /** The shortlist: scores are listed by index, so sorting them stably by key is the tuple order. */
  function Shortlist(query: nat, keys: seq<Row>): seq<Scored>
    requires query < |keys| && Keys(keys)
  {
    First(SortBy(Scores(query, keys, |keys|), ByKey()), 3 * TOP_K)
  }

  lemma ShortlistInRange(query: nat, keys: seq<Row>, i: nat)
    requires query < |keys| && Keys(keys) && i < |Shortlist(query, keys)|
    ensures Shortlist(query, keys)[i].index < |keys| && Apart(Shortlist(query, keys)[i].index, query)
  {
    var scores := Scores(query, keys, |keys|);
    SortIsSorted(scores, ByKey());
    var x := Shortlist(query, keys)[i];
    assert x in SortBy(scores, ByKey());
    assert x in multiset(SortBy(scores, ByKey()));
    assert x in multiset(scores);
  }

  predicate Database(ds: seq<Descriptor>) {
    forall i :: 0 <= i < |ds| ==> WellFormed(ds[i])
  }

  function RingKeys(ds: seq<Descriptor>): (keys: seq<Row>)
    requires Database(ds)
    ensures |keys| == |ds| && Keys(keys)
  {
    seq(|ds|, i requires 0 <= i < |ds| => RingKey(ds[i]))
  }

  function MatchFor(q: Descriptor, ds: seq<Descriptor>, s: Scored, pi: real): Match
    requires WellFormed(q) && Database(ds) && s.index < |ds|
  {
    Match(s.index, BestOf(q, ds[s.index], SECTORS), Yaw(BestShift(q, ds[s.index], SECTORS), pi))
  }

  function Candidates(query: nat, ds: seq<Descriptor>, pi: real): (r: seq<Match>)
    requires query < |ds| && Database(ds)
  {
    var list := Shortlist(query, RingKeys(ds));
    seq(|list|, i requires 0 <= i < |list| => ShortlistInRange(query, RingKeys(ds), i); MatchFor(ds[query], ds, list[i], pi))
  }

  /** `_retrieve_candidates` */
  function Retrieve(query: nat, ds: seq<Descriptor>, pi: real): seq<Match>
    requires query < |ds| && Database(ds)
  {
    First(SortBy(Candidates(query, ds, pi), ByDistance()), TOP_K)
  }

  method RetrieveCandidates(query: nat, ds: seq<Descriptor>, keys: seq<Row>, pi: real) returns (r: seq<Match>)
    requires query < |ds| && Database(ds) && keys == RingKeys(ds) && pi > 0.0
    ensures r == Retrieve(query, ds, pi)
  {
    hide BestOf, BestShift, Yaw, SortBy, KeyDistance, RingKey;
    var scored: seq<Scored> := [];
    for i := 0 to |keys|
      invariant scored == Scores(query, keys, i)
    {
      if !Apart(i, query) {
        continue;
      }
      scored := scored + [Scored(KeyDistance(keys[query], keys[i]), i)];
    }
    var list := First(SortBy(scored, ByKey()), 3 * TOP_K);
    var results: seq<Match> := [];
    for i := 0 to |list|
      invariant |results| == i && forall j :: 0 <= j < i ==> results[j] == Candidates(query, ds, pi)[j]
    {
      ShortlistInRange(query, keys, i);
      var distance, yaw := SearchShifts(ds[query], ds[list[i].index], pi);
      results := results + [Match(list[i].index, distance, yaw)];
    }
    assert results == Candidates(query, ds, pi);
    r := First(SortBy(results, ByDistance()), TOP_K);
  }

  /** ds' is ds with every scan turned by its own amount. */
  ghost predicate Turned(ds: seq<Descriptor>, ds': seq<Descriptor>, turns: seq<nat>)
    requires Database(ds)
  {
    && |ds'| == |ds| == |turns|
    && forall i :: 0 <= i < |ds| ==> turns[i] < SECTORS && ds'[i] == Shift(ds[i], turns[i])
  }

  /**
   Retrieval is blind to heading: turning every stored scan, the query included, by arbitrary
   numbers of sectors leaves the ring keys, the retrieved keyframes, their order and their
   distances unchanged. The reported shifts move by the turns (`ShiftFollows`).
   */
  lemma RetrievalIsRotationInvariant(query: nat, ds: seq<Descriptor>, ds': seq<Descriptor>, turns: seq<nat>, pi: real)
    requires query < |ds| && Database(ds) && Turned(ds, ds', turns)
    ensures Database(ds') && RingKeys(ds') == RingKeys(ds)
    ensures SameButYaw(Retrieve(query, ds, pi), Retrieve(query, ds', pi))
  {
    hide BestOf, BestShift, Yaw, SortBy, Shift, RingKey, Shortlist;
    forall i | 0 <= i < |ds| ensures WellFormed(ds'[i]) && RingKey(ds'[i]) == RingKey(ds[i]) {
      RingKeyIsRotationInvariant(ds[i], turns[i]);
    }
    assert RingKeys(ds') == RingKeys(ds);
    var xs, ys := Candidates(query, ds, pi), Candidates(query, ds', pi);
    var list := Shortlist(query, RingKeys(ds));
    forall i | 0 <= i < |list| ensures Strip(xs[i]) == Strip(ys[i]) {
      ShortlistInRange(query, RingKeys(ds), i);
      var j := list[i].index;
      BestIsRotationInvariant(ds[query], ds[j], turns[query], turns[j]);
    }
    SortSame(xs, ys);
  }
}
