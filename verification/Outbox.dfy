/**
 The durable outbox: insertion with deduplication and per-type retention, priority listing,
 and replay. Rows are kept in insertion order, which is id order because ids only grow.
 */
module Outbox {
  import opened Wrappers

  datatype Kind = Trajectory | SystemLog | Other(name: string)

  datatype Message = Message(topic: string, qos: int, retain: bool, kind: Kind, payload: string)

  datatype Row = Row(id: int, message: Message, dedupe: Option<string>)

  datatype Limits = Limits(trajectory: nat, systemLog: nat)

  /** Rows of one type, in id order. */
  function OfKind(rows: seq<Row>, k: Kind): seq<Row> {
    if rows == [] then []
    else
      var r := rows[|rows| - 1];
      OfKind(rows[..|rows| - 1], k) + if r.message.kind == k then [r] else []
  }

  function Urgent(rows: seq<Row>): seq<Row> {
    if rows == [] then []
    else
      var r := rows[|rows| - 1];
      Urgent(rows[..|rows| - 1]) + if r.message.kind != Trajectory then [r] else []
  }

  /** The retention statement: of type k only the newest `limit` rows survive. */
  function KeepNewest(rows: seq<Row>, k: Kind, limit: nat): seq<Row> {
    if rows == [] then []
    else
      var init, r := rows[..|rows| - 1], rows[|rows| - 1];
      if r.message.kind != k then KeepNewest(init, k, limit) + [r]
      else if limit == 0 then KeepNewest(init, k, 0)
      else KeepNewest(init, k, limit - 1) + [r]
  }

  function Last<T>(s: seq<T>, n: nat): seq<T> {
    if |s| <= n then s else s[|s| - n..]
  }

  lemma OfKindSnoc(rows: seq<Row>, r: Row, k: Kind)
    ensures OfKind(rows + [r], k) == OfKind(rows, k) + if r.message.kind == k then [r] else []
  {
    assert (rows + [r])[..|rows|] == rows;
  }

  lemma UrgentSnoc(rows: seq<Row>, r: Row)
    ensures Urgent(rows + [r]) == Urgent(rows) + if r.message.kind != Trajectory then [r] else []
  {
    assert (rows + [r])[..|rows|] == rows;
  }

  lemma LastSnoc<T>(s: seq<T>, x: T, n: nat)
    requires n > 0
    ensures Last(s + [x], n) == Last(s, n - 1) + [x]
  {
  }

  /** Retention drops only the oldest rows of its own type and leaves every other type alone. */
  lemma {:induction false} KeepNewestExact(rows: seq<Row>, k: Kind, limit: nat, j: Kind)
    ensures OfKind(KeepNewest(rows, k, limit), j) == if j == k then Last(OfKind(rows, k), limit) else OfKind(rows, j)
  {
    hide Last;
    if rows == [] {
      LastOfNone(limit);
    } else {
      var init, r := rows[..|rows| - 1], rows[|rows| - 1];
      var rest := if r.message.kind == k && limit > 0 then limit - 1 else limit;
      KeepNewestExact(init, k, rest, j);
      OfKindSnoc(KeepNewest(init, k, rest), r, j);
      assert OfKind(init, j) + [] == OfKind(init, j);
      if r.message.kind == k {
        if limit > 0 {
          LastSnoc(OfKind(init, k), r, limit);
        } else {
          LastZero(OfKind(init, k));
          LastZero(OfKind(init, k) + [r]);
        }
      }
    }
  }

  lemma LastOfNone(n: nat)
    ensures Last<Row>([], n) == []
  {
  }

  lemma LastZero(s: seq<Row>)
    ensures Last(s, 0) == []
  {
  }

  predicate Sorted(rows: seq<Row>) {
    forall i, j :: 0 <= i < j < |rows| ==> rows[i].id < rows[j].id
  }

  predicate DistinctKeys(rows: seq<Row>) {
    forall i, j :: 0 <= i < j < |rows| && rows[i].dedupe.Some? ==> rows[i].dedupe != rows[j].dedupe
  }

  /** Rows only leave: what is in a was in b, still in id order. */
  predicate Shrinks(a: seq<Row>, b: seq<Row>) {
    Sorted(a) && forall i :: 0 <= i < |a| ==> a[i] in b
  }

  lemma ShrinkKeepsKeys(a: seq<Row>, b: seq<Row>)
    requires Shrinks(a, b) && DistinctKeys(b)
    ensures DistinctKeys(a)
  {
    forall i, j | 0 <= i < j < |a| && a[i].dedupe.Some? ensures a[i].dedupe != a[j].dedupe {
      var x :| 0 <= x < |b| && b[x] == a[i];
      var y :| 0 <= y < |b| && b[y] == a[j];
      assert x != y;
    }
  }

  lemma {:induction false} KeepNewestShrinks(rows: seq<Row>, k: Kind, limit: nat)
    requires Sorted(rows)
    ensures Shrinks(KeepNewest(rows, k, limit), rows)
  {
    if rows != [] {
      var init, r := rows[..|rows| - 1], rows[|rows| - 1];
      var rest := if r.message.kind == k && limit > 0 then limit - 1 else limit;
      KeepNewestShrinks(init, k, rest);
      assert forall i :: 0 <= i < |init| ==> init[i] == rows[i];
    }
  }

  function Deleted(rows: seq<Row>, gone: Row -> bool): seq<Row> {
    if rows == [] then []
    else
      var r := rows[|rows| - 1];
      Deleted(rows[..|rows| - 1], gone) + if gone(r) then [] else [r]
  }

  lemma {:induction false} DeletedShrinks(rows: seq<Row>, gone: Row -> bool)
    requires Sorted(rows)
    ensures Shrinks(Deleted(rows, gone), rows)
    ensures forall r :: r in Deleted(rows, gone) <==> r in rows && !gone(r)
  {
    if rows != [] {
      var init := rows[..|rows| - 1];
      DeletedShrinks(init, gone);
      assert rows == init + [rows[|rows| - 1]];
    }
  }

  /** A type none of whose rows is deleted is untouched. */
  lemma {:induction false} DeletedKeepsKind(rows: seq<Row>, gone: Row -> bool, k: Kind)
    requires forall i :: 0 <= i < |rows| && rows[i].message.kind == k ==> !gone(rows[i])
    ensures OfKind(Deleted(rows, gone), k) == OfKind(rows, k)
  {
    if rows != [] {
      var init, r := rows[..|rows| - 1], rows[|rows| - 1];
      DeletedKeepsKind(init, gone, k);
      OfKindSnoc(Deleted(init, gone), r, k);
      assert Deleted(init, gone) + [] == Deleted(init, gone);
    }
  }

  // ---- the store's statements --------------------------------------------------------------

  datatype State = State(rows: seq<Row>, nextId: int, inflight: seq<Row>)

  predicate KeyTaken(rows: seq<Row>, key: Option<string>) {
    key.Some? && exists i :: 0 <= i < |rows| && rows[i].dedupe == key
  }

  /** INSERT OR IGNORE followed by the retention of the inserted type. */
  function Enqueued(s: State, m: Message, key: Option<string>, limits: Limits): State {
    var s1 := if KeyTaken(s.rows, key) then s
              else s.(rows := s.rows + [Row(s.nextId, m, key)], nextId := s.nextId + 1);
    match m.kind
    case Trajectory => s1.(rows := KeepNewest(s1.rows, Trajectory, limits.trajectory))
    case SystemLog => s1.(rows := KeepNewest(s1.rows, SystemLog, limits.systemLog))
    case Other(_) => s1
  }

  function AckedKey(s: State, key: string): State {
    s.(rows := Deleted(s.rows, (r: Row) => r.dedupe == Some(key)))
  }

  function AckedId(s: State, id: int): State {
    s.(rows := Deleted(s.rows, (r: Row) => r.id == id))
  }

  /** The listing: everything that is not a trajectory batch first, each part in id order. */
  function Pending(rows: seq<Row>, limit: int): seq<Row> {
    var all := Urgent(rows) + OfKind(rows, Trajectory);
    if limit < 0 || |all| <= limit then all else all[..limit]
  }

  datatype Op =
    | Enqueue(message: Message, key: Option<string>)
    | AckKey(acked: string)
    | BeginReplay(limit: int)
    | SendNext(ok: bool)

  /** One atomic action of some thread; replay takes its listing first and then sends row by row. */
  function Step(s: State, op: Op, limits: Limits): State {
    match op
    case Enqueue(m, key) => Enqueued(s, m, key, limits)
    case AckKey(key) => AckedKey(s, key)
    case BeginReplay(limit) => s.(inflight := Pending(s.rows, limit))
    case SendNext(ok) =>
      if s.inflight == [] then s
      else
        var r := s.inflight[0];
        var s1 := s.(inflight := s.inflight[1..]);
        if ok && r.message.kind != Trajectory then AckedId(s1, r.id) else s1
  }

  function Run(s: State, ops: seq<Op>, limits: Limits): State {
    if ops == [] then s else Step(Run(s, ops[..|ops| - 1], limits), ops[|ops| - 1], limits)
  }

  ghost predicate Inv(s: State) {
    && Sorted(s.rows) && DistinctKeys(s.rows)
    && (forall i :: 0 <= i < |s.rows| ==> s.rows[i].id < s.nextId)
    && (forall i :: 0 <= i < |s.inflight| ==> s.inflight[i].id < s.nextId)
    // ids are never reused, so an in-flight row and a stored row with its id are the same row
    && (forall i, j :: 0 <= i < |s.inflight| && 0 <= j < |s.rows| && s.inflight[i].id == s.rows[j].id ==> s.inflight[i] == s.rows[j])
  }

  lemma InvShrinks(s: State, rows': seq<Row>)
    requires Inv(s) && Shrinks(rows', s.rows)
    ensures Inv(s.(rows := rows'))
  {
    ShrinkKeepsKeys(rows', s.rows);
  }

  lemma InvEnqueued(s: State, m: Message, key: Option<string>, limits: Limits)
    requires Inv(s)
    ensures Inv(Enqueued(s, m, key, limits))
  {
    var s1 := if KeyTaken(s.rows, key) then s
              else s.(rows := s.rows + [Row(s.nextId, m, key)], nextId := s.nextId + 1);
    hide KeepNewest, Shrinks;
    assert Inv(s1);
    KeepNewestShrinks(s1.rows, Trajectory, limits.trajectory);
    KeepNewestShrinks(s1.rows, SystemLog, limits.systemLog);
    InvShrinks(s1, KeepNewest(s1.rows, Trajectory, limits.trajectory));
    InvShrinks(s1, KeepNewest(s1.rows, SystemLog, limits.systemLog));
  }

  lemma {:induction false} ListedMembers(rows: seq<Row>, r: Row)
    ensures r in Urgent(rows) <==> r in rows && r.message.kind != Trajectory
    ensures r in OfKind(rows, Trajectory) <==> r in rows && r.message.kind == Trajectory
  {
    if rows != [] {
      ListedMembers(rows[..|rows| - 1], r);
      assert rows == rows[..|rows| - 1] + [rows[|rows| - 1]];
    }
  }

  lemma InvStep(s: State, op: Op, limits: Limits)
    requires Inv(s)
    ensures Inv(Step(s, op, limits))
  {
    match op
    case Enqueue(m, key) =>
      InvEnqueued(s, m, key, limits);
    case AckKey(key) =>
      DeletedShrinks(s.rows, (r: Row) => r.dedupe == Some(key));
      InvShrinks(s, AckedKey(s, key).rows);
    case BeginReplay(limit) =>
      var listed := Pending(s.rows, limit);
      forall i | 0 <= i < |listed| ensures listed[i] in s.rows {
        ListedMembers(s.rows, listed[i]);
        assert listed[i] == (Urgent(s.rows) + OfKind(s.rows, Trajectory))[i];
      }
    case SendNext(ok) =>
      if s.inflight != [] {
        var s1 := s.(inflight := s.inflight[1..]);
        assert Inv(s1);
        DeletedShrinks(s1.rows, (r: Row) => r.id == s.inflight[0].id);
        InvShrinks(s1, AckedId(s1, s.inflight[0].id).rows);
      }
  }

  // ---- bounds over every run -----------------------------------------------------------------

  function Count(s: State, k: Kind): nat {
    |OfKind(s.rows, k)|
  }

  lemma {:induction false} DeletedCount(rows: seq<Row>, gone: Row -> bool, k: Kind)
    ensures |OfKind(Deleted(rows, gone), k)| <= |OfKind(rows, k)|
  {
    if rows != [] {
      var init, r := rows[..|rows| - 1], rows[|rows| - 1];
      DeletedCount(init, gone, k);
      OfKindSnoc(Deleted(init, gone), r, k);
      assert Deleted(init, gone) + [] == Deleted(init, gone);
    }
  }

  function Limit(limits: Limits, k: Kind): Option<nat> {
    match k
    case Trajectory => Some(limits.trajectory)
    case SystemLog => Some(limits.systemLog)
    case Other(_) => None
  }

  /** After an enqueue of a capped type that type is within its limit; no other type is touched. */
  lemma EnqueueBounds(s: State, m: Message, key: Option<string>, limits: Limits, k: Kind)
    ensures var s' := Enqueued(s, m, key, limits);
            && (k != m.kind ==> OfKind(s'.rows, k) == OfKind(s.rows, k))
            && (k == m.kind && Limit(limits, k).Some? ==> Count(s', k) <= Limit(limits, k).value)
  {
    hide OfKind, KeepNewest, KeyTaken;
    var r := Row(s.nextId, m, key);
    OfKindSnoc(s.rows, r, k);
    assert OfKind(s.rows, k) + [] == OfKind(s.rows, k);
    var rows := if KeyTaken(s.rows, key) then s.rows else s.rows + [r];
    if m.kind == Trajectory {
      KeepNewestExact(rows, Trajectory, limits.trajectory, k);
    } else if m.kind == SystemLog {
      KeepNewestExact(rows, SystemLog, limits.systemLog, k);
    }
  }

  lemma StepBounds(s: State, op: Op, limits: Limits, k: Kind)
    requires Limit(limits, k).Some?
    ensures Count(Step(s, op, limits), k) <= Count(s, k) || Count(Step(s, op, limits), k) <= Limit(limits, k).value
    ensures op.Enqueue? && op.message.kind == k ==> Count(Step(s, op, limits), k) <= Limit(limits, k).value
  {
    match op
    case Enqueue(m, key) =>
      EnqueueBounds(s, m, key, limits, k);
    case AckKey(key) =>
      DeletedCount(s.rows, (r: Row) => r.dedupe == Some(key), k);
    case BeginReplay(limit) =>
    case SendNext(ok) =>
      if s.inflight != [] {
        DeletedCount(s.rows, (r: Row) => r.id == s.inflight[0].id, k);
      }
  }

  /**
   Every interleaving of enqueues, acknowledgements and replays keeps the ids ordered, the
   keys unique and a capped type within its limit from its first enqueue on, or from the
   start if it began within it.
   */
  lemma {:induction false} RunKeepsBounds(s: State, ops: seq<Op>, limits: Limits, k: Kind)
    requires Inv(s) && Limit(limits, k).Some?
    ensures Inv(Run(s, ops, limits))
    ensures Count(s, k) <= Limit(limits, k).value || (exists i :: 0 <= i < |ops| && ops[i].Enqueue? && ops[i].message.kind == k) ==>
              Count(Run(s, ops, limits), k) <= Limit(limits, k).value
  {
    hide Step, Inv, Count;
    if ops != [] {
      var init, op := ops[..|ops| - 1], ops[|ops| - 1];
      RunKeepsBounds(s, init, limits, k);
      InvStep(Run(s, init, limits), op, limits);
      StepBounds(Run(s, init, limits), op, limits, k);
      if exists i :: 0 <= i < |ops| && ops[i].Enqueue? && ops[i].message.kind == k {
        var i :| 0 <= i < |ops| && ops[i].Enqueue? && ops[i].message.kind == k;
        if i < |init| {
          assert init[i].Enqueue? && init[i].message.kind == k;
        }
      }
    }
  }

  // ---- what each operation does to every row --------------------------------------------------------------

  /** An acknowledged key is gone, and every other row stays where it was. */
  lemma AckKeyIs(s: State, key: string, limits: Limits, r: Row)
    requires Inv(s)
    ensures var s' := Step(s, AckKey(key), limits);
            && (r in s'.rows <==> r in s.rows && r.dedupe != Some(key))
            && Sorted(s'.rows) && s'.nextId == s.nextId && s'.inflight == s.inflight
  {
    DeletedShrinks(s.rows, (r: Row) => r.dedupe == Some(key));
  }

  /** A send removes exactly the row it handed over, and only if that succeeded and it is no trajectory batch. */
  lemma SendIs(s: State, ok: bool, limits: Limits, r: Row)
    requires Inv(s) && s.inflight != []
    ensures var s' := Step(s, SendNext(ok), limits);
            && s'.inflight == s.inflight[1..] && Sorted(s'.rows)
            && (r in s'.rows <==> r in s.rows && !(ok && r == s.inflight[0] && r.message.kind != Trajectory))
  {
    var sent := s.inflight[0];
    DeletedShrinks(s.rows, (r: Row) => r.id == sent.id);
  }

  /** The listing is as long as the limit allows, and holds stored rows only. */
  lemma PendingIs(rows: seq<Row>, limit: nat, r: Row)
    ensures |Pending(rows, limit)| == Smaller(|rows|, limit)
    ensures r in Pending(rows, limit) ==> r in rows
    ensures |rows| <= limit ==> (r in Pending(rows, limit) <==> r in rows)
  {
    hide Urgent, OfKind;
    ListedMembers(rows, r);
    KindsSplit(rows);
    var all := Urgent(rows) + OfKind(rows, Trajectory);
    if r in Pending(rows, limit) {
      assert r in all;
    }
  }

  lemma {:induction false} KindsSplit(rows: seq<Row>)
    ensures |Urgent(rows)| + |OfKind(rows, Trajectory)| == |rows|
  {
    if rows != [] {
      KindsSplit(rows[..|rows| - 1]);
    }
  }

  /** What is left out of a listing has no priority over anything in it. */
  lemma PendingFirst(rows: seq<Row>, limit: nat, x: Row, y: Row)
    requires Sorted(rows) && x in Pending(rows, limit) && y in rows && y !in Pending(rows, limit)
    ensures y.message.kind == Trajectory || x.message.kind != Trajectory
    ensures (x.message.kind == Trajectory <==> y.message.kind == Trajectory) ==> x.id < y.id
  {
    hide Urgent, OfKind;
    ListedMembers(rows, x);
    ListedMembers(rows, y);
    var u, t := Urgent(rows), OfKind(rows, Trajectory);
    UrgentSorted(rows);
    KindSorted(rows, Trajectory);
    var all := u + t;
    assert x in all && y in all;
    var i :| 0 <= i < |Pending(rows, limit)| && Pending(rows, limit)[i] == x;
    var j :| 0 <= j < |all| && all[j] == y;
    assert all[i] == x && i < j;
    forall k | 0 <= k < |u| ensures u[k].message.kind != Trajectory {
      ListedMembers(rows, u[k]);
    }
    forall k | 0 <= k < |t| ensures t[k].message.kind == Trajectory {
      ListedMembers(rows, t[k]);
    }
  }

  lemma {:induction false} KindSorted(rows: seq<Row>, k: Kind)
    requires Sorted(rows)
    ensures Sorted(OfKind(rows, k))
  {
    if rows != [] {
      var init, r := rows[..|rows| - 1], rows[|rows| - 1];
      KindSorted(init, k);
      forall i | 0 <= i < |OfKind(init, k)| ensures OfKind(init, k)[i].id < r.id {
        KindMembers(init, k, OfKind(init, k)[i]);
        assert OfKind(init, k)[i] in init;
      }
    }
  }

  // ---- no uncapped row is lost -------------------------------------------------------------------------

  lemma {:induction false} KindMembers(rows: seq<Row>, k: Kind, r: Row)
    ensures r in OfKind(rows, k) <==> r in rows && r.message.kind == k
  {
    if rows != [] {
      KindMembers(rows[..|rows| - 1], k, r);
      assert rows == rows[..|rows| - 1] + [rows[|rows| - 1]];
    }
  }

  /** The two ways a row may leave for good reason: its key was acknowledged, or it was handed to the broker. */
  predicate Removes(s: State, op: Op, row: Row) {
    (op.AckKey? && row.dedupe == Some(op.acked)) || (op == SendNext(true) && s.inflight != [] && s.inflight[0] == row)
  }

  lemma StepAccounts(s: State, op: Op, limits: Limits, row: Row)
    requires Inv(s) && row in s.rows && Limit(limits, row.message.kind).None?
    ensures row in Step(s, op, limits).rows || Removes(s, op, row)
  {
    hide KeepNewest, OfKind, Pending;
    match op
    case Enqueue(m, key) =>
      EnqueueBounds(s, m, key, limits, row.message.kind);
      KindMembers(s.rows, row.message.kind, row);
      KindMembers(Step(s, op, limits).rows, row.message.kind, row);
      if m.kind == row.message.kind {
        assert row in Enqueued(s, m, key, limits).rows;
      }
    case AckKey(key) =>
      DeletedShrinks(s.rows, (r: Row) => r.dedupe == Some(key));
    case BeginReplay(_) =>
    case SendNext(ok) =>
      if ok && s.inflight != [] {
        var sent := s.inflight[0];
        DeletedShrinks(s.rows, (r: Row) => r.id == sent.id);
      }
  }

  /**
   Over every run: a row of an uncapped type, once stored, is still there, or its key was
   acknowledged, or a replay handed it to the broker with success.
   */
  lemma {:induction false} RowIsAccounted(s: State, ops: seq<Op>, limits: Limits, from: nat, row: Row)
    requires Inv(s) && from <= |ops| && row in Run(s, ops[..from], limits).rows && Limit(limits, row.message.kind).None?
    ensures row in Run(s, ops, limits).rows || exists j :: from <= j < |ops| && Removes(Run(s, ops[..j], limits), ops[j], row)
  {
    hide Step, Inv, Removes, Limit;
    if from == |ops| {
      assert ops[..from] == ops;
    } else {
      var init, op := ops[..|ops| - 1], ops[|ops| - 1];
      assert init[..from] == ops[..from];
      RowIsAccounted(s, init, limits, from, row);
      if row in Run(s, init, limits).rows {
        RunKeepsInv(s, init, limits);
        StepAccounts(Run(s, init, limits), op, limits, row);
      } else {
        var j :| from <= j < |init| && Removes(Run(s, init[..j], limits), init[j], row);
        assert init[..j] == ops[..j] && init[j] == ops[j];
      }
    }
  }

  lemma {:induction false} RunKeepsInv(s: State, ops: seq<Op>, limits: Limits)
    requires Inv(s)
    ensures Inv(Run(s, ops, limits))
  {
    hide Inv, Step;
    if ops != [] {
      RunKeepsInv(s, ops[..|ops| - 1], limits);
      InvStep(Run(s, ops[..|ops| - 1], limits), ops[|ops| - 1], limits);
    }
  }

  /** In particular every uncapped message enqueued under a free key, from the moment it is enqueued. */
  lemma EnqueuedIsAccounted(s: State, ops: seq<Op>, limits: Limits, i: nat)
    requires Inv(s) && i < |ops| && ops[i].Enqueue? && Limit(limits, ops[i].message.kind).None?
    requires !KeyTaken(Run(s, ops[..i], limits).rows, ops[i].key)
    ensures var row := Row(Run(s, ops[..i], limits).nextId, ops[i].message, ops[i].key);
            row in Run(s, ops, limits).rows || exists j :: i < j < |ops| && Removes(Run(s, ops[..j], limits), ops[j], row)
  {
    hide Removes, Inv;
    var row := Row(Run(s, ops[..i], limits).nextId, ops[i].message, ops[i].key);
    assert ops[..i + 1][..i] == ops[..i];
    assert row in Run(s, ops[..i + 1], limits).rows;
    RowIsAccounted(s, ops, limits, i + 1, row);
  }

  /** The store as a new process finds it: trajectory retention runs once at start-up. */
  function Opened(rows: seq<Row>, nextId: int, limits: Limits): State {
    State(KeepNewest(rows, Trajectory, limits.trajectory), nextId, [])
  }

  lemma TrajectoryAlwaysBounded(rows: seq<Row>, nextId: int, ops: seq<Op>, limits: Limits)
    requires Inv(State(rows, nextId, []))
    ensures Count(Run(Opened(rows, nextId, limits), ops, limits), Trajectory) <= limits.trajectory
  {
    var s := Opened(rows, nextId, limits);
    KeepNewestShrinks(rows, Trajectory, limits.trajectory);
    InvShrinks(State(rows, nextId, []), s.rows);
    KeepNewestExact(rows, Trajectory, limits.trajectory, Trajectory);
    RunKeepsBounds(s, ops, limits, Trajectory);
  }

  predicate LeavesTrajectories(op: Op) {
    !op.AckKey? && !(op.Enqueue? && op.message.kind == Trajectory)
  }

  lemma StepLeavesTrajectories(s: State, op: Op, limits: Limits)
    requires Inv(s) && LeavesTrajectories(op)
    ensures OfKind(Step(s, op, limits).rows, Trajectory) == OfKind(s.rows, Trajectory)
  {
    match op
    case Enqueue(m, key) =>
      EnqueueBounds(s, m, key, limits, Trajectory);
    case BeginReplay(limit) =>
    case SendNext(ok) =>
      if s.inflight != [] && s.inflight[0].message.kind != Trajectory {
        DeletedKeepsKind(s.rows, (r: Row) => r.id == s.inflight[0].id, Trajectory);
      }
  }

  /**
   Replays, interleaved with anything but acknowledgements by key and new trajectory
   batches, never remove a trajectory batch.
   */
  lemma {:induction false} ReplayKeepsTrajectories(s: State, ops: seq<Op>, limits: Limits)
    requires Inv(s) && forall i :: 0 <= i < |ops| ==> LeavesTrajectories(ops[i])
    ensures Inv(Run(s, ops, limits)) && OfKind(Run(s, ops, limits).rows, Trajectory) == OfKind(s.rows, Trajectory)
  {
    hide Step, Inv;
    if ops != [] {
      var init, op := ops[..|ops| - 1], ops[|ops| - 1];
      ReplayKeepsTrajectories(s, init, limits);
      InvStep(Run(s, init, limits), op, limits);
      StepLeavesTrajectories(Run(s, init, limits), op, limits);
    }
  }

  // ---- progress past a trajectory backlog --------------------------------------------------------

  function SendAll(s: State, limits: Limits): State
    decreases |s.inflight|
  {
    if s.inflight == [] then s else SendAll(Step(s, SendNext(true), limits), limits)
  }

  /** One replay whose sends all succeed and which nothing interrupts. */
  function Replayed(s: State, limit: int, limits: Limits): State {
    SendAll(Step(s, BeginReplay(limit), limits), limits)
  }

  function Replays(s: State, limit: int, limits: Limits, k: nat): State {
    if k == 0 then s else Replayed(Replays(s, limit, limits, k - 1), limit, limits)
  }

  /** The non-trajectory rows handed to the broker by k replays, in sending order. */
  function Delivered(s: State, limit: int, limits: Limits, k: nat): seq<Row> {
    if k == 0 then []
    else Delivered(s, limit, limits, k - 1) + Urgent(Pending(Replays(s, limit, limits, k - 1).rows, limit))
  }

  lemma {:induction false} UrgentDeleted(rows: seq<Row>, gone: Row -> bool)
    ensures Urgent(Deleted(rows, gone)) == Deleted(Urgent(rows), gone)
  {
    if rows != [] {
      var init, r := rows[..|rows| - 1], rows[|rows| - 1];
      UrgentDeleted(init, gone);
      UrgentSnoc(Deleted(init, gone), r);
      assert (Urgent(init) + [r])[..|Urgent(init)|] == Urgent(init);
      assert Deleted(init, gone) + [] == Deleted(init, gone);
      assert Urgent(init) + [] == Urgent(init);
    }
  }

  lemma {:induction false} DeletedNone(rows: seq<Row>, gone: Row -> bool)
    requires forall i :: 0 <= i < |rows| ==> !gone(rows[i])
    ensures Deleted(rows, gone) == rows
  {
    if rows != [] {
      DeletedNone(rows[..|rows| - 1], gone);
    }
  }

  lemma {:induction false} DeletedHead(rows: seq<Row>, id: int)
    requires rows != [] && Sorted(rows) && rows[0].id == id
    ensures Deleted(rows, (r: Row) => r.id == id) == rows[1..]
  {
    var gone := (r: Row) => r.id == id;
    if |rows| == 1 {
      assert rows[..0] == [];
    } else {
      var init := rows[..|rows| - 1];
      DeletedHead(init, id);
      assert init[1..] + [rows[|rows| - 1]] == rows[1..];
    }
  }

  lemma {:induction false} UrgentSorted(rows: seq<Row>)
    requires Sorted(rows)
    ensures Sorted(Urgent(rows))
  {
    if rows != [] {
      var init, r := rows[..|rows| - 1], rows[|rows| - 1];
      UrgentSorted(init);
      forall i | 0 <= i < |Urgent(init)| ensures Urgent(init)[i].id < r.id {
        ListedMembers(init, Urgent(init)[i]);
        var j :| 0 <= j < |init| && init[j] == Urgent(init)[i];
        assert rows[j].id < rows[|rows| - 1].id;
      }
    }
  }

  /** In flight: the first n urgent rows, then only trajectory batches. */
  ghost predicate Lined(s: State, n: nat) {
    && n <= |s.inflight| && n <= |Urgent(s.rows)|
    && s.inflight[..n] == Urgent(s.rows)[..n]
    && forall i :: n <= i < |s.inflight| ==> s.inflight[i].message.kind == Trajectory
  }

  lemma {:induction false} UrgentKinds(rows: seq<Row>, i: nat)
    requires i < |Urgent(rows)|
    ensures Urgent(rows)[i].message.kind != Trajectory
  {
    ListedMembers(rows, Urgent(rows)[i]);
  }

  lemma SendOne(s: State, n: nat, limits: Limits)
    requires Inv(s) && Lined(s, n) && s.inflight != []
    ensures var s' := Step(s, SendNext(true), limits);
            && Lined(s', if n == 0 then 0 else n - 1)
            && Urgent(s'.rows) == Urgent(s.rows)[if n == 0 then 0 else 1..]
  {
    hide Urgent, Deleted, OfKind, Sorted, DistinctKeys;
    var u := Urgent(s.rows);
    if n == 0 {
      assert s.inflight[0].message.kind == Trajectory && u[0..] == u;
    } else {
      assert s.inflight[0] == s.inflight[..n][0] == u[0];
      UrgentKinds(s.rows, 0);
      UrgentSorted(s.rows);
      UrgentDeleted(s.rows, (r: Row) => r.id == u[0].id);
      DeletedHead(u, u[0].id);
      assert s.inflight[1..][..n - 1] == s.inflight[..n][1..];
      assert u[1..][..n - 1] == u[..n][1..];
    }
  }

  lemma {:induction false} SendAllEffect(s: State, n: nat, limits: Limits)
    requires Inv(s) && Lined(s, n)
    ensures Inv(SendAll(s, limits))
    ensures Urgent(SendAll(s, limits).rows) == Urgent(s.rows)[n..]
    ensures OfKind(SendAll(s, limits).rows, Trajectory) == OfKind(s.rows, Trajectory)
    decreases |s.inflight|
  {
    hide Inv;
    if s.inflight != [] {
      var s' := Step(s, SendNext(true), limits);
      InvStep(s, SendNext(true), limits);
      SendOne(s, n, limits);
      StepLeavesTrajectories(s, SendNext(true), limits);
      SendAllEffect(s', if n == 0 then 0 else n - 1, limits);
    }
  }

  function Smaller(a: nat, b: nat): (r: nat)
    ensures r <= a && r <= b
  {
    if a < b then a else b
  }

  lemma {:induction false} UrgentConcat(a: seq<Row>, b: seq<Row>)
    ensures Urgent(a + b) == Urgent(a) + Urgent(b)
  {
    if b == [] {
      assert a + b == a;
    } else {
      var init := b[..|b| - 1];
      UrgentConcat(a, init);
      assert (a + b)[..|a + b| - 1] == a + init;
    }
  }

  lemma {:induction false} UrgentOfAllUrgent(rows: seq<Row>)
    requires forall i :: 0 <= i < |rows| ==> rows[i].message.kind != Trajectory
    ensures Urgent(rows) == rows
  {
    if rows != [] {
      UrgentOfAllUrgent(rows[..|rows| - 1]);
    }
  }

  lemma {:induction false} UrgentOfNone(rows: seq<Row>)
    requires forall i :: 0 <= i < |rows| ==> rows[i].message.kind == Trajectory
    ensures Urgent(rows) == []
  {
    if rows != [] {
      UrgentOfNone(rows[..|rows| - 1]);
    }
  }

  lemma ListingShape(rows: seq<Row>, limit: int)
    requires limit >= 1
    ensures var n := Smaller(|Urgent(rows)|, limit);
            && n <= |Pending(rows, limit)| && Pending(rows, limit)[..n] == Urgent(rows)[..n]
            && (forall i :: n <= i < |Pending(rows, limit)| ==> Pending(rows, limit)[i].message.kind == Trajectory)
            && Urgent(Pending(rows, limit)) == Urgent(rows)[..n]
  {
    hide Urgent, OfKind;
    var u, t := Urgent(rows), OfKind(rows, Trajectory);
    var n := Smaller(|u|, limit);
    var p := Pending(rows, limit);
    forall i | n <= i < |p| ensures p[i].message.kind == Trajectory {
      assert p[i] == t[i - |u|];
      ListedMembers(rows, p[i]);
    }
    forall i | 0 <= i < n ensures p[..n][i].message.kind != Trajectory {
      UrgentKinds(rows, i);
    }
    assert p == p[..n] + p[n..];
    UrgentConcat(p[..n], p[n..]);
    UrgentOfAllUrgent(p[..n]);
    UrgentOfNone(p[n..]);
  }

  lemma ReplayOnce(s: State, limit: int, limits: Limits)
    requires Inv(s) && limit >= 1
    ensures var n := Smaller(|Urgent(s.rows)|, limit);
            && Inv(Replayed(s, limit, limits))
            && Urgent(Replayed(s, limit, limits).rows) == Urgent(s.rows)[n..]
            && OfKind(Replayed(s, limit, limits).rows, Trajectory) == OfKind(s.rows, Trajectory)
  {
    hide Inv, Pending;
    InvStep(s, BeginReplay(limit), limits);
    ListingShape(s.rows, limit);
    SendAllEffect(Step(s, BeginReplay(limit), limits), Smaller(|Urgent(s.rows)|, limit), limits);
  }

  lemma {:induction false} ReplayProgress(s: State, limit: int, limits: Limits, k: nat)
    requires Inv(s) && limit >= 1
    ensures var n := Smaller(|Urgent(s.rows)|, k * limit);
            var s' := Replays(s, limit, limits, k);
            && Inv(s')
            && Urgent(s'.rows) == Urgent(s.rows)[n..] && Delivered(s, limit, limits, k) == Urgent(s.rows)[..n]
            && OfKind(s'.rows, Trajectory) == OfKind(s.rows, Trajectory)
  {
    hide Inv, Replayed, Pending, Urgent, OfKind, Smaller;
    var u := Urgent(s.rows);
    if k == 0 {
      Prefixes(u, 0, 0);
      assert Smaller(|u|, 0 * limit) == 0;
    } else {
      ReplayProgress(s, limit, limits, k - 1);
      var s1 := Replays(s, limit, limits, k - 1);
      ReplayOnce(s1, limit, limits);
      ListingShape(s1.rows, limit);
      var done := Smaller(|u|, (k - 1) * limit);
      Prefixes(u, done, Smaller(|u| - done, limit));
      NextPrefix(|u|, k, limit);
    }
  }

  /** One more listing extends the delivered prefix by what it lists. */
  lemma NextPrefix(n: nat, k: nat, limit: nat)
    requires k >= 1
    ensures Smaller(n, (k - 1) * limit) <= n
    ensures var done := Smaller(n, (k - 1) * limit);
            done + Smaller(n - done, limit) == Smaller(n, k * limit)
  {
    var product := (k - 1) * limit;
    assert k * limit == product + limit;
  }

  lemma Prefixes(u: seq<Row>, a: nat, c: nat)
    requires a + c <= |u|
    ensures u[a..][..c] == u[a..a + c] && u[a..][c..] == u[a + c..] && u[..a] + u[a..][..c] == u[..a + c]
    ensures u[..0] == [] && u[0..] == u
  {
  }

  /**
   With every send succeeding and nothing new enqueued, ceil(n / limit) replays deliver all n
   non-trajectory rows in id order and remove them, whatever trajectory backlog there is.
   */
  lemma ReplayDrains(s: State, limit: int, limits: Limits)
    requires Inv(s) && limit >= 1
    ensures var k := (|Urgent(s.rows)| + limit - 1) / limit;
            && Urgent(Replays(s, limit, limits, k).rows) == [] && Delivered(s, limit, limits, k) == Urgent(s.rows)
            && Sorted(Urgent(s.rows))
            && OfKind(Replays(s, limit, limits, k).rows, Trajectory) == OfKind(s.rows, Trajectory)
  {
    hide Urgent, Replays, Delivered, OfKind, Sorted;
    var n := |Urgent(s.rows)|;
    var k := (n + limit - 1) / limit;
    CeilingCovers(n, limit);
    ReplayProgress(s, limit, limits, k);
    UrgentSorted(s.rows);
  }

  lemma CeilingCovers(n: nat, limit: int)
    requires limit >= 1
    ensures (n + limit - 1) / limit >= 0 && (n + limit - 1) / limit * limit >= n
  {
    var x := n + limit - 1;
    assert x == x / limit * limit + x % limit;
  }
}
