/** The outbox table as an object and the MQTT client that fills and drains it. */
module Uplink {
  import opened Wrappers
  import opened Outbox

  /** Sends of one listing with the broker's return codes, starting at send number i. */
  function SendEach(s: State, limits: Limits, rc: nat -> bool, i: nat): State
    decreases |s.inflight|
  {
    if s.inflight == [] then s else SendEach(Step(s, SendNext(rc(i)), limits), limits, rc, i + 1)
  }

  lemma {:induction false} SendEachSucceeds(s: State, limits: Limits, rc: nat -> bool, i: nat)
    requires forall k :: rc(k)
    ensures SendEach(s, limits, rc, i) == SendAll(s, limits)
    decreases |s.inflight|
  {
    if s.inflight != [] {
      SendEachSucceeds(Step(s, SendNext(true), limits), limits, rc, i + 1);
    }
  }

  class OutboxStore {
    var rows: seq<Row>
    var nextId: int
    const limits: Limits

    ghost function Contents(): State
      reads this
    {
      State(rows, nextId, [])
    }

    ghost predicate Valid()
      reads this
    {
      Inv(Contents()) && limits.trajectory >= 1 && limits.systemLog >= 1
    }

    constructor (stored: seq<Row>, next: int, trajectoryLimit: int, systemLogLimit: int)
      requires Inv(State(stored, next, []))
      ensures Valid() && limits == Limits(AtLeastOne(trajectoryLimit), AtLeastOne(systemLogLimit))
      ensures Contents() == Opened(stored, next, limits)
    {
      rows, nextId := stored, next;
      limits := Limits(AtLeastOne(trajectoryLimit), AtLeastOne(systemLogLimit));
      new;
      Prune(Trajectory, limits.trajectory);
      KeepNewestShrinks(stored, Trajectory, limits.trajectory);
      InvShrinks(State(stored, next, []), rows);
    }

    /** The DELETE of one capped type: walk from the newest row and stop keeping at the limit. */
    method Prune(k: Kind, limit: nat)
      modifies this`rows
      ensures rows == KeepNewest(old(rows), k, limit)
    {
      var kept: seq<Row> := [];
      var left, i := limit, |rows|;
      assert rows[..i] == rows;
      while i > 0
        invariant 0 <= i <= |rows|
        invariant KeepNewest(rows, k, limit) == KeepNewest(rows[..i], k, left) + kept
      {
        var r := rows[i - 1];
        assert rows[..i][..i - 1] == rows[..i - 1];
        if r.message.kind != k {
          kept := [r] + kept;
        } else if left > 0 {
          kept, left := [r] + kept, left - 1;
        }
        i := i - 1;
      }
      rows := kept;
    }

    method Enqueue(m: Message, key: Option<string>)
      requires Valid()
      modifies this`rows, this`nextId
      ensures Valid() && Contents() == Enqueued(old(Contents()), m, key, limits)
    {
      hide Inv, KeepNewest;
      ghost var before := Contents();
      var taken := false;
      for i := 0 to |rows|
        invariant taken <==> key.Some? && exists j :: 0 <= j < i && rows[j].dedupe == key
      {
        if key.Some? && rows[i].dedupe == key {
          taken := true;
        }
      }
      if !taken {
        rows, nextId := rows + [Row(nextId, m, key)], nextId + 1;
      }
      if m.kind == Trajectory {
        Prune(Trajectory, limits.trajectory);
      } else if m.kind == SystemLog {
        Prune(SystemLog, limits.systemLog);
      }
      InvEnqueued(before, m, key, limits);
    }

    method AcknowledgeKey(key: string)
      requires Valid()
      modifies this`rows
      ensures Valid() && Contents() == AckedKey(old(Contents()), key)
    {
      ghost var before := Contents();
      ghost var gone := (r: Row) => r.dedupe == Some(key);
      var kept: seq<Row> := [];
      assert rows[..0] == [];
      for i := 0 to |rows|
        invariant kept == Deleted(rows[..i], gone)
      {
        assert rows[..i + 1][..i] == rows[..i];
        if rows[i].dedupe != Some(key) {
          kept := kept + [rows[i]];
        }
      }
      assert rows[..|rows|] == rows;
      DeletedShrinks(rows, gone);
      InvShrinks(before, kept);
      rows := kept;
    }

    method AcknowledgeId(id: int)
      modifies this`rows
      ensures rows == AckedId(old(Contents()), id).rows
    {
      ghost var gone := (r: Row) => r.id == id;
      var kept: seq<Row> := [];
      assert rows[..0] == [];
      for i := 0 to |rows|
        invariant kept == Deleted(rows[..i], gone)
      {
        assert rows[..i + 1][..i] == rows[..i];
        if rows[i].id != id {
          kept := kept + [rows[i]];
        }
      }
      assert rows[..|rows|] == rows;
      rows := kept;
    }

    method ListPending(limit: nat) returns (listed: seq<Row>)
      ensures listed == Pending(rows, limit)
    {
      var urgent: seq<Row> := [];
      var batches: seq<Row> := [];
      assert rows[..0] == [];
      for i := 0 to |rows|
        invariant urgent == Urgent(rows[..i]) && batches == OfKind(rows[..i], Trajectory)
      {
        assert rows[..i + 1][..i] == rows[..i];
        if rows[i].message.kind == Trajectory {
          batches := batches + [rows[i]];
        } else {
          urgent := urgent + [rows[i]];
        }
      }
      assert rows[..|rows|] == rows;
      listed := urgent + batches;
      if |listed| > limit {
        listed := listed[..limit];
      }
    }
  }

  function AtLeastOne(n: int): nat {
    if n < 1 then 1 else n
  }

  class EdgeMqttClient {
    const store: OutboxStore
    var connected: bool

    constructor (s: OutboxStore)
      ensures store == s && !connected
    {
      store, connected := s, false;
    }

    /**
     `replay_outbox`: list once, send each row, delete a row as soon as its send succeeds
     unless it is a trajectory batch. rc(i) is the broker's answer to the i-th send.
     */
    method ReplayOutbox(batchSize: int, rc: nat -> bool) returns (sent: nat)
      requires store.Valid()
      modifies store`rows
      ensures store.Valid()
      ensures !connected ==> sent == 0 && store.rows == old(store.rows)
      ensures connected ==> sent == |Pending(old(store.rows), AtLeastOne(batchSize))|
      ensures connected ==>
                store.Contents() == SendEach(Step(old(store.Contents()), BeginReplay(AtLeastOne(batchSize)), store.limits), store.limits, rc, 0)
    {
      hide Inv, Deleted, Pending;
      sent := 0;
      if !connected {
        return;
      }
      var listed := store.ListPending(AtLeastOne(batchSize));
      ghost var begun := Step(store.Contents(), BeginReplay(AtLeastOne(batchSize)), store.limits);
      InvStep(store.Contents(), BeginReplay(AtLeastOne(batchSize)), store.limits);
      assert listed[0..] == listed;
      ghost var now := begun;
      while sent < |listed|
        invariant sent <= |listed|
        invariant now == State(store.rows, store.nextId, listed[sent..])
        invariant Inv(now)
        invariant SendEach(now, store.limits, rc, sent) == SendEach(begun, store.limits, rc, 0)
      {
        var r := listed[sent];
        InvStep(now, SendNext(rc(sent)), store.limits);
        assert listed[sent..][1..] == listed[sent + 1..];
        if rc(sent) && r.message.kind != Trajectory {
          store.AcknowledgeId(r.id);
        }
        now := Step(now, SendNext(rc(sent)), store.limits);
        sent := sent + 1;
      }
    }

    /**
     `publish`: rc and confirmed are the broker's answers. A message of quality of service 1 or
     more that was not handed over is in the outbox afterwards, or a row with its key already was.
     */
    method Publish(m: Message, batchId: Option<string>, wait: bool, rc: bool, confirmed: bool) returns (handed: bool)
      requires store.Valid()
      modifies store`rows, store`nextId
      ensures store.Valid()
      ensures handed <==> connected && rc && (!wait || m.qos < 1 || confirmed)
      ensures handed || (!connected && m.qos == 0) ==> store.Contents() == old(store.Contents())
      ensures !handed && !(!connected && m.qos == 0) ==>
                store.Contents() == Enqueued(old(store.Contents()), m, if connected then None else batchId, store.limits)
    {
      handed := false;
      if !connected {
        if m.qos == 0 {
          return;
        }
        store.Enqueue(m, batchId);
        return;
      }
      if !rc {
        store.Enqueue(m, None);
        return;
      }
      if !wait || m.qos < 1 {
        handed := true;
        return;
      }
      if !confirmed {
        store.Enqueue(m, None);
        return;
      }
      handed := true;
    }
  }

  lemma {:induction false} LastHasNewest(rows: seq<Row>, r: Row, limit: nat)
    requires limit >= 1
    ensures r in KeepNewest(rows + [r], r.message.kind, limit)
  {
    assert (rows + [r])[..|rows|] == rows;
  }

  lemma {:induction false} KeepNewestAll(rows: seq<Row>, k: Kind, limit: nat)
    requires |OfKind(rows, k)| <= limit
    ensures KeepNewest(rows, k, limit) == rows
  {
    if rows != [] {
      var init, r := rows[..|rows| - 1], rows[|rows| - 1];
      KeepNewestAll(init, k, if r.message.kind == k then limit - 1 else limit);
    }
  }

  /** Nothing enqueued is lost at once: the new row survives its own retention, or its key was already stored. */
  lemma EnqueueStores(s: State, m: Message, key: Option<string>, limits: Limits)
    requires limits.trajectory >= 1 && limits.systemLog >= 1
    requires Limit(limits, m.kind).Some? ==> Count(s, m.kind) <= Limit(limits, m.kind).value
    ensures var s' := Enqueued(s, m, key, limits);
            if KeyTaken(s.rows, key) then s' == s else Row(s.nextId, m, key) in s'.rows
  {
    hide OfKind, KeepNewest;
    if KeyTaken(s.rows, key) {
      if Limit(limits, m.kind).Some? {
        KeepNewestAll(s.rows, m.kind, Limit(limits, m.kind).value);
      }
    } else if Limit(limits, m.kind).Some? {
      LastHasNewest(s.rows, Row(s.nextId, m, key), Limit(limits, m.kind).value);
    }
  }
}
