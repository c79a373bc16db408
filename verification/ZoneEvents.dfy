/** Zone events and what a consumer reconstructs by folding them. */
module ZoneEvents {
  datatype Kind = Entered | Exited | Approaching | ApproachCleared

  datatype Event = Event(kind: Kind, key: string)

  function RegionAfter(s: set<string>, e: Event): set<string> {
    match e.kind
    case Entered => s + {e.key}
    case Exited => s - {e.key}
    case _ => s
  }

  function NearAfter(s: set<string>, e: Event): set<string> {
    match e.kind
    case Approaching => s + {e.key}
    case ApproachCleared => s - {e.key}
    case Entered => s - {e.key}
    case Exited => s
  }

  function FoldRegions(s: set<string>, es: seq<Event>): set<string>
    decreases |es|
  {
    if es == [] then s else FoldRegions(RegionAfter(s, es[0]), es[1..])
  }

  function FoldNear(s: set<string>, es: seq<Event>): set<string>
    decreases |es|
  {
    if es == [] then s else FoldNear(NearAfter(s, es[0]), es[1..])
  }

  lemma {:induction false} FoldRegionsConcat(s: set<string>, a: seq<Event>, b: seq<Event>)
    ensures FoldRegions(s, a + b) == FoldRegions(FoldRegions(s, a), b)
    decreases |a|
  {
    if a == [] {
      assert a + b == b;
    } else {
      assert (a + b)[1..] == a[1..] + b;
      FoldRegionsConcat(RegionAfter(s, a[0]), a[1..], b);
    }
  }

  lemma {:induction false} FoldNearConcat(s: set<string>, a: seq<Event>, b: seq<Event>)
    ensures FoldNear(s, a + b) == FoldNear(FoldNear(s, a), b)
    decreases |a|
  {
    if a == [] {
      assert a + b == b;
    } else {
      assert (a + b)[1..] == a[1..] + b;
      FoldNearConcat(NearAfter(s, a[0]), a[1..], b);
    }
  }

  function KeysOf(es: seq<Event>): set<string> {
    set i | 0 <= i < |es| :: es[i].key
  }

  /** One batch: every event of the given kind, one for each key, in any order. */
  predicate Batch(es: seq<Event>, kind: Kind, keys: set<string>) {
    (forall i :: 0 <= i < |es| ==> es[i].kind == kind) && KeysOf(es) == keys
  }

  lemma BatchSnoc(es: seq<Event>, kind: Kind, keys: set<string>, k: string)
    requires Batch(es, kind, keys)
    ensures Batch(es + [Event(kind, k)], kind, keys + {k})
  {
    var es' := es + [Event(kind, k)];
    forall x | x in keys + {k} ensures x in KeysOf(es') {
      if x in keys {
        var i :| 0 <= i < |es| && es[i].key == x;
        assert es'[i].key == x;
      } else {
        assert es'[|es|].key == x;
      }
    }
    forall x | x in KeysOf(es') ensures x in keys + {k} {
      var i :| 0 <= i < |es'| && es'[i].key == x;
      if i < |es| {
        assert es[i].key == x;
      }
    }
  }

  /** A loop over a set difference: one event per key, the order is the set's. */
  method Emit(kind: Kind, keys: set<string>) returns (es: seq<Event>)
    ensures Batch(es, kind, keys)
    ensures |es| == |keys|
  {
    hide Batch;
    es := [];
    var todo := keys;
    ghost var done := {};
    EmptyBatch(kind);
    while todo != {}
      invariant keys == done + todo && done !! todo
      invariant Batch(es, kind, done) && |es| == |done|
      decreases |todo|
    {
      var k :| k in todo;
      BatchSnoc(es, kind, done, k);
      es, done, todo := es + [Event(kind, k)], done + {k}, todo - {k};
    }
    assert keys == done;
  }

  lemma EmptyBatch(kind: Kind)
    ensures Batch([], kind, {})
  {
  }

  lemma {:induction false} FoldRegionsBatch(s: set<string>, es: seq<Event>, kind: Kind, keys: set<string>)
    requires Batch(es, kind, keys)
    ensures FoldRegions(s, es) == match kind case Entered => s + keys case Exited => s - keys case _ => s
    decreases |es|
  {
    if es != [] {
      BatchTail(es, kind, keys);
      FoldRegionsBatch(RegionAfter(s, es[0]), es[1..], kind, KeysOf(es[1..]));
    }
  }

  lemma {:induction false} FoldNearBatch(s: set<string>, es: seq<Event>, kind: Kind, keys: set<string>)
    requires Batch(es, kind, keys)
    ensures FoldNear(s, es)
         == match kind case Approaching => s + keys case ApproachCleared => s - keys case Entered => s - keys case Exited => s
    decreases |es|
  {
    if es != [] {
      BatchTail(es, kind, keys);
      FoldNearBatch(NearAfter(s, es[0]), es[1..], kind, KeysOf(es[1..]));
    }
  }

  lemma BatchTail(es: seq<Event>, kind: Kind, keys: set<string>)
    requires Batch(es, kind, keys) && es != []
    ensures Batch(es[1..], kind, KeysOf(es[1..])) && keys == {es[0].key} + KeysOf(es[1..])
  {
    forall k | k in keys ensures k in {es[0].key} + KeysOf(es[1..]) {
      var i :| 0 <= i < |es| && es[i].key == k;
      if i > 0 {
        assert es[1..][i - 1] == es[i];
      }
    }
    forall k | k in KeysOf(es[1..]) ensures k in keys {
      var i :| 0 <= i < |es[1..]| && es[1..][i].key == k;
      assert es[i + 1] == es[1..][i];
    }
  }

  /** The four batches one observation emits, in the source's order. */
  ghost predicate StepEvents(es: seq<Event>, regions: set<string>, regions': set<string>, near: set<string>, near': set<string>) {
    exists a: seq<Event>, b: seq<Event>, c: seq<Event>, d: seq<Event> ::
      es == a + b + c + d &&
      Batch(a, Entered, regions' - regions) && Batch(b, Exited, regions - regions') &&
      Batch(c, Approaching, near' - near) && Batch(d, ApproachCleared, near - near' - regions')
  }

  lemma RegionsReconstructed(es: seq<Event>, regions: set<string>, regions': set<string>, near: set<string>, near': set<string>)
    requires StepEvents(es, regions, regions', near, near')
    ensures FoldRegions(regions, es) == regions'
  {
    var a: seq<Event>, b: seq<Event>, c: seq<Event>, d: seq<Event> :|
      es == a + b + c + d &&
      Batch(a, Entered, regions' - regions) && Batch(b, Exited, regions - regions') &&
      Batch(c, Approaching, near' - near) && Batch(d, ApproachCleared, near - near' - regions');
    FoldRegionsConcat(regions, a + b + c, d);
    FoldRegionsConcat(regions, a + b, c);
    FoldRegionsConcat(regions, a, b);
    FoldRegionsBatch(regions, a, Entered, regions' - regions);
    var s := regions + (regions' - regions);
    FoldRegionsBatch(s, b, Exited, regions - regions');
    FoldRegionsBatch(regions', c, Approaching, near' - near);
    FoldRegionsBatch(regions', d, ApproachCleared, near - near' - regions');
    assert s - (regions - regions') == regions';
  }

  /**
   Exactly when folding recovers the near set: no key that stays near enters a region, and
   no key that stops being near sits in a region both before and after.
   */
  lemma NearReconstructed(es: seq<Event>, regions: set<string>, regions': set<string>, near: set<string>, near': set<string>)
    requires StepEvents(es, regions, regions', near, near')
    ensures FoldNear(near, es) == near'
       <==> (near * near') * (regions' - regions) == {} && (near - near') * (regions * regions') == {}
  {
    var a: seq<Event>, b: seq<Event>, c: seq<Event>, d: seq<Event> :|
      es == a + b + c + d &&
      Batch(a, Entered, regions' - regions) && Batch(b, Exited, regions - regions') &&
      Batch(c, Approaching, near' - near) && Batch(d, ApproachCleared, near - near' - regions');
    FoldNearConcat(near, a + b + c, d);
    FoldNearConcat(near, a + b, c);
    FoldNearConcat(near, a, b);
    FoldNearBatch(near, a, Entered, regions' - regions);
    var s1 := near - (regions' - regions);
    FoldNearBatch(s1, b, Exited, regions - regions');
    FoldNearBatch(s1, c, Approaching, near' - near);
    var s2 := s1 + (near' - near);
    FoldNearBatch(s2, d, ApproachCleared, near - near' - regions');
    NearAlgebra(regions, regions', near, near', s2 - (near - near' - regions'));
  }

  lemma NearAlgebra(regions: set<string>, regions': set<string>, near: set<string>, near': set<string>, folded: set<string>)
    requires folded == ((near - (regions' - regions)) + (near' - near)) - (near - near' - regions')
    ensures folded == near'
       <==> (near * near') * (regions' - regions) == {} && (near - near') * (regions * regions') == {}
  {
    if folded == near' {
      assert forall x :: x in near * near' ==> x in folded;
      assert forall x :: x in (near - near') * (regions * regions') ==> x in folded;
    }
    if (near * near') * (regions' - regions) == {} && (near - near') * (regions * regions') == {} {
      forall x ensures x in folded <==> x in near' {
        if x in near && x in near' {
          assert x !in (near * near') * (regions' - regions) && x in near * near';
        } else if x in near {
          assert x !in (near - near') * (regions * regions') && x in near - near';
        }
      }
      assert folded == near';
    }
  }
}
