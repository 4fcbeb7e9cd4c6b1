/**
 * Per-user traffic accounting (v2board/traffic.go).
 *
 * The manager keeps one (upload, download) counter pair per user id. Every
 * call is one atomic step: the read/write lock and the atomic integers of
 * the source are not modelled.
 */
module Traffic {
  import opened Panel

  /** The two counters of one user (userTraffic). */
  datatype Counter = Counter(upload: int, download: int)

  const Zero := Counter(0, 0)

  /** A counter carries traffic when either direction is positive. */
  predicate HasTraffic(c: Counter) {
    c.upload > 0 || c.download > 0
  }

  /** No counter ever goes negative. */
  predicate NonNegative(m: map<int, Counter>) {
    forall id :: id in m ==> m[id].upload >= 0 && m[id].download >= 0
  }

  /** The positive part of an amount: what `Record` adds for it. */
  function Positive(x: int): (r: nat)
    ensures x > 0 ==> r == x
    ensures x <= 0 ==> r == 0
  {
    if x > 0 then x else 0
  }

  /**
   * The counters after recording (upload, download) for `id`: nothing
   * happens when both amounts are non-positive; otherwise the counter is
   * created at zero if absent and the positive amounts are added.
   */
  function Recorded(m: map<int, Counter>, id: int, upload: int, download: int): map<int, Counter>
  {
    if upload <= 0 && download <= 0 then m
    else
      var c := if id in m then m[id] else Zero;
      m[id := Counter(c.upload + Positive(upload), c.download + Positive(download))]
  }

  /** The batch a push samples: every counter with traffic, with its value. */
  function Sampled(m: map<int, Counter>): map<int, Counter>
  {
    map id | id in m && HasTraffic(m[id]) :: m[id]
  }

  /** Every counter reset to zero; no entry is removed. */
  function Drained(m: map<int, Counter>): map<int, Counter>
  {
    map id | id in m :: Zero
  }

  /** The report lines read as a map from user id to amounts (later lines win). */
  function BatchOf(records: seq<TrafficRecord>): map<int, Counter>
  {
    if records == [] then map[]
    else
      var r := records[|records| - 1];
      BatchOf(records[..|records| - 1])[r.userId := Counter(r.upload, r.download)]
  }

  /** No user id occurs on two report lines. */
  predicate DistinctIds(records: seq<TrafficRecord>) {
    forall i, j :: 0 <= i < j < |records| ==> records[i].userId != records[j].userId
  }

  /**
   * The counters after each report line's amounts are added back onto its
   * user's counter, line by line; a line whose user has no counter is skipped.
   */
  function AddedBack(m: map<int, Counter>, records: seq<TrafficRecord>): map<int, Counter>
  {
    if records == [] then m
    else
      var r := records[|records| - 1];
      var prev := AddedBack(m, records[..|records| - 1]);
      if r.userId in prev then
        prev[r.userId := Counter(prev[r.userId].upload + r.upload, prev[r.userId].download + r.download)]
      else prev
  }

  /** What a push did: no sink call, a batch the sink accepted, or one it refused. */
  datatype PushOutcome =
    | Idle
    | Delivered(records: seq<TrafficRecord>)
    | Failed(records: seq<TrafficRecord>)

  class TrafficManager {
    var counters: map<int, Counter>

    ghost predicate Valid()
      reads this
    {
      NonNegative(counters)
    }

    /** NewTrafficManager: no user has a counter yet. */
    constructor ()
      ensures Valid()
      ensures counters == map[]
    {
      counters := map[];
    }

    /** Record: adds the positive amounts of one finished connection. */
    method Record(userId: int, upload: int, download: int)
      requires Valid()
      modifies this
      ensures Valid()
      ensures counters == Recorded(old(counters), userId, upload, download)
    {
      if upload <= 0 && download <= 0 {
        return;
      }
      if userId !in counters {
        // create the counter only when it is still absent
        counters := counters[userId := Zero];
      }
      var c := counters[userId];
      if upload > 0 {
        c := c.(upload := c.upload + upload);
        counters := counters[userId := c];
      }
      if download > 0 {
        c := c.(download := c.download + download);
        counters := counters[userId := c];
      }
    }

    /**
     * push: takes and zeroes every counter, reports the users with traffic
     * to `sink` (the panel's PushTraffic, true when it accepts the batch)
     * and, when the sink refuses, adds every sampled amount back.
     */
    method Push(sink: seq<TrafficRecord> -> bool) returns (outcome: PushOutcome)
      requires Valid()
      modifies this
      ensures Valid()
      ensures outcome.Idle? <==> Sampled(old(counters)) == map[]
      ensures !outcome.Idle? ==>
        && DistinctIds(outcome.records)
        && BatchOf(outcome.records) == Sampled(old(counters))
        && (outcome.Delivered? <==> sink(outcome.records))
      ensures counters == if outcome.Failed? then old(counters) else Drained(old(counters))
    {
      ghost var before := counters;
      var records := TakeAll();
      if |records| == 0 {
        DrainedWhenIdle(before);
        return Idle;
      }
      BatchOfAt(records, 0);
      var ok := sink(records);
      if !ok {
        forall i | 0 <= i < |records|
          ensures records[i].upload >= 0 && records[i].download >= 0
        {
          BatchOfAt(records, i);
        }
        Restore(records);
        RestoredAll(before, records);
        return Failed(records);
      }
      outcome := Delivered(records);
    }

    /**
     * The sampling loop of push: swaps both counters of every user to zero,
     * visiting the users in no fixed order, and keeps a report line for each
     * user whose sampled amounts show traffic.
     */
    method TakeAll() returns (records: seq<TrafficRecord>)
      requires Valid()
      modifies this
      ensures Valid()
      ensures counters == Drained(old(counters))
      ensures DistinctIds(records)
      ensures BatchOf(records) == Sampled(old(counters))
    {
      ghost var before := counters;
      records := [];
      var pending := counters.Keys;
      while exists id :: id in pending
        invariant pending <= before.Keys
        invariant counters.Keys == before.Keys
        invariant forall id :: id in pending ==> counters[id] == before[id]
        invariant forall id :: id in before && id !in pending ==> counters[id] == Zero
        invariant forall i :: 0 <= i < |records| ==> records[i].userId !in pending
        invariant DistinctIds(records)
        invariant forall id :: id in BatchOf(records) <==> id in before && id !in pending && HasTraffic(before[id])
        invariant forall id :: id in BatchOf(records) ==> BatchOf(records)[id] == before[id]
        decreases pending
      {
        var id :| id in pending;
        var c := counters[id];
        counters := counters[id := c.(upload := 0)];
        counters := counters[id := Zero];
        if c.upload > 0 || c.download > 0 {
          BatchOfAppend(records, TrafficRecord(id, c.upload, c.download));
          records := records + [TrafficRecord(id, c.upload, c.download)];
        }
        pending := pending - {id};
      }
      forall id ensures id in BatchOf(records) <==> id in Sampled(before) {
        assert id !in pending;
      }
      forall id | id in BatchOf(records) ensures BatchOf(records)[id] == Sampled(before)[id] {}
      assert BatchOf(records) == Sampled(before);
      forall id ensures id in counters <==> id in Drained(before) {}
      forall id | id in counters ensures counters[id] == Drained(before)[id] {
        assert id !in pending;
      }
    }

    /**
     * The restore loop of push: adds each report line's amounts back onto
     * the live counter of its user, when that user still has a counter.
     */
    method Restore(records: seq<TrafficRecord>)
      requires Valid()
      requires forall i :: 0 <= i < |records| ==> records[i].upload >= 0 && records[i].download >= 0
      modifies this
      ensures Valid()
      ensures counters == AddedBack(old(counters), records)
    {
      ghost var before := counters;
      var i := 0;
      while i < |records|
        invariant 0 <= i <= |records|
        invariant NonNegative(counters)
        invariant counters == AddedBack(before, records[..i])
      {
        var rec := records[i];
        assert records[..i + 1][..i] == records[..i];
        if rec.userId in counters {
          var c := counters[rec.userId];
          counters := counters[rec.userId := Counter(c.upload + rec.upload, c.download + rec.download)];
        }
        i := i + 1;
      }
      assert records[..|records|] == records;
    }
  }

  /** Appending one line extends the batch map by that line. */
  lemma BatchOfAppend(records: seq<TrafficRecord>, r: TrafficRecord)
    ensures BatchOf(records + [r]) == BatchOf(records)[r.userId := Counter(r.upload, r.download)]
  {
    assert (records + [r])[..|records|] == records;
  }

  /** The keys of a batch are exactly the ids of its lines. */
  lemma {:induction false} BatchOfKeys(records: seq<TrafficRecord>)
    ensures BatchOf(records).Keys == set i | 0 <= i < |records| :: records[i].userId
  {
    if records != [] {
      var init := records[..|records| - 1];
      BatchOfKeys(init);
      assert forall i :: 0 <= i < |init| ==> init[i] == records[i];
    }
  }

  /** With distinct ids, each line's amounts are what the batch holds for its id. */
  lemma {:induction false} BatchOfAt(records: seq<TrafficRecord>, k: nat)
    requires DistinctIds(records)
    requires k < |records|
    ensures records[k].userId in BatchOf(records)
    ensures BatchOf(records)[records[k].userId] == Counter(records[k].upload, records[k].download)
  {
    var n := |records|;
    if k < n - 1 {
      var init := records[..n - 1];
      assert init[k] == records[k];
      BatchOfAt(init, k);
    }
  }

  /** When nothing has traffic, draining changes nothing. */
  lemma DrainedWhenIdle(m: map<int, Counter>)
    requires NonNegative(m)
    requires Sampled(m) == map[]
    ensures Drained(m) == m
  {
    forall id | id in m
      ensures m[id] == Zero
    {
      assert id !in Sampled(m);
    }
  }

  /**
   * Adding back a batch with distinct ids adds, to each counter, the batch's
   * amounts for that user, and leaves every other counter as it was.
   */
  lemma {:induction false} AddedBackPointwise(m: map<int, Counter>, records: seq<TrafficRecord>, id: int)
    requires DistinctIds(records)
    ensures AddedBack(m, records).Keys == m.Keys
    ensures id in m && id !in BatchOf(records) ==> AddedBack(m, records)[id] == m[id]
    ensures id in m && id in BatchOf(records) ==>
      AddedBack(m, records)[id] == Counter(m[id].upload + BatchOf(records)[id].upload, m[id].download + BatchOf(records)[id].download)
  {
    if records != [] {
      var n := |records|;
      var init := records[..n - 1];
      var r := records[n - 1];
      assert DistinctIds(init);
      AddedBackPointwise(m, init, id);
      AddedBackPointwise(m, init, r.userId);
      BatchOfKeys(init);
      assert r.userId !in BatchOf(init) by {
        forall k | 0 <= k < |init| ensures init[k].userId != r.userId {
          assert init[k] == records[k];
        }
      }
    }
  }

  /** Adding the sampled batch back onto the drained counters restores them. */
  lemma RestoredAll(before: map<int, Counter>, records: seq<TrafficRecord>)
    requires NonNegative(before)
    requires DistinctIds(records)
    requires BatchOf(records) == Sampled(before)
    ensures AddedBack(Drained(before), records) == before
  {
    var after := AddedBack(Drained(before), records);
    forall id | id in before
      ensures id in after && after[id] == before[id]
    {
      AddedBackPointwise(Drained(before), records, id);
      assert id !in Sampled(before) ==> before[id] == Zero;
    }
    AddedBackPointwise(Drained(before), records, 0);
    forall id ensures id in after <==> id in before {}
  }

  /**
   * What one Record call does: non-positive amounts change nothing (no
   * counter is created); otherwise `id` gets a counter, starting from zero
   * when it had none, that grows by the positive amounts only, every other
   * counter is untouched, and no counter becomes negative.
   */
  lemma RecordEffect(m: map<int, Counter>, id: int, upload: int, download: int)
    requires NonNegative(m)
    ensures var r := Recorded(m, id, upload, download);
      && (upload <= 0 && download <= 0 ==> r == m)
      && (upload > 0 || download > 0 ==>
            && r.Keys == m.Keys + {id}
            && var c := if id in m then m[id] else Zero;
               r[id] == Counter(c.upload + Positive(upload), c.download + Positive(download)))
      && (forall other :: other in m && other != id ==> other in r && r[other] == m[other])
      && m.Keys <= r.Keys
      && NonNegative(r)
  {
  }

  /**
   * What a push leaves behind: every user keeps a counter, now zero; only
   * users with traffic are reported, with their amounts; and what is
   * reported plus what is left equals what there was.
   */
  lemma PushAccounting(m: map<int, Counter>)
    requires NonNegative(m)
    ensures Drained(m).Keys == m.Keys && NonNegative(Drained(m))
    ensures Sampled(m).Keys <= m.Keys
    ensures forall id :: id in m ==>
      var reported := if id in Sampled(m) then Sampled(m)[id] else Zero;
      && Drained(m)[id].upload + reported.upload == m[id].upload
      && Drained(m)[id].download + reported.download == m[id].download
  {
  }

  /**
   * Two Record calls commute, so concurrent connections of one user add up
   * to the same totals whichever finishes first.
   */
  lemma RecordCommutes(m: map<int, Counter>, a: int, ua: int, da: int, b: int, ub: int, db: int)
    ensures Recorded(Recorded(m, a, ua, da), b, ub, db) == Recorded(Recorded(m, b, ub, db), a, ua, da)
  {
    var left := Recorded(Recorded(m, a, ua, da), b, ub, db);
    var right := Recorded(Recorded(m, b, ub, db), a, ua, da);
    forall id ensures id in left <==> id in right {}
    forall id | id in left ensures left[id] == right[id] {}
  }

  /**
   * Counting from a clean state, the counter of a user holds the sum of the
   * positive amounts of all its recorded connections, in any order.
   */
  function PositiveTotal(amounts: seq<(int, int)>): Counter
  {
    if amounts == [] then Zero
    else
      var last := amounts[|amounts| - 1];
      var c := PositiveTotal(amounts[..|amounts| - 1]);
      Counter(c.upload + Positive(last.0), c.download + Positive(last.1))
  }

  /** Records every connection's amounts for `id`, in order. */
  function RecordedAll(m: map<int, Counter>, id: int, amounts: seq<(int, int)>): map<int, Counter>
  {
    if amounts == [] then m
    else
      var last := amounts[|amounts| - 1];
      Recorded(RecordedAll(m, id, amounts[..|amounts| - 1]), id, last.0, last.1)
  }

  /**
   * Recording a run of connections for an unseen id creates one counter
   * exactly when some amount is positive, and it holds their positive sums.
   */
  lemma {:induction false} RecordedAllTotals(m: map<int, Counter>, id: int, amounts: seq<(int, int)>)
    requires id !in m
    ensures var r := RecordedAll(m, id, amounts);
      && (id in r <==> exists k :: 0 <= k < |amounts| && (amounts[k].0 > 0 || amounts[k].1 > 0))
      && (id in r ==> r[id] == PositiveTotal(amounts))
      && (forall other :: other != id ==> (other in r <==> other in m))
      && (forall other :: other != id && other in m ==> r[other] == m[other])
  {
    if amounts != [] {
      var n := |amounts|;
      var init := amounts[..n - 1];
      RecordedAllTotals(m, id, init);
      var prev := RecordedAll(m, id, init);
      if id !in prev {
        assert forall k :: 0 <= k < |init| ==> !(init[k].0 > 0 || init[k].1 > 0);
        assert PositiveTotal(init) == Zero by { PositiveTotalOfNothing(init); }
      }
      assert forall k :: 0 <= k < |init| ==> init[k] == amounts[k];
    }
  }

  /** Amounts that are all non-positive add up to nothing. */
  lemma {:induction false} PositiveTotalOfNothing(amounts: seq<(int, int)>)
    requires forall k :: 0 <= k < |amounts| ==> amounts[k].0 <= 0 && amounts[k].1 <= 0
    ensures PositiveTotal(amounts) == Zero
  {
    if amounts != [] {
      PositiveTotalOfNothing(amounts[..|amounts| - 1]);
    }
  }

  /**
   * The accounting scenario of a failed push: user 7 has (100, 50) sampled
   * and the panel refuses the batch; user 7 then records (10, 0); the next
   * push, accepted, reports (110, 50) for user 7 and nothing else.
   */
  method RetryAfterFailedPush() returns (first: PushOutcome, second: PushOutcome)
    ensures first.Failed? && BatchOf(first.records) == map[7 := Counter(100, 50)]
    ensures second.Delivered? && BatchOf(second.records) == map[7 := Counter(110, 50)]
  {
    var traffic := new TrafficManager();
    traffic.Record(7, 100, 50);
    assert traffic.counters == map[7 := Counter(100, 50)];
    assert Sampled(traffic.counters) == map[7 := Counter(100, 50)] by {
      var s := Sampled(traffic.counters);
      forall id ensures id in s <==> id == 7 {}
    }
    first := traffic.Push(records => false);
    traffic.Record(7, 10, 0);
    assert traffic.counters == map[7 := Counter(110, 50)];
    assert Sampled(traffic.counters) == map[7 := Counter(110, 50)] by {
      var s := Sampled(traffic.counters);
      forall id ensures id in s <==> id == 7 {}
    }
    second := traffic.Push(records => true);
  }
}
