/**
 * The record store over a sequence of requests: counts, identifier
 * assignment and the uniqueness invariant, and agreement between the
 * in-memory transitions and the saved document.
 */
module Traces {

  import opened Wrappers
  import opened RecordStore

  /** The store after a run of requests, and the answers in order. */
  datatype Trace = Trace(store: Store, responses: seq<Response>)

  /** Serves `reqs` one after another, each seeing the store its predecessor left. */
  function Run(s: Store, reqs: seq<Request>): (r: Trace)
    ensures |r.responses| == |reqs|
    decreases |reqs|
  {
    if |reqs| == 0 then Trace(s, [])
    else
      var t := Step(s, reqs[0]);
      var rest := Run(t.store, reqs[1..]);
      Trace(rest.store, [t.response] + rest.responses)
  }

  /** The number of successful inserts among the answers. */
  function Created(resps: seq<Response>): nat
  {
    if |resps| == 0 then 0
    else (if resps[0].status == 201 then 1 else 0) + Created(resps[1..])
  }

  /** The number of successful deletes among the answers. */
  function Removed(resps: seq<Response>): nat
  {
    if |resps| == 0 then 0
    else (if resps[0].body.Deleted? then 1 else 0) + Removed(resps[1..])
  }

  /** The identifiers handed out by successful inserts, in the order they were handed out. */
  function AssignedIds(resps: seq<Response>): seq<int>
  {
    if |resps| == 0 then []
    else (if resps[0].status == 201 && resps[0].body.One? then [resps[0].body.rec.id] else [])
         + AssignedIds(resps[1..])
  }

  /** No update in `reqs` carries an `"id"` key, as is the case for every update the client sends. */
  predicate NoIdPatches(reqs: seq<Request>)
  {
    forall k :: 0 <= k < |reqs| ==> !(reqs[k].Modify? && reqs[k].patch.id.Some?)
  }

  /**
   * After n successful inserts and m successful deletes the store holds
   * n - m more records than it started with, and `latest_id` has advanced
   * by exactly n: it never decreases.
   */
  lemma {:induction false} RunCounts(s: Store, reqs: seq<Request>)
    ensures var r := Run(s, reqs);
            |r.store.objects| == |s.objects| + Created(r.responses) - Removed(r.responses)
    ensures var r := Run(s, reqs);
            r.store.latestId == s.latestId + Created(r.responses)
    decreases |reqs|
  {
    if |reqs| > 0 {
      var t := Step(s, reqs[0]);
      var rest := Run(t.store, reqs[1..]);
      RunCounts(t.store, reqs[1..]);
      var r := Run(s, reqs);
      assert r.responses[1..] == rest.responses;
    }
  }

  /**
   * The k-th identifier handed out during a run is `latest_id + 1 + k`:
   * identifiers are assigned in strictly increasing order, all above the
   * starting counter, so none is ever handed out twice.
   */
  lemma {:induction false} RunAssignsConsecutiveIds(s: Store, reqs: seq<Request>)
    ensures var ids := AssignedIds(Run(s, reqs).responses);
            && |ids| == Run(s, reqs).store.latestId - s.latestId
            && forall k :: 0 <= k < |ids| ==> ids[k] == s.latestId + 1 + k
    decreases |reqs|
  {
    if |reqs| > 0 {
      var t := Step(s, reqs[0]);
      var rest := Run(t.store, reqs[1..]);
      RunAssignsConsecutiveIds(t.store, reqs[1..]);
      var r := Run(s, reqs);
      assert r.responses[1..] == rest.responses;
    }
  }

  /** Identifiers handed out during a run are never handed out again. */
  lemma IdsNeverReused(s: Store, reqs: seq<Request>)
    ensures var ids := AssignedIds(Run(s, reqs).responses);
            forall i, j :: 0 <= i < j < |ids| ==> s.latestId < ids[i] < ids[j] <= Run(s, reqs).store.latestId
  {
    RunAssignsConsecutiveIds(s, reqs);
  }

  /** Runs without id-carrying updates keep the identifiers pairwise distinct and bounded by `latest_id`. */
  lemma {:induction false} RunPreservesValid(s: Store, reqs: seq<Request>)
    requires Valid(s) && NoIdPatches(reqs)
    ensures Valid(Run(s, reqs).store)
    decreases |reqs|
  {
    if |reqs| > 0 {
      RunPreservesValid(Step(s, reqs[0]).store, reqs[1..]);
    }
  }

  /** The saved document after a run of requests, and every answer in order. */
  datatype ServedRun = ServedRun(disk: Option<Store>, responses: seq<Response>)

  /** Serves `reqs` against the saved document, loading and saving around each request. */
  function ServeAll(disk: Option<Store>, reqs: seq<Request>): (r: ServedRun)
    ensures |r.responses| == |reqs|
    decreases |reqs|
  {
    if |reqs| == 0 then ServedRun(disk, [])
    else
      var first := Serve(disk, reqs[0]);
      var rest := ServeAll(first.disk, reqs[1..]);
      ServedRun(rest.disk, [first.response] + rest.responses)
  }

  /**
   * Saving and reloading between requests changes nothing: the document
   * ends up holding the in-memory store, and every answer is the one the
   * in-memory run gives.
   */
  lemma {:induction false} ServeAllAgreesWithRun(disk: Option<Store>, reqs: seq<Request>)
    ensures Load(ServeAll(disk, reqs).disk) == Run(Load(disk), reqs).store
    ensures ServeAll(disk, reqs).responses == Run(Load(disk), reqs).responses
    decreases |reqs|
  {
    if |reqs| > 0 {
      var first := Serve(disk, reqs[0]);
      ServePersists(disk, reqs[0]);
      ServeAllAgreesWithRun(first.disk, reqs[1..]);
    }
  }

  /** Two inserts into an empty store are given ids 1 and 2, appended in that order. */
  lemma CreateScenario()
    ensures Step(Empty, Create(InsertBody(Some("a"), Some("1"))))
         == Transition(Store([Record(1, "a", "1")], 1), Response(201, One(Record(1, "a", "1"))))
    ensures Step(Store([Record(1, "a", "1")], 1), Create(InsertBody(Some("b"), Some("2"))))
         == Transition(Store([Record(1, "a", "1"), Record(2, "b", "2")], 2), Response(201, One(Record(2, "b", "2"))))
  {
    assert [Record(1, "a", "1")] + [Record(2, "b", "2")] == [Record(1, "a", "1"), Record(2, "b", "2")];
  }

  /** Looking up id 1 finds it, deleting it echoes it and keeps record 2, and a second lookup answers 404. */
  lemma GetDeleteScenario()
    ensures var s2 := Store([Record(1, "a", "1"), Record(2, "b", "2")], 2);
            Step(s2, GetOne(1)) == Transition(s2, Response(200, One(Record(1, "a", "1"))))
    ensures var s2 := Store([Record(1, "a", "1"), Record(2, "b", "2")], 2);
            var s3 := Store([Record(2, "b", "2")], 2);
            Step(s2, Remove(1)) == Transition(s3, Response(200, Deleted(DeletedMessage, Record(1, "a", "1"))))
    ensures var s3 := Store([Record(2, "b", "2")], 2);
            Step(s3, GetOne(1)) == Transition(s3, NotFound)
  {
    var s2 := Store([Record(1, "a", "1"), Record(2, "b", "2")], 2);
    assert FirstMatch(s2.objects, 1) == Some(0);
    assert s2.objects[..0] + s2.objects[1..] == [Record(2, "b", "2")];
    assert FirstMatch([Record(2, "b", "2")], 1) == None;
  }

  /** An update carrying only `value` keeps the name; a lookup on an empty store answers 404. */
  lemma UpdateValueScenario()
    ensures Run(Store([Record(1, "a", "1")], 1), [Modify(1, Patch(None, None, Some("9")))]).responses
         == [Response(200, One(Record(1, "a", "9")))]
    ensures Run(Empty, [GetOne(999)]).responses == [NotFound]
  {
    var s := Store([Record(1, "a", "1")], 1);
    assert FirstMatch(s.objects, 1) == Some(0);
  }
}
