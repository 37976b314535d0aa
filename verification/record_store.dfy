/**
 * The JSON-file-backed record store of the API server: a list of records
 * plus the last identifier handed out. Each HTTP handler loads the store,
 * changes it in memory, saves it when it changed something, and answers;
 * here every handler is a pure transition from a store to a new store and
 * a response.
 */
module RecordStore {

  import opened Wrappers

  datatype Record = Record(id: int, name: string, value: string)

  /** The persisted document `{"objects": [...], "latest_id": N}`. */
  datatype Store = Store(objects: seq<Record>, latestId: int)

  /** The body of POST /insert; a key the request did not carry is `None`. */
  datatype InsertBody = InsertBody(name: Option<string>, value: Option<string>)

  /** The body of PUT /update: each key the request carries overwrites that field, `"id"` included. */
  datatype Patch = Patch(id: Option<int>, name: Option<string>, value: Option<string>)

  /** What a handler answers, before it is turned into JSON. */
  datatype Body =
    | Records(items: seq<Record>)
    | One(rec: Record)
    | Deleted(message: string, deleted: Record)
    | Error(error: string)
    | NoBody                        // an unhandled exception: the framework's error page

  datatype Response = Response(status: int, body: Body)

  /** The store after a handler, together with the handler's answer. */
  datatype Transition = Transition(store: Store, response: Response)

  const NotFoundMessage := "Object not found"
  const DeletedMessage := "Object deleted successfully"
  const NotFound := Response(404, Error(NotFoundMessage))
  const Crash := Response(500, NoBody)

  /** The document `load_data` starts from when no file exists yet. */
  const Empty := Store([], 0)

  /** The identifiers carried by the stored records are pairwise distinct and none exceeds `latestId`. */
  predicate Valid(s: Store)
  {
    && (forall i, j :: 0 <= i < j < |s.objects| ==> s.objects[i].id != s.objects[j].id)
    && (forall i :: 0 <= i < |s.objects| ==> s.objects[i].id <= s.latestId)
  }

  /** `id` is carried by some stored record. */
  predicate Present(s: Store, id: int)
  {
    exists k :: 0 <= k < |s.objects| && s.objects[k].id == id
  }

  /** `load_data`: the saved document, or the empty store when nothing was ever saved. */
  function Load(disk: Option<Store>): (s: Store)
    ensures disk.Some? ==> s == disk.value
    ensures disk.None? ==> s.objects == [] && s.latestId == 0 && Valid(s)
  {
    disk.GetOr(Empty)
  }

  /** The scan `for obj in data["objects"]: if obj["id"] == id`: the first position carrying `id`. */
  function FirstMatch(objects: seq<Record>, id: int): (r: Option<nat>)
    ensures r.Some? ==> r.value < |objects| && objects[r.value].id == id
    ensures r.Some? ==> forall j :: 0 <= j < r.value ==> objects[j].id != id
    ensures r.None? <==> forall j :: 0 <= j < |objects| ==> objects[j].id != id
  {
    if |objects| == 0 then None
    else if objects[0].id == id then Some(0)
    else
      match FirstMatch(objects[1..], id)
      case None => None
      case Some(k) => Some(k + 1)
  }

  /** GET /select_all: the stored records, as they are, with status 200. */
  function SelectAll(s: Store): (t: Transition)
    ensures t.store == s
    ensures t.response.status == 200 && t.response.body.Records?
    ensures t.response.body.items == s.objects
  {
    Transition(s, Response(200, Records(s.objects)))
  }

  /** GET /select_one/<id>: the first record carrying `id`, or 404; never changes the store. */
  function SelectOne(s: Store, id: int): (t: Transition)
    ensures t.store == s
    ensures t.response.status == 200 <==> Present(s, id)
    ensures !Present(s, id) ==> t.response == NotFound
    ensures forall k :: 0 <= k < |s.objects| && s.objects[k].id == id
                     && (forall j :: 0 <= j < k ==> s.objects[j].id != id)
                     ==> t.response == Response(200, One(s.objects[k]))
  {
    match FirstMatch(s.objects, id)
    case None => Transition(s, NotFound)
    case Some(k) => Transition(s, Response(200, One(s.objects[k])))
  }

  /**
   * POST /insert: a record with the next identifier, appended at the end.
   * A body lacking `name` or `value` fails before anything is appended or saved.
   */
  function Insert(s: Store, body: InsertBody): (t: Transition)
    ensures body.name.None? || body.value.None? ==> t.store == s && t.response == Crash
    ensures body.name.Some? && body.value.Some? ==>
              && t.store.latestId == s.latestId + 1
              && |t.store.objects| == |s.objects| + 1
              && t.store.objects[..|s.objects|] == s.objects
              && t.store.objects[|s.objects|] == Record(s.latestId + 1, body.name.value, body.value.value)
              && t.response == Response(201, One(t.store.objects[|s.objects|]))
    ensures t.store.latestId >= s.latestId
    ensures Valid(s) ==> Valid(t.store)
    ensures Valid(s) && t.response.status == 201 ==> !Present(s, t.store.latestId)
  {
    match (body.name, body.value)
    case (Some(name), Some(value)) =>
      var rec := Record(s.latestId + 1, name, value);
      var t := Transition(Store(s.objects + [rec], rec.id), Response(201, One(rec)));
      assert t.store.objects[..|s.objects|] == s.objects;
      t
    case _ => Transition(s, Crash)
  }

  /** Python's `obj.update(payload)` on one record: the payload's keys win, the other fields stay. */
  function Apply(r: Record, p: Patch): (r': Record)
    ensures p.id.Some? ==> r'.id == p.id.value
    ensures p.name.Some? ==> r'.name == p.name.value
    ensures p.value.Some? ==> r'.value == p.value.value
    ensures r'.id != r.id ==> p.id.Some?
    ensures r'.name != r.name ==> p.name.Some?
    ensures r'.value != r.value ==> p.value.Some?
  {
    Record(p.id.GetOr(r.id), p.name.GetOr(r.name), p.value.GetOr(r.value))
  }

  /**
   * PUT /update/<id>: the first record carrying `id` takes the payload's
   * fields in place; nothing else moves. An absent id answers 404 and saves nothing.
   */
  function Update(s: Store, id: int, p: Patch): (t: Transition)
    ensures t.store.latestId == s.latestId
    ensures |t.store.objects| == |s.objects|
    ensures t.response.status == 200 <==> Present(s, id)
    ensures !Present(s, id) ==> t.store == s && t.response == NotFound
    ensures forall k :: 0 <= k < |s.objects| && s.objects[k].id == id
                     && (forall j :: 0 <= j < k ==> s.objects[j].id != id)
                     ==> && t.store.objects == s.objects[k := Apply(s.objects[k], p)]
                         && t.response == Response(200, One(Apply(s.objects[k], p)))
    ensures p.id.None? && Valid(s) ==> Valid(t.store)
  {
    match FirstMatch(s.objects, id)
    case None => Transition(s, NotFound)
    case Some(k) =>
      var rec := Apply(s.objects[k], p);
      Transition(Store(s.objects[k := rec], s.latestId), Response(200, One(rec)))
  }

  /**
   * Python's `list.remove(x)`: drops the first element equal to `x`. Python
   * raises `ValueError` when `x` is absent; the handler only ever removes an
   * element it has just found, so that case is excluded.
   */
  function RemoveFirst(xs: seq<Record>, x: Record): (r: seq<Record>)
    requires x in xs
    ensures |r| == |xs| - 1
  {
    if xs[0] == x then xs[1..]
    else
      assert x in xs[1..] by { assert xs == [xs[0]] + xs[1..]; }
      [xs[0]] + RemoveFirst(xs[1..], x)
  }

  /** Removing the first occurrence of `x`, found at position `k`, is cutting out position `k`. */
  lemma {:induction false} RemoveFirstAt(xs: seq<Record>, x: Record, k: nat)
    requires k < |xs| && xs[k] == x
    requires forall j :: 0 <= j < k ==> xs[j] != x
    ensures RemoveFirst(xs, x) == xs[..k] + xs[k + 1..]
  {
    if k == 0 {
      assert xs[..0] + xs[1..] == xs[1..];
    } else {
      var tail := xs[1..];
      RemoveFirstAt(tail, x, k - 1);
      assert RemoveFirst(xs, x) == [xs[0]] + RemoveFirst(tail, x);
      assert tail[..k - 1] == xs[1..k];
      assert tail[k..] == xs[k + 1..];
      assert xs[..k] == [xs[0]] + xs[1..k];
    }
  }

  /**
   * DELETE /delete/<id>: the first record carrying `id` is taken out and
   * echoed under `deleted_object`; the others keep their order. An absent
   * id answers 404 and saves nothing.
   */
  function Delete(s: Store, id: int): (t: Transition)
    ensures t.store.latestId == s.latestId
    ensures t.response.status == 200 <==> Present(s, id)
    ensures !Present(s, id) ==> t.store == s && t.response == NotFound
    ensures forall k :: 0 <= k < |s.objects| && s.objects[k].id == id
                     && (forall j :: 0 <= j < k ==> s.objects[j].id != id)
                     ==> && t.store.objects == s.objects[..k] + s.objects[k + 1..]
                         && t.response == Response(200, Deleted(DeletedMessage, s.objects[k]))
  {
    match FirstMatch(s.objects, id)
    case None => Transition(s, NotFound)
    case Some(k) =>
      var rec := s.objects[k];
      // any earlier element equal to `rec` would carry `id` itself
      assert forall j :: 0 <= j < k ==> s.objects[j] != rec;
      RemoveFirstAt(s.objects, rec, k);
      var t := Transition(Store(RemoveFirst(s.objects, rec), s.latestId), Response(200, Deleted(DeletedMessage, rec)));
      assert Present(s, id);
      // no other position is the first to carry `id`
      forall k' | 0 <= k' < |s.objects| && s.objects[k'].id == id && (forall j :: 0 <= j < k' ==> s.objects[j].id != id)
        ensures t.store.objects == s.objects[..k'] + s.objects[k' + 1..]
        ensures t.response == Response(200, Deleted(DeletedMessage, s.objects[k']))
      {
        assert !(k' < k) && !(k < k');
      }
      t
  }

  /** Deleting keeps the store valid: a sub-list of distinct ids has distinct ids. */
  lemma DeletePreservesValid(s: Store, id: int)
    ensures Valid(s) ==> Valid(Delete(s, id).store)
  {
    match FirstMatch(s.objects, id)
    case None =>
    case Some(k) =>
      if !Valid(s) { return; }
      var rest := Delete(s, id).store.objects;
      assert rest == s.objects[..k] + s.objects[k + 1..];
      forall i | 0 <= i < |rest| ensures rest[i] == s.objects[if i < k then i else i + 1] {
      }
  }

  /** After an insert, looking up the new identifier finds exactly the record just created. */
  lemma InsertThenSelectOne(s: Store, name: string, value: string)
    requires Valid(s)
    ensures var t := Insert(s, InsertBody(Some(name), Some(value)));
            SelectOne(t.store, s.latestId + 1).response == Response(200, One(Record(s.latestId + 1, name, value)))
  {
    var t := Insert(s, InsertBody(Some(name), Some(value)));
    var n := |s.objects|;
    assert forall j :: 0 <= j < n ==> t.store.objects[j] == s.objects[j];
    assert t.store.objects[n].id == s.latestId + 1;
  }

  /** Once an identifier is deleted, neither a lookup nor a second delete finds it: delete is not idempotent. */
  lemma DeleteThenGone(s: Store, id: int)
    requires Valid(s)
    ensures SelectOne(Delete(s, id).store, id).response == NotFound
    ensures Delete(Delete(s, id).store, id).response == NotFound
  {
    var d := Delete(s, id).store;
    match FirstMatch(s.objects, id)
    case None =>
    case Some(k) =>
      assert d.objects == s.objects[..k] + s.objects[k + 1..];
      forall i | 0 <= i < |d.objects| ensures d.objects[i].id != id {
        assert d.objects[i] == s.objects[if i < k then i else i + 1];
      }
  }

  /** An update whose payload is empty changes nothing and answers exactly what a lookup would. */
  lemma UpdateEmptyPayload(s: Store, id: int)
    ensures Update(s, id, Patch(None, None, None)).store == s
    ensures Update(s, id, Patch(None, None, None)).response == SelectOne(s, id).response
  {
    match FirstMatch(s.objects, id)
    case None =>
    case Some(k) =>
      assert s.objects[k := s.objects[k]] == s.objects;
  }

  /**
   * A payload that carries `"id"` overwrites the identifier too, so the
   * server itself lets two records share one: moving record 1 to id 3 when
   * `latest_id` is 2 makes the next insert reuse 3.
   */
  lemma UpdateWithIdBreaksUniqueness()
    ensures var s := Store([Record(1, "a", "1"), Record(2, "b", "2")], 2);
            && Valid(s)
            && var u := Update(s, 1, Patch(Some(3), None, None)).store;
               && !Valid(u)
               && var i := Insert(u, InsertBody(Some("c"), Some("3"))).store;
                  i.objects[0].id == i.objects[2].id
  {
    var s := Store([Record(1, "a", "1"), Record(2, "b", "2")], 2);
    assert FirstMatch(s.objects, 1) == Some(0);
    var u := Update(s, 1, Patch(Some(3), None, None)).store;
    assert u.objects == [Record(3, "a", "1"), Record(2, "b", "2")];
    assert u.objects[0].id > u.latestId;
  }

  /** One request to the server, already parsed from its route and JSON body. */
  datatype Request =
    | ListAll
    | GetOne(id: nat)               // the route converter accepts only non-negative integers
    | Create(body: InsertBody)
    | Modify(id: nat, patch: Patch)
    | Remove(id: nat)

  /** The routing table: one handler per request kind. */
  function Step(s: Store, req: Request): (t: Transition)
    ensures t.store.latestId >= s.latestId
    ensures !Commits(req, t.response) ==> t.store == s
    ensures Valid(s) && !(req.Modify? && req.patch.id.Some?) ==> Valid(t.store)
    ensures t.response.status == 201 ==>
              && req.Create?
              && |t.store.objects| == |s.objects| + 1
              && t.store.latestId == s.latestId + 1
              && t.response.body == One(t.store.objects[|s.objects|])
              && t.response.body.rec.id == t.store.latestId
    ensures t.response.body.Deleted? ==>
              && req.Remove?
              && |t.store.objects| == |s.objects| - 1
              && t.store.latestId == s.latestId
    ensures t.response.status != 201 && !t.response.body.Deleted? ==>
              && |t.store.objects| == |s.objects|
              && t.store.latestId == s.latestId
  {
    match req
    case ListAll => SelectAll(s)
    case GetOne(id) => SelectOne(s, id)
    case Create(body) => Insert(s, body)
    case Modify(id, p) => Update(s, id, p)
    case Remove(id) =>
      DeletePreservesValid(s, id);
      Delete(s, id)
  }

  /** The handlers that reach `save_data`: a successful insert, update or delete. */
  predicate Commits(req: Request, resp: Response)
  {
    || (req.Create? && resp.status == 201)
    || ((req.Modify? || req.Remove?) && resp.status == 200)
  }

  /** The saved document after a request (`None`: no file yet), and the answer. */
  datatype Served = Served(disk: Option<Store>, response: Response)

  /**
   * A whole request: `load_data`, the handler, and `save_data` when the
   * handler saves. A request that does not save leaves the saved document
   * untouched.
   */
  function Serve(disk: Option<Store>, req: Request): (r: Served)
    ensures Commits(req, r.response) ==> r.disk.Some?
    ensures !Commits(req, r.response) ==> r.disk == disk
  {
    var t := Step(Load(disk), req);
    if Commits(req, t.response) then Served(Some(t.store), t.response) else Served(disk, t.response)
  }

  /** Saving is the identity on the state: reloading after a request gives the handler's new store and answer. */
  lemma ServePersists(disk: Option<Store>, req: Request)
    ensures Load(Serve(disk, req).disk) == Step(Load(disk), req).store
    ensures Serve(disk, req).response == Step(Load(disk), req).response
  {
  }
}
