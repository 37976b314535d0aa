/**
 * The JSON bodies the server's handlers answer with, and what the client
 * shows for them: the two halves of the system put together.
 */
module Wire {

  import opened Wrappers
  import opened Text
  import opened JsonValue
  import opened RecordStore
  import Client

  /** A stored record as `jsonify` writes it. */
  function RecordJson(r: Record): (j: Json)
    ensures j.JObject? && j.fields.Keys == {"id", "name", "value"}
    ensures j.fields["id"] == JInt(r.id)
    ensures j.fields["name"] == JStr(r.name) && j.fields["value"] == JStr(r.value)
  {
    JObject(map["id" := JInt(r.id), "name" := JStr(r.name), "value" := JStr(r.value)])
  }

  /** The JSON body of a response; a crashed handler sends an error page, which is not JSON. */
  function BodyJson(b: Body): (j: Option<Json>)
    ensures j.None? <==> b.NoBody?
    ensures b.Records? ==> j.value.JArray? && |j.value.items| == |b.items|
    ensures b.Records? ==> forall k :: 0 <= k < |b.items| ==> j.value.items[k] == RecordJson(b.items[k])
  {
    match b
    case Records(items) => Some(JArray(seq(|items|, k requires 0 <= k < |items| => RecordJson(items[k]))))
    case One(r) => Some(RecordJson(r))
    case Deleted(m, r) => Some(JObject(map["message" := JStr(m), "deleted_object" := RecordJson(r)]))
    case Error(e) => Some(JObject(map["error" := JStr(e)]))
    case NoBody => None
  }

  /** What the record template shows for a stored record. */
  function RecordText(r: Record): string
  {
    "ID: " + Decimal(r.id) + "\nNamn: " + r.name + "\nVärde: " + r.value
  }

  /** The list view never raises: every element the server lists is a record object; an empty store shows nothing. */
  lemma ListAllRenders(s: Store, reprOf: Json -> string)
    ensures Client.FormatData(BodyJson(SelectAll(s).response.body).value, reprOf).Ok?
    ensures s.objects == [] ==> Client.FormatData(BodyJson(SelectAll(s).response.body).value, reprOf) == Ok("")
  {
  }

  /** Any record object the server sends renders through the record template with its own fields. */
  lemma RecordJsonRenders(r: Record, reprOf: Json -> string)
    ensures Client.FormatData(RecordJson(r), reprOf) == Ok(RecordText(r))
  {
    var d := RecordJson(r).fields;
    assert Client.Field(d, "id", reprOf) == Decimal(r.id);
    assert Client.Field(d, "name", reprOf) == r.name;
    assert Client.Field(d, "value", reprOf) == r.value;
  }

  /**
   * Looking up an id from the client shows the first record carrying it,
   * or, for an id the store does not hold, the fixed lookup error.
   */
  lemma LookupDisplay(s: Store, id: nat, reprOf: Json -> string)
    ensures var resp := SelectOne(s, id).response;
            var shown := Client.FormatData(Client.LookupShown(resp.status, BodyJson(resp.body).value), reprOf);
            match FirstMatch(s.objects, id)
            case Some(k) => shown == Ok(RecordText(s.objects[k]))
            case None => shown == Ok("Error: " + Client.LookupFailed)
  {
    match FirstMatch(s.objects, id)
    case Some(k) => RecordJsonRenders(s.objects[k], reprOf);
    case None =>
  }

  /** The text of the client's delete confirmation for a removed record. */
  function DeletedConfirmation(r: Record): string
  {
    DeletedMessage + "\n\nDe borttagna informationen:\nID: " + Decimal(r.id) + "\nNamn: " + r.name + "\nValue: " + r.value
  }

  /**
   * Deleting from the client shows the confirmation with the removed
   * record's fields when the id is held, and the server's
   * `"Object not found"` otherwise.
   */
  lemma DeleteDisplay(s: Store, id: nat, reprOf: Json -> string)
    ensures var resp := Delete(s, id).response;
            var msg := Client.DeleteMessage(resp.status, BodyJson(resp.body).value, reprOf);
            match FirstMatch(s.objects, id)
            case Some(k) => msg == Ok(JStr(DeletedConfirmation(s.objects[k])))
                            && Client.FormatData(msg.value, reprOf) == Ok(DeletedConfirmation(s.objects[k]))
            case None => msg == Ok(JStr(NotFoundMessage))
                         && Client.FormatData(msg.value, reprOf) == Ok(NotFoundMessage)
  {
    match FirstMatch(s.objects, id)
    case Some(k) =>
      var r := s.objects[k];
      assert Delete(s, id).response == Response(200, Deleted(DeletedMessage, r));
      DeletedBodyShown(r, reprOf);
      Client.ScalarShownAsText(DeletedConfirmation(r), reprOf);
    case None =>
      assert Delete(s, id).response == NotFound;
      Client.ScalarShownAsText(NotFoundMessage, reprOf);
  }

  /** The body of a successful delete turns into the confirmation text for the removed record. */
  lemma DeletedBodyShown(r: Record, reprOf: Json -> string)
    ensures Client.DeleteMessage(200, BodyJson(Deleted(DeletedMessage, r)).value, reprOf) == Ok(JStr(DeletedConfirmation(r)))
  {
    var body := BodyJson(Deleted(DeletedMessage, r)).value;
    assert body.fields["deleted_object"] == RecordJson(r);
    assert Client.DeletedText(body.fields, RecordJson(r), reprOf) == Ok(DeletedConfirmation(r));
  }

  /** An insert sent by the client comes back rendered with the next identifier and exactly the given fields. */
  lemma InsertDisplay(s: Store, name: string, value: string, reprOf: Json -> string)
    ensures var resp := Insert(s, InsertBody(Some(name), Some(value))).response;
            Client.FormatData(BodyJson(resp.body).value, reprOf) == Ok(RecordText(Record(s.latestId + 1, name, value)))
  {
    RecordJsonRenders(Record(s.latestId + 1, name, value), reprOf);
  }
}
