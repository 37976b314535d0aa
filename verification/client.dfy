/**
 * The pure decisions of the desktop client: rendering a decoded response
 * as text (`format_data`), building the update payload from the two
 * entries, choosing the delete message, and replacing a failed lookup by a
 * fixed error object.
 */
module Client {

  import opened Wrappers
  import opened Text
  import opened JsonValue
  import RecordStore

  const NotAvailable := "N/A"
  const UnknownError := "Okänt fel inträffades."
  const LookupFailed := "Hittade ingen användare med det ID:t."

  /** `d.get(key, 'N/A')` placed in an f-string. */
  function Field(d: map<string, Json>, key: string, reprOf: Json -> string): (r: string)
    ensures key !in d ==> r == NotAvailable
    ensures key in d && d[key].JStr? ==> r == d[key].s
    ensures key in d && d[key] == JNull ==> r == "None"
    ensures key in d && d[key].JInt? ==> r == Decimal(d[key].n)
    ensures key in d ==> r == Str(d[key], reprOf)
  {
    if key in d then Str(d[key], reprOf) else NotAvailable
  }

  /** The three-line record template, without a trailing newline. */
  function RecordLines(d: map<string, Json>, reprOf: Json -> string): (r: string)
    ensures |r| == 19 + |Field(d, "id", reprOf)| + |Field(d, "name", reprOf)| + |Field(d, "value", reprOf)|
  {
    "ID: " + Field(d, "id", reprOf) + "\nNamn: " + Field(d, "name", reprOf) + "\nVärde: " + Field(d, "value", reprOf)
  }

  /** The template opens with the id line and closes with the value line. */
  lemma RecordLinesShape(d: map<string, Json>, reprOf: Json -> string)
    ensures var r := RecordLines(d, reprOf); var head := "ID: " + Field(d, "id", reprOf) + "\nNamn: ";
            |head| <= |r| && r[..|head|] == head
    ensures var r := RecordLines(d, reprOf); var tail := "\nVärde: " + Field(d, "value", reprOf);
            |tail| <= |r| && r[|r| - |tail|..] == tail
  {
    var id, name, value := Field(d, "id", reprOf), Field(d, "name", reprOf), Field(d, "value", reprOf);
    var head := "ID: " + id + "\nNamn: ";
    var tail := "\nVärde: " + value;
    ConcatAssoc(head + name, "\nVärde: ", value);
    assert RecordLines(d, reprOf) == head + name + tail;
    ThreeParts(head, name, tail);
  }

  /** A text built from three parts starts with the first and ends with the last. */
  lemma ThreeParts(head: string, mid: string, tail: string)
    ensures var r := head + mid + tail; |head| <= |r| && r[..|head|] == head
    ensures var r := head + mid + tail; |tail| <= |r| && r[|r| - |tail|..] == tail
  {
    var r := head + mid + tail;
    assert r == head + (mid + tail);
  }

  /** The list case before stripping: one record block and a blank line per item; a non-dict item raises. */
  function Blocks(items: seq<Json>, reprOf: Json -> string): (r: Outcome<string>)
    ensures r.Ok? <==> forall k :: 0 <= k < |items| ==> items[k].JObject?
    ensures |items| == 0 ==> r == Ok("")
    ensures r.Ok? && |items| > 0 ==> |r.value| >= 4 && r.value[..4] == "ID: "
  {
    if |items| == 0 then Ok("")
    else
      match items[0]
      case JObject(d) =>
        (match Blocks(items[1..], reprOf)
         case Ok(rest) => Ok(RecordLines(d, reprOf) + "\n\n" + rest)
         case Raises => Raises)
      case _ => Raises
  }

  /** Stripping the block text only trims its end, since a non-empty block text starts with `ID: `. */
  lemma StripBlocks(items: seq<Json>, reprOf: Json -> string)
    requires Blocks(items, reprOf).Ok?
    ensures var b := Blocks(items, reprOf).value; var r := Strip(b);
            && |r| <= |b|
            && r == b[..|r|]
            && (forall k :: |r| <= k < |b| ==> IsSpace(b[k]))
            && (|r| > 0 ==> !IsSpace(r[0]) && !IsSpace(r[|r| - 1]))
  {
    var b := Blocks(items, reprOf).value;
    if |items| == 0 {
      assert b == "";
    } else {
      assert b[..4] == "ID: ";
      assert b[0] == 'I';
      StripTrimsOnlyEnd(b);
    }
  }

  /** The list case of `format_data`: the record blocks with surrounding whitespace stripped. */
  function FormatList(items: seq<Json>, reprOf: Json -> string): (r: Outcome<string>)
    ensures r.Ok? <==> Blocks(items, reprOf).Ok?
    ensures r.Ok? ==>
              var b := Blocks(items, reprOf).value;
              && |r.value| <= |b|
              && r.value == b[..|r.value|]
              && (forall k :: |r.value| <= k < |b| ==> IsSpace(b[k]))
              && (|r.value| > 0 ==> !IsSpace(r.value[0]) && !IsSpace(r.value[|r.value| - 1]))
  {
    var b := Blocks(items, reprOf);
    if b.Raises? then Raises
    else
      StripBlocks(items, reprOf);
      Ok(Strip(b.value))
  }

  /** The dict case of `format_data`: the error line when `"error"` is present, else the record template. */
  function FormatDict(d: map<string, Json>, reprOf: Json -> string): (r: string)
    ensures "error" in d ==> |r| >= 7 && r[..7] == "Error: "
    ensures "error" !in d ==> |r| >= 4 && r[..4] == "ID: "
  {
    if "error" in d then
      var text := "Error: " + Str(d["error"], reprOf);
      assert text[..7] == "Error: ";
      text
    else
      RecordLinesShape(d, reprOf);
      RecordLines(d, reprOf)
  }

  /**
   * `format_data`: a list becomes its record blocks, stripped; a dict with
   * `"error"` becomes the error line; any other dict the record template;
   * anything else its `str()`.
   */
  function FormatData(data: Json, reprOf: Json -> string): (r: Outcome<string>)
    ensures r.Raises? <==> data.JArray? && !(forall k :: 0 <= k < |data.items| ==> data.items[k].JObject?)
    ensures data.JArray? && r.Ok? && |r.value| > 0 ==> !IsSpace(r.value[0]) && !IsSpace(r.value[|r.value| - 1])
    ensures data.JArray? && |data.items| == 0 ==> r == Ok("")
    ensures data.JArray? && r.Ok? ==>
              var b := Blocks(data.items, reprOf).value;
              && |r.value| <= |b|
              && r.value == b[..|r.value|]
              && (forall k :: |r.value| <= k < |b| ==> IsSpace(b[k]))
    ensures data.JObject? && "error" in data.fields ==> r.Ok? && |r.value| >= 7 && r.value[..7] == "Error: "
    ensures data.JObject? && "error" !in data.fields ==> r.Ok? && |r.value| >= 4 && r.value[..4] == "ID: "
    ensures data.JObject? && "error" in data.fields ==> r == Ok("Error: " + Str(data.fields["error"], reprOf))
    ensures data.JObject? && "error" !in data.fields ==> r == Ok(RecordLines(data.fields, reprOf))
    ensures !data.JArray? && !data.JObject? ==> r == Ok(Str(data, reprOf))
  {
    match data
    case JArray(items) => FormatList(items, reprOf)
    case JObject(d) =>
      Ok(FormatDict(d, reprOf))
    case _ => Ok(Str(data, reprOf))
  }

  /** An error object renders as its error alone: every other key is ignored. */
  lemma ErrorIgnoresOtherKeys(d: map<string, Json>, e: map<string, Json>, reprOf: Json -> string)
    requires "error" in d && "error" in e && d["error"] == e["error"]
    ensures FormatData(JObject(d), reprOf) == FormatData(JObject(e), reprOf)
    ensures FormatData(JObject(d), reprOf) == FormatData(JObject(map["error" := d["error"]]), reprOf)
  {
  }

  /** A string error renders as `Error: ` followed by the message itself. */
  lemma ErrorText(d: map<string, Json>, msg: string, reprOf: Json -> string)
    requires "error" in d && d["error"] == JStr(msg)
    ensures FormatData(JObject(d), reprOf) == Ok("Error: " + msg)
  {
  }

  /** A missing key renders as `N/A`, while a key that is present renders its value even when that is null. */
  lemma MissingFieldsShowNA(d: map<string, Json>, reprOf: Json -> string)
    requires "error" !in d && "id" !in d && "name" !in d && "value" !in d
    ensures FormatData(JObject(d), reprOf) == Ok("ID: N/A\nNamn: N/A\nVärde: N/A")
    ensures FormatData(JObject(d["id" := JNull]), reprOf) == Ok("ID: None\nNamn: N/A\nVärde: N/A")
  {
    var e := d["id" := JNull];
    assert Field(d, "id", reprOf) == "N/A" && Field(e, "id", reprOf) == "None";
    assert Field(e, "name", reprOf) == "N/A" && Field(e, "value", reprOf) == "N/A";
    assert "ID: " + "N/A" + "\nNamn: " + "N/A" + "\nVärde: " + "N/A" == "ID: N/A\nNamn: N/A\nVärde: N/A";
    assert "ID: " + "None" + "\nNamn: " + "N/A" + "\nVärde: " + "N/A" == "ID: None\nNamn: N/A\nVärde: N/A";
  }

  /** A scalar is shown as its `str()`; in particular a string is shown as it is. */
  lemma ScalarShownAsText(s: string, reprOf: Json -> string)
    ensures FormatData(JStr(s), reprOf) == Ok(s)
    ensures FormatData(JNull, reprOf) == Ok("None")
  {
  }

  /** The blocks of two lists, one after the other, are the blocks of the joined list. */
  lemma {:induction false} BlocksAppend(xs: seq<Json>, ys: seq<Json>, reprOf: Json -> string)
    requires Blocks(xs, reprOf).Ok? && Blocks(ys, reprOf).Ok?
    ensures Blocks(xs + ys, reprOf) == Ok(Blocks(xs, reprOf).value + Blocks(ys, reprOf).value)
    decreases |xs|
  {
    var b := Blocks(ys, reprOf).value;
    if |xs| == 0 {
      assert xs + ys == ys;
      assert Blocks(xs, reprOf).value == "";
      assert "" + b == b;
    } else {
      var zs := xs + ys;
      var tail := xs[1..];
      assert zs[0] == xs[0] && zs[1..] == tail + ys;
      assert xs[0].JObject?;
      var head := RecordLines(xs[0].fields, reprOf) + "\n\n";
      BlocksAppend(tail, ys, reprOf);
      var a := Blocks(tail, reprOf).value;
      assert Blocks(xs, reprOf) == Ok(head + a);
      assert Blocks(tail + ys, reprOf) == Ok(a + b);
      assert Blocks(zs, reprOf) == Ok(head + (a + b));
      ConcatAssoc(head, a, b);
    }
  }

  lemma ConcatAssoc(x: string, y: string, z: string)
    ensures x + (y + z) == (x + y) + z
  {
  }

  /** The blocks of a one-item list: the record template and a blank line. */
  lemma BlocksOfOne(d: map<string, Json>, reprOf: Json -> string)
    ensures Blocks([JObject(d)], reprOf) == Ok(RecordLines(d, reprOf) + "\n\n")
  {
    assert [JObject(d)][1..] == [];
    var lines := RecordLines(d, reprOf);
    assert lines + "\n\n" + "" == lines + "\n\n";
  }

  /** The record template ends with the last character of the value text. */
  lemma RecordLinesEnd(d: map<string, Json>, reprOf: Json -> string)
    requires |Field(d, "value", reprOf)| > 0
    ensures var lines := RecordLines(d, reprOf); var v := Field(d, "value", reprOf);
            lines[0] == 'I' && lines[|lines| - 1] == v[|v| - 1]
  {
    var v := Field(d, "value", reprOf);
    var front := "ID: " + Field(d, "id", reprOf) + "\nNamn: " + Field(d, "name", reprOf) + "\nVärde: ";
    assert RecordLines(d, reprOf) == front + v;
  }

  /** A one-item list whose value text does not end in whitespace shows the record template exactly. */
  lemma OneItemList(d: map<string, Json>, reprOf: Json -> string)
    requires var v := Field(d, "value", reprOf); |v| > 0 && !IsSpace(v[|v| - 1])
    ensures FormatData(JArray([JObject(d)]), reprOf) == Ok(RecordLines(d, reprOf))
  {
    var lines := RecordLines(d, reprOf);
    var text := lines + "\n\n";
    BlocksOfOne(d, reprOf);
    RecordLinesEnd(d, reprOf);
    assert FormatData(JArray([JObject(d)]), reprOf) == Ok(Strip(text));
    assert text[0] == lines[0];
    StripOfVisibleStart(text);
    TrimEndAppendSpace(lines, "\n\n");
    assert TrimEnd(lines) == lines;
  }

  /**
   * The list template ignores `"error"`: an item with an error key is still
   * shown as a record, where the single-object template would show the error.
   */
  lemma ListIgnoresErrorKey(d: map<string, Json>, reprOf: Json -> string)
    requires "error" !in d
    requires var v := Field(d, "value", reprOf); |v| > 0 && !IsSpace(v[|v| - 1])
    ensures FormatData(JArray([JObject(d)]), reprOf) == FormatData(JObject(d), reprOf)
    ensures FormatData(JArray([JObject(d["error" := JStr("x")])]), reprOf) == FormatData(JObject(d), reprOf)
  {
    var e := d["error" := JStr("x")];
    assert Field(e, "id", reprOf) == Field(d, "id", reprOf);
    assert Field(e, "name", reprOf) == Field(d, "name", reprOf);
    assert Field(e, "value", reprOf) == Field(d, "value", reprOf);
    assert RecordLines(e, reprOf) == RecordLines(d, reprOf);
    OneItemList(d, reprOf);
    OneItemList(e, reprOf);
    assert FormatData(JObject(d), reprOf) == Ok(RecordLines(d, reprOf));
  }

  /**
   * The update payload of `update_user`: a key only for a non-empty entry
   * (a cancelled dialog gives `None`), and never an `"id"`.
   */
  function UpdatePayload(name: Option<string>, value: Option<string>): (p: RecordStore.Patch)
    ensures p.id.None?
    ensures p.name.Some? <==> name.Some? && name.value != ""
    ensures p.value.Some? <==> value.Some? && value.value != ""
    ensures p.name.Some? ==> p.name == name
    ensures p.value.Some? ==> p.value == value
  {
    RecordStore.Patch(
      None,
      if name.Some? && name.value != "" then name else None,
      if value.Some? && value.value != "" then value else None)
  }

  /** Blank entries send an empty payload, so the server keeps the record as it was. */
  lemma BlankEntriesKeepRecord(s: RecordStore.Store, id: int, name: Option<string>, value: Option<string>)
    requires name.None? || name == Some("")
    requires value.None? || value == Some("")
    ensures RecordStore.Update(s, id, UpdatePayload(name, value)).store == s
  {
    RecordStore.UpdateEmptyPayload(s, id);
  }

  /** Updates sent by the client never carry an id, so they keep the server's identifiers distinct. */
  lemma ClientUpdateKeepsValid(s: RecordStore.Store, id: int, name: Option<string>, value: Option<string>)
    requires RecordStore.Valid(s)
    ensures RecordStore.Valid(RecordStore.Update(s, id, UpdatePayload(name, value)).store)
  {
  }

  /** The success message of `delete_user`; indexing a missing key or a non-dict raises. */
  function DeletedText(data: map<string, Json>, deleted: Json, reprOf: Json -> string): (r: Outcome<string>)
    ensures r.Ok? <==> "message" in data && deleted.JObject?
                       && "id" in deleted.fields && "name" in deleted.fields && "value" in deleted.fields
  {
    if "message" in data && deleted.JObject?
       && "id" in deleted.fields && "name" in deleted.fields && "value" in deleted.fields
    then
      var o := deleted.fields;
      Ok(Str(data["message"], reprOf) + "\n\nDe borttagna informationen:\nID: " + Str(o["id"], reprOf)
         + "\nNamn: " + Str(o["name"], reprOf) + "\nValue: " + Str(o["value"], reprOf))
    else Raises
  }

  /**
   * The message `delete_user` shows: the success text only for status 200
   * with a `deleted_object`; otherwise the `"error"` value, or the fixed
   * fallback. A body that is not a dict raises on either path.
   */
  function DeleteMessage(status: int, data: Json, reprOf: Json -> string): (r: Outcome<Json>)
    ensures !data.JObject? ==> r.Raises?
    ensures data.JObject? && !(status == 200 && "deleted_object" in data.fields) ==>
              r.Ok? && r.value == (if "error" in data.fields then data.fields["error"] else JStr(UnknownError))
    ensures data.JObject? && status == 200 && "deleted_object" in data.fields ==>
              (r.Ok? <==> DeletedText(data.fields, data.fields["deleted_object"], reprOf).Ok?)
    ensures data.JObject? && status == 200 && "deleted_object" in data.fields && r.Ok? ==>
              r == Ok(JStr(DeletedText(data.fields, data.fields["deleted_object"], reprOf).value))
  {
    match data
    case JObject(d) =>
      if status == 200 && "deleted_object" in d then
        match DeletedText(d, d["deleted_object"], reprOf)
        case Ok(text) => Ok(JStr(text))
        case Raises => Raises
      else if "error" in d then Ok(d["error"])
      else Ok(JStr(UnknownError))
    case _ => Raises
  }

  /** A failed delete with no `"error"` key shows the fixed fallback text. */
  lemma DeleteFallbackText(status: int, d: map<string, Json>, reprOf: Json -> string)
    requires status != 200 || "deleted_object" !in d
    requires "error" !in d
    ensures match DeleteMessage(status, JObject(d), reprOf)
            case Ok(m) => FormatData(m, reprOf) == Ok(UnknownError)
            case Raises => false
  {
  }

  /** `show_user_by_id`: any status but 200 is replaced by a fixed error object before it is shown. */
  function LookupShown(status: int, body: Json): (r: Json)
    ensures status == 200 ==> r == body
    ensures status != 200 ==> r.JObject? && r.fields.Keys == {"error"}
  {
    if status == 200 then body else JObject(map["error" := JStr(LookupFailed)])
  }

  /** A failed lookup always reads the same, whatever the server sent. */
  lemma LookupFailureText(status: int, body: Json, reprOf: Json -> string)
    requires status != 200
    ensures FormatData(LookupShown(status, body), reprOf) == Ok("Error: " + LookupFailed)
  {
  }
}
