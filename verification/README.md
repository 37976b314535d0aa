# CRUD record store and its desktop client, in Dafny

This project models the two pieces of logic in a small record-keeping
system: the HTTP API server that keeps records `{id, name, value}` in a
JSON document `{"objects": [...], "latest_id": N}`, and the desktop
client that sends requests to it and shows the answers as text.

- `record_store.dfy` (module `RecordStore`): the store as an immutable
  `Store(objects, latestId)` and one pure transition per handler
  (`SelectAll`, `SelectOne`, `Insert`, `Update`, `Delete`), each returning
  the new store and the response. `Load` is `load_data` (a missing file is
  the empty store), `Serve` wraps a handler in load and save, and saving is
  the identity on the state. `Valid` is the identifier invariant: ids
  pairwise distinct and none above `latest_id`.
- `traces.dfy` (module `Traces`): runs of many requests. It covers counts,
  consecutive identifier assignment, preservation of the invariant, and
  agreement between the saved document and the in-memory store.
- `client.dfy` (module `Client`): `format_data` over a decoded JSON value,
  the update payload built from the two dialog entries, the delete message
  decision, and the replacement of a failed lookup by a fixed error object.
- `wire.dfy` (module `Wire`): the JSON shape of each response and
  end-to-end lemmas. These say what the client shows after each server
  operation.
- `text.dfy` (module `Text`): Python's `str.strip()` and `str()` of an
  integer. `json_value.dfy` (module `JsonValue`): the decoded JSON value
  and Python's `str()` of it. `wrappers.dfy`: `Option`.

Two behaviours of the server deserve a direct statement, because a reader
might expect otherwise:

- An insert whose body lacks `name` or `value` raises `KeyError` at
  api_server.py:48. Flask answers that with 500 and an HTML error page,
  not with 400. `Insert` answers `Crash` (500, no JSON body) and leaves the
  store unchanged.
- The server's update writes every key of the payload, an empty string
  included. Only the client drops blank entries (client_gui.py:140-144).
  The server also writes an `"id"` key, so an update can make two records
  share an identifier. `UpdateWithIdBreaksUniqueness` shows this, and
  uniqueness is proved only for updates without `"id"`. The client never
  sends `"id"`.

## Model

| member | source | states |
|---|---|---|
| RecordStore.Load | api_server.py:10-15 | A missing document loads as the empty store: no objects, `latest_id` 0, and that store satisfies the id invariant; an existing one loads as saved |
| RecordStore.FirstMatch | api_server.py:35-36 | The scan returns the first position whose record carries the id, and none exactly when no record carries it |
| RecordStore.SelectAll | api_server.py:25-28 | Listing returns the stored sequence itself, in stored (insertion) order, with status 200, and leaves the store unchanged |
| RecordStore.SelectOne | api_server.py:32-38 | Status 200 exactly when the id is held, with the first record carrying it; otherwise 404 "Object not found"; the store never changes |
| RecordStore.Insert | api_server.py:42-56 | With both fields: record `latest_id + 1` appended at the end with exactly the given name and value, `latest_id` advanced to it, 201 with that record, invariant kept and the new id not previously held; with a field missing: store unchanged and a 500 |
| RecordStore.Apply | api_server.py:66 | `dict.update` on a record: each payload key overwrites its field, and a field changes only if the payload carries it |
| RecordStore.Update | api_server.py:60-69 | On the first record carrying the id, only that position changes, by the payload, and 200 returns the updated record; absent id: store unchanged and 404; length and `latest_id` never change; invariant kept when the payload has no id |
| RecordStore.RemoveFirst | api_server.py:79 | `list.remove` leaves a list exactly one element shorter (which element goes is stated by `RemoveFirstAt`); the argument must be present, because Python raises `ValueError` otherwise and the handler only removes a record it has just found |
| RecordStore.RemoveFirstAt | api_server.py:76-79 | Removing the first element equal to the one found at position k removes exactly position k |
| RecordStore.Delete | api_server.py:73-82 | On a held id, exactly the first record carrying it is cut out, the rest keep their order, and 200 echoes it under the success message; absent id: store unchanged and 404; `latest_id` never changes |
| RecordStore.DeletePreservesValid | api_server.py:75-81 | Deleting keeps ids pairwise distinct and bounded by `latest_id` |
| RecordStore.InsertThenSelectOne | api_server.py:47-52 | In a valid store, looking up the id just assigned returns exactly the inserted name and value |
| RecordStore.DeleteThenGone | api_server.py:75-82 | In a valid store, after a delete both a lookup and a second delete of the same id answer 404 |
| RecordStore.UpdateEmptyPayload | api_server.py:63-68 | An empty payload leaves the store unchanged and answers exactly what a lookup of the id answers |
| RecordStore.UpdateWithIdBreaksUniqueness | api_server.py:66 | A payload carrying `"id"` can break the invariant, and the next insert then reuses an id already held |
| RecordStore.Step | api_server.py:24-82 | No handler lowers `latest_id`; a handler that does not save leaves the store unchanged; every request except an id-carrying update keeps the invariant; only inserts answer 201 and add one record, only deletes remove one |
| RecordStore.Serve | api_server.py:18-21 | A request that saves leaves a document behind; a request that does not save (a lookup, a listing, a 404, a failed insert) leaves the document untouched |
| RecordStore.ServePersists | api_server.py:10-21 | Loading the saved document after a request gives exactly the handler's new store, and the answer is the handler's |
| Traces.RunCounts | api_server.py:47-81 | After n successful inserts and m successful deletes the store holds n - m more records, and `latest_id` has grown by exactly n |
| Traces.RunAssignsConsecutiveIds | api_server.py:47-52 | The k-th id handed out in a run is the starting `latest_id + 1 + k` |
| Traces.IdsNeverReused | api_server.py:47-52 | Ids handed out in a run are strictly increasing, above the starting counter and at most the final one, so none is handed out twice |
| Traces.RunPreservesValid | api_server.py:47-81 | A run without id-carrying updates keeps every id distinct and bounded by `latest_id` |
| Traces.ServeAllAgreesWithRun | api_server.py:10-21 | Serving a sequence of requests with a save and a reload around each one gives every answer, in order, and the final store exactly as running the handlers in memory does |
| Traces.CreateScenario | api_server.py:42-56 | From an empty store, inserting two records assigns ids 1 and 2 and keeps them in insertion order |
| Traces.GetDeleteScenario | api_server.py:32-82 | Looking up id 1 finds it, deleting 1 echoes it and leaves record 2, and looking up 1 again answers 404 |
| Traces.UpdateValueScenario | api_server.py:60-69 | Updating only `value` keeps the name; a lookup on an empty store answers 404 |
| Text.TrimStart | client_gui.py:77 | The result is a suffix of the input, everything dropped is whitespace, and it does not start with whitespace |
| Text.TrimEnd | client_gui.py:77 | The result is a prefix of the input, everything dropped is whitespace, and it does not end with whitespace |
| Text.Strip | client_gui.py:77 | Neither end of the result is whitespace, it is no longer than the input, and it is empty exactly when the input is all whitespace |
| Text.StripKeepsMiddle | client_gui.py:77 | The strip is the contiguous run of the input after its leading whitespace, and everything before and after that run is whitespace |
| Text.StripTrimsOnlyEnd | client_gui.py:77 | When the input starts with a visible character, its strip is a prefix of it followed only by whitespace |
| Text.StripIdempotent | client_gui.py:77 | Stripping twice equals stripping once |
| Text.TrimEndAppendSpace | client_gui.py:76-77 | Whitespace appended after a text is removed again by trimming its end |
| Text.Digits | client_gui.py:76 | The digits of a number are non-empty, all decimal, with no leading zero, and read back as the number |
| Text.Decimal | client_gui.py:83 | `str()` of an integer is non-empty, reads back as that integer, starts with '-' exactly when it is negative, and has no leading zero after the sign |
| JsonValue.Str | client_gui.py:84-86 | Python's `str()`: null is "None", booleans "True"/"False", an integer its canonical decimal text `Decimal(n)` (a '-' exactly when negative, no leading zero), a string itself, a list or dict its repr |
| Client.Field | client_gui.py:83 | `dict.get(key, 'N/A')` in a placeholder: a missing key shows "N/A"; a present value shows its `str()`, so a string shows itself, null "None" and an integer (the `id` of every server record) its canonical decimal text |
| Client.RecordLines | client_gui.py:83 | The record template's length is the three field texts plus its 19 fixed characters |
| Client.RecordLinesShape | client_gui.py:83 | The record template opens with the id line and the "Namn: " label, and closes with the "Värde: " line holding the value text |
| Client.Blocks | client_gui.py:73-76 | The block text exists exactly when every list item is a dict, is empty for the empty list, and otherwise starts with "ID: " |
| Client.StripBlocks | client_gui.py:71-77 | Stripping the block text leaves a prefix of it with no whitespace at either end, and everything cut off is whitespace |
| Client.FormatList | client_gui.py:71-77 | A list renders exactly when every item is a dict, as a prefix of its block text whose removed tail is all whitespace, with no whitespace at either end |
| Client.FormatDict | client_gui.py:78-83 | A dict with "error" renders as a line starting "Error: ", any other dict as text starting "ID: " |
| Client.FormatData | client_gui.py:69-86 | Raises exactly for a list with a non-dict item; a list renders as its block text with only trailing whitespace cut off, no whitespace at either end, and the empty list as ""; a dict with "error" renders as exactly "Error: " followed by `str()` of the error; any other dict as exactly the record template of its fields; any other value as its `str()` |
| Client.ErrorIgnoresOtherKeys | client_gui.py:80-81 | Two dicts with the same "error" render identically, whatever else they hold |
| Client.ErrorText | client_gui.py:80-81 | A string error renders as exactly "Error: " followed by the message |
| Client.MissingFieldsShowNA | client_gui.py:83 | Missing id, name and value render as "N/A", while a present null id renders as "None" |
| Client.ScalarShownAsText | client_gui.py:84-86 | A string is shown as itself and null as "None" |
| Client.BlocksOfOne | client_gui.py:74-76 | The block of a single dict item is its record template followed by a blank line ("\n\n") |
| Client.BlocksAppend | client_gui.py:73-76 | The blocks of a joined list are the blocks of each part, one after the other |
| Client.OneItemList | client_gui.py:71-77 | For a one-item list, stripping removes only the blank line, leaving the single-record template, when the value text ends in a visible character |
| Client.ListIgnoresErrorKey | client_gui.py:71-81 | A list item is shown as a record even if it holds "error", unlike a single dict |
| Client.UpdatePayload | client_gui.py:140-144 | The payload holds name or value exactly when that entry is non-empty, holds the entry itself, and never holds "id" |
| Client.BlankEntriesKeepRecord | client_gui.py:140-144 | Two blank entries send an empty payload, and the server's update then leaves the store unchanged |
| Client.ClientUpdateKeepsValid | client_gui.py:140-147 | Any update the client builds keeps the server's ids distinct |
| Client.DeletedText | client_gui.py:162-164 | The success text exists exactly when "message" is present and the deleted object is a dict with id, name and value |
| Client.DeleteMessage | client_gui.py:161-167 | With status 200 and "deleted_object" present the message is exactly the success text built from the deleted object; otherwise the "error" value or the fixed fallback; a body that is not a dict raises |
| Client.DeleteFallbackText | client_gui.py:167 | A failed delete with no "error" shows "Okänt fel inträffades." |
| Client.LookupShown | client_gui.py:124-127 | Status 200 shows the body; any other status is replaced by a dict holding only "error" |
| Client.LookupFailureText | client_gui.py:124-127 | A failed lookup shows exactly "Error: Hittade ingen användare med det ID:t." whatever the server sent |
| Wire.RecordJson | api_server.py:37 | A record is sent as an object with exactly the keys id, name, value holding its fields |
| Wire.BodyJson | api_server.py:28-82 | A response has a JSON body unless its handler crashed, and a list body holds each record's object in order |
| Wire.ListAllRenders | client_gui.py:111-114 | Listing the server's records never raises in the client, and an empty store shows "" |
| Wire.RecordJsonRenders | client_gui.py:83 | A record the server sends renders as its own id, name and value in the record template |
| Wire.LookupDisplay | client_gui.py:116-127 | For a routable (non-negative) id, looking up a held id shows the first matching record; an absent id shows the fixed lookup error |
| Wire.DeleteDisplay | client_gui.py:150-169 | For a routable (non-negative) id, deleting a held id shows the confirmation with the removed record's fields; an absent id shows "Object not found" |
| Wire.DeletedBodyShown | client_gui.py:158-164 | The JSON body of a successful delete produces the confirmation text naming the removed record's id, name and value |
| Wire.InsertDisplay | client_gui.py:106-109 | An insert comes back shown with id `latest_id + 1` and exactly the given name and value |

## Left out

- Flask routing, the `<int:id>` converter and `request.json` parsing are
  framework code. Requests arrive already parsed as `Request` values, with
  non-negative ids.
- File I/O in `load_data`/`save_data`. The document is `Option<Store>`, and
  saving replaces it. Partial writes and a corrupt file are not modelled.
- Concurrent requests and their lost updates: the model is single-threaded.
- tkinter, `simpledialog`, `messagebox`, `ttk` and the PIL icon masking
  (client_gui.py:8-67) are user interface and image processing.
- `requests` calls and transport errors are network I/O. Dialog entries and
  response status codes are parameters.
- The empty-input guards of the dialogs (client_gui.py:101-103, 119-121,
  132-134, 153-155) are left out: they only decide whether a request is
  sent.
- `export_to_json` calls a route the server does not have. The SQLite
  variant is not part of this model.
- RecordStore.Apply: payload keys other than id, name and value are not
  modelled. Nor are JSON values other than strings for name and value, or
  integers for id. Python would store any of them.
- RecordStore.Insert: `name` and `value` are strings. Python accepts any
  JSON value there.
- JsonValue.Str: `str()` of a nested list or dict is the parameter
  `reprOf`, not Python's repr. JSON numbers are integers: floats are not
  modelled.
- Wire.LookupDisplay, Wire.DeleteDisplay: only ids the `<int:id>` route
  accepts (non-negative) are covered. For a typed negative id Flask sends
  its own HTML 404, and `response.json()` in the client raises.
- Client.FormatData: the `AttributeError` of `item.get` on a list item
  that is not a dict (client_gui.py:76) is the `Raises` outcome. Tkinter
  only prints it.
- Client.DeletedText, Client.DeleteMessage: four exceptions are merged
  into one `Raises` outcome. They are the `KeyError` and `TypeError` of
  the success message (client_gui.py:162-164), the `TypeError` of
  `"deleted_object" in data` on a scalar body (client_gui.py:161), and the
  `AttributeError` of `data.get` on a body that is not a dict
  (client_gui.py:167).
