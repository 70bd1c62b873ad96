# dingaling in Dafny

dingaling is a small App Engine application for ad hoc notifications. A
*dinger* is a named record in the datastore. Browsers subscribe to a dinger as
*clients*: each client has its own channel, identified by a hashed id, and is
stored as a datastore child of the dinger. A POST to the dinger's URL
broadcasts a message (a *ding*) to every client. A client whose channel send
fails is deleted.

This project models the core of the application and proves properties of the
model. It has four modules:

- `Types` (`types.dfy`) holds Go's `int64`, datastore keys, the two stored
  records and the errors the handlers return.
- `DingerId` (`dinger_id.dfy`) is the codec between a dinger's textual id and
  its datastore key (`DingerIdToKey`, `KeyToDingerId`).
- `Dingers` (`dinger.dfy`) is the datastore as a `Store` class. Its
  `dingers` and `clients` fields are updated in place by `MakeDinger`,
  `MakeClient` and `PostDing`; `GetDinger` reads them. `PostDing` is a loop
  over the query's rows, proved against the specification functions
  `Deliveries`, `LoggedDeletes`, `Survivors` and `BroadcastState`.
- `Dingaling` (`dingaling.dfy`) covers `handleDinger`'s path split and the
  decision it takes (`RouteRequest`), `dingerUrl` and `handleNewDinger`. The
  dispatch from `handleDinger` to the handlers is `HandleDinger`.

**The textual id is decimal, not hex.** The comment above the id pattern
(dingaling/dinger.go:30) calls a dinger id hex-encoded. The code does
something else:
- The id is checked against `^[0-9A-Fa-f]+$`.
- It is then parsed with `Sscanf`'s `%d` verb, which reads only the leading
  run of decimal digits.
- It is rendered with `fmt.Sprint`, which prints decimal.

The model follows the code. So `"ff"` fails with an expected-integer error,
`"1f"` decodes to the same key as `"1"`, and `"007"` decodes to the same key
as `"7"`. Decimal ids round-trip: `DingerId.RoundTrip` proves that every non-negative
integer id encodes to a string that decodes back to that id, and
`DingerId.DecodeReadsLeadingRun` and `DingerId.LeadingZeroAlias` prove the
aliasing.

**The services are oracle parameters.** The datastore's id allocation, the
random number generator, the SHA-1/base64 hash, the channel service and the
failures of each are parameters of the operations:
- `PutResult` is the outcome of a `datastore.Put`: the allocated id, or a
  failure.
- `Option<nat>` is the outcome of `rand.Int`, with `None` for failure.
- `string -> string` is SHA-1 followed by URL-safe base64.
- `Option<string>` is the outcome of `channel.Create`, with `None` for
  failure.
- `sendFails` is the set of client ids whose `channel.Send` fails.
- `undeletable` is the set of client keys whose `datastore.Delete` fails.
- `enumFailAt` is the number of the `Next` call on the query iterator that
  fails, if any.

## Model

| member | source | states |
|---|---|---|
| DingerId.MatchesIdPattern | dingaling/dinger.go:31 | the id pattern `^[0-9A-Fa-f]+$`: the string is non-empty and every character in it is a hex digit |
| DingerId.DecimalValue | dingaling/dinger.go:42-45 | the number a run of decimal digits denotes, most significant first; it is below 10 to the power of the run's length |
| DingerId.DecimalValueLeadingZero | dingaling/dinger.go:43 | a leading zero does not change the value the scan reads |
| DingerId.LeadingZeroAlias | dingaling/dinger.go:37-48 | an id with a leading zero decodes exactly when the id without it does, and to the same key ("007" and "7") |
| DingerId.DingerKey | dingaling/dinger.go:48 | a dinger key has kind "Dinger", no string id, no parent, and the given integer id |
| DingerId.LeadingDigits | dingaling/dinger.go:43 | the %d scan consumes the longest prefix made only of decimal digits: it is a prefix, all decimal, and the next character (if any) is not a digit |
| DingerId.Decimal | dingaling/dinger.go:53 | fmt.Sprint of a non-negative integer is a non-empty string of decimal digits without a leading zero |
| DingerId.DingerIdToKey | dingaling/dinger.go:34-49 | a successful decode implies the input matched `^[0-9A-Fa-f]+$` and yields a dinger key with a non-negative id |
| DingerId.KeyToDingerId | dingaling/dinger.go:52-54 | a non-negative id renders as decimal digits that pass the id pattern; a negative id renders with a leading '-' |
| DingerId.DecimalRoundTrip | dingaling/dinger.go:42-53 | reading back the decimal rendering of n gives n |
| DingerId.RoundTrip | dingaling/dinger.go:34-54 | decoding the encoding of any key with a non-negative id gives the dinger key with that id, and gives the key itself when it is a dinger key |
| DingerId.DecimalInjective | dingaling/dinger.go:53 | different naturals have different decimal renderings |
| DingerId.EncodeInjective | dingaling/dinger.go:52-54 | two keys with the same textual id have the same integer id |
| DingerId.NegativeIdsDoNotDecode | dingaling/dinger.go:35-38 | the rendering of a negative id has a sign, so the pattern check rejects it |
| DingerId.RejectsOutsidePattern | dingaling/dinger.go:35-39 | the empty string, and any string with a character outside [0-9A-Fa-f], is rejected as an invalid id before any parsing |
| DingerId.RejectsExamples | dingaling/dinger.go:35-39 | "", "-4", "+4", " 4", "4 " and "0x1f" are all rejected by the pattern check |
| DingerId.DecodeDecimalString | dingaling/dinger.go:41-48 | a non-empty string of decimal digits decodes to the key of its value when that fits in int64, and fails with an overflow otherwise |
| DingerId.Int64Boundary | dingaling/dinger.go:42-45 | the largest int64 round-trips, and the decimal rendering of one more overflows |
| DingerId.DecodeNeedsLeadingDigit | dingaling/dinger.go:43-45 | an id that passes the pattern but starts with a hex letter fails with an expected-integer error |
| DingerId.DecodeReadsLeadingRun | dingaling/dinger.go:43-48 | a decimal run followed by a hex letter decodes exactly as the run alone, so "1f" and "1" name the same dinger |
| Dingers.DingMessage | dingaling/dinger.go:115-118 | the message sent is the given message when that is non-empty and "Ding-A-Ling!" when it is empty, so it is never empty |
| Dingers.ClientKey | dingaling/dinger.go:82 | a client's key has kind "DingerClient", the dinger's key as parent and the allocated integer id, so it is never a dinger key |
| Dingers.ClientIdMaterial | dingaling/dinger.go:84-93 | the text hashed for a client id is the dinger's textual id followed directly by the decimal rendering of the random number |
| Dingers.ClientIdMaterialAmbiguous | dingaling/dinger.go:84-93 | the hashed text joins the dinger id and the random number without a separator, so dinger 1 with 23 and dinger 12 with 3 hash the same text |
| Dingers.Processed | dingaling/dinger.go:124-131 | the iteration handles every row unless a Next call fails first, and then it handles exactly the rows before that call |
| Dingers.DeliveriesOnePerRow | dingaling/dinger.go:124-134 | a broadcast makes exactly one send per row, in query order, to that row's client id, with the same message |
| Dingers.SurvivorsMembership | dingaling/dinger.go:133-142 | after a broadcast a row remains exactly when it was there and either its send succeeded or its delete failed |
| Dingers.SurvivorsAllDelivered | dingaling/dinger.go:133-142 | when every send succeeds, the broadcast removes nothing |
| Dingers.LoggedDeletesMembership | dingaling/dinger.go:136-141 | a key is logged exactly when some row with that key had its send fail and its delete fail |
| Dingers.WithoutMembership | dingaling/dinger.go:138 | deleting a key removes exactly the rows with that key and keeps every other row |
| Dingers.WithoutKeepsBelonging | dingaling/dinger.go:138 | deleting a key keeps every remaining row under its dinger and keeps the row keys distinct |
| Dingers.BroadcastComplete | dingaling/dinger.go:124-143 | a broadcast that reaches the end of the query leaves the dinger exactly its surviving rows and changes no other dinger |
| Dingers.BroadcastKeepsBelonging | dingaling/dinger.go:124-143 | after any prefix of a broadcast, every client row still belongs to its dinger and row keys stay distinct |
| Dingers.Store.ClientsOf | dingaling/dinger.go:121 | the ancestor query over a dinger returns no rows for a dinger with no clients, and in a valid store every row it returns has that dinger as parent, with distinct keys |
| Dingers.Store.MakeDinger | dingaling/dinger.go:58-68 | a failed put returns the error and stores nothing; a successful put stores the named dinger under the allocated key and returns the record and the key |
| Dingers.Store.GetDinger | dingaling/dinger.go:71-77 | the result is Ok exactly when the key is stored, and then it is the stored record; otherwise it is a no-such-entity error |
| Dingers.Store.MakeClient | dingaling/dinger.go:80-112 | failures are checked in the code's order (random number, then channel, then put), and each stores nothing. On success the client's id is the hash of the dinger id followed by the random number, its token is the channel's, and its row is appended under the dinger |
| Dingers.Store.Delete | dingaling/dinger.go:138 | the delete succeeds exactly when the key is deletable, and then removes that key from its parent's rows; nothing else changes, and the store stays valid |
| Dingers.Store.Notify | dingaling/dinger.go:133-142 | one pass of the loop sends the message to the row's client; when the send fails, it deletes the row and reports the key if the delete fails |
| Dingers.Store.NotifyNext | dingaling/dinger.go:124-143 | handling the i-th row moves the sends, the logged keys and the store from their values after rows[..i] to those after rows[..i+1] |
| Dingers.Store.PostDing | dingaling/dinger.go:114-146 | returns an error exactly when the query fails, and that error is the enumeration failure. Before it stops, one send goes to each handled row with the message or the default ding. A handled row whose send fails is deleted, and its key is logged if the delete fails. Unhandled rows and other dingers are untouched. Client rows keep belonging to their dinger |
| Dingaling.IndexOf | dingaling/dingaling.go:71 | strings.Index: -1 exactly when the character is absent, else the position of its first occurrence |
| Dingaling.SplitSubPath | dingaling/dingaling.go:69-74 | the id part has no '/'; with a '/', the sub-path is id + "/" + request; without one, the request part is empty |
| Dingaling.RouteRequest | dingaling/dingaling.go:58-105 | the request is refused with a wrong-prefix error exactly when the path does not start with "/d/" |
| Dingaling.SplitAtFirstSlash | dingaling/dingaling.go:71-74 | a sub-path id + "/" + request whose id has no '/' splits into exactly that id and request |
| Dingaling.WrongPrefixRefused | dingaling/dingaling.go:60-64 | a path outside "/d/" is refused whatever the method |
| Dingaling.NewDingerRoute | dingaling/dingaling.go:76-79 | a request creates a dinger exactly when the path starts with "/d/" and its id part is empty |
| Dingaling.InvalidIdRoute | dingaling/dingaling.go:81-85 | a non-empty id part that does not decode fails with the decoder's own error |
| Dingaling.PostRoute | dingaling/dingaling.go:88-93 | a POST to a decodable id posts when at most a '/' follows the id, and is a malformed-POST error otherwise |
| Dingaling.GetRoute | dingaling/dingaling.go:96-105 | any other method shows the page for "" and goes to info for "info" and to connect for "connect", each exactly; every other request part is a malformed-request error |
| Dingaling.DingerUrl | dingaling/dingaling.go:148-157 | the URL keeps the request's scheme and host, clears the query and fragment, and its path is "/d/" followed by the dinger's textual id |
| Dingaling.DingerUrlRoutesBack | dingaling/dingaling.go:148-157 | the URL made for a dinger routes back to that dinger: a POST posts to it and any other method shows its page |
| Dingaling.NewDingerName | dingaling/dingaling.go:161-165 | the new dinger's name is the form's name when that is non-empty and "Untitled dinger" when it is empty, so it is never empty |
| Dingaling.HandleNewDinger | dingaling/dingaling.go:160-180 | a failed put returns the error and stores nothing. Otherwise the dinger is stored under its new key with the form's name or the placeholder, and the reply carries that name and a URL whose path routes to the new dinger's page |
| Dingaling.HandleDinger | dingaling/dingaling.go:58-146 | each route runs its handler, and the store stays valid. A refused route returns its error, and a page returns the dinger's URL; neither changes anything. Info returns the stored record or a no-such-entity error. NewDinger either stores a dinger named from the form under the allocated key and replies with that name and the dinger's URL, or fails with the put error and stores nothing. Connect succeeds exactly when the random number, the channel and the put all succeed. On success it appends the new client (hashed id, channel token) under the dinger; otherwise it returns the first failure and changes nothing. Post fails on an unreadable body and changes nothing. Otherwise it runs the broadcast with the body: the sends carry the body (or the default ding when it is empty) to each handled client, the clients afterwards are the broadcast's result, and the reply is Posted unless the query failed. Every other route sends nothing |

## Left out

- The HTTP plumbing in dingaling/utils.go is not part of this model. This covers `wrapHandler`, the JSON encoding in `jsonResponse`, and writing errors to the response.
- `init`, the HTML templates and `rootHandler` are left out. They are template rendering with no logic to check. A page route's reply is the URL handed to the template.
- SHA-1, base64, `rand.Int` and `channel.Create` are oracle parameters. The model does not state that `rand.Int` draws below 2^63-1, or that hashed ids are distinct.
- `channel.Send` failures are the set `sendFails`, and `datastore.Delete` failures are the set `undeletable`. Each service therefore answers the same way for the same argument within one request.
- Dingers.Store.MakeDinger: the datastore's guarantee that an allocated id is fresh and positive is a precondition, not modelled allocation.
- Dingers.Store.MakeClient: the fresh client key is likewise a precondition.
- Dingers.Store.GetDinger: returns only the no-such-entity error. Other backend failures of `datastore.Get` are not modelled.
- The ancestor query's order is modelled as insertion order: rows are appended by `MakeClient` and removed in place by `Delete`.
- Dingers.Store.PostDing: the iterator fails at a chosen call (`enumFailAt`) rather than for a backend reason. Rows are read from a snapshot taken when the query starts. Deletes are not visible to that running query.
- Dingers.Store.PostDing: logging of a failed delete (`c.Errorf`) is the returned `logged` sequence of keys, not a log stream.
- Dingaling.HandleDinger: reading the request body becomes an `Option<string>`, and `r.FormValue("name")` becomes a plain string. URL parsing and `URL.String()` are not modelled: the reply carries the URL record.
- Dingaling.DingerUrl: the original modifies the request's own URL in place and returns it, so the request and the reply alias. The model returns a new value with those fields changed.
- A URL is modelled by five fields: scheme, host, path, raw query and fragment. The other fields of `http.URL` are copied unchanged by `dingerUrl` and are not modelled.
- Concurrent requests and the datastore's consistency model are not modelled. Each operation runs alone against the store.
- Error messages are modelled as error constructors carrying the offending id or path, not as formatted text.
