/** Values shared by the dinger store and the HTTP router: Go's int64, App Engine
    datastore keys, the two stored entity kinds, and the errors the handlers return. */
module Types {

  const MinInt64: int := -0x8000_0000_0000_0000
  const MaxInt64: int := 0x7fff_ffff_ffff_ffff

  /** Go's int64, the type of a datastore key's integer id. */
  newtype int64 = x: int | MinInt64 <= x <= MaxInt64

  datatype Option<+T> = None | Some(value: T)

  /** A Go result pair `(value, os.Error)` with exactly one side present. */
  datatype Result<+T> = Ok(value: T) | Err(error: Error)

  /** Why `fmt.Sscanf(idStr, "%d", &id)` failed. */
  datatype ScanFailure = ExpectedInteger | IntegerOverflow

  datatype Error =
    | InvalidDingerId(id: string)                 // the id failed the character-class check
    | DingerIdParse(id: string, why: ScanFailure) // the id passed it but Sscanf failed
    | StoreFailure                                // datastore.Put failed
    | NoSuchEntity                                // datastore.Get found no record
    | RandFailure                                 // crypto/rand failed
    | ChannelFailure                              // channel.Create failed
    | EnumerationFailure                          // the client query's iterator failed
    | BodyReadFailure                             // reading the POST body failed
    | WrongPrefix(path: string)                   // handleDinger got a path outside "/d/"
    | MalformedPost(path: string)                 // POST with a request part
    | MalformedRequest(path: string)              // GET with an unknown request part

  /** A datastore key: kind, string id, integer id and optional parent key.
      An integer id of 0 with an empty string id is an incomplete key. */
  datatype Key = Key(kind: string, stringId: string, intId: int64, parent: Option<Key>)

  /** The stored dinger record. */
  datatype Dinger = Dinger(name: string)

  /** The stored client record: its id and its channel token. */
  datatype Client = Client(id: string, token: string)

  /** One result of the ancestor query over clients: the row's key and its record. */
  datatype ClientRow = ClientRow(key: Key, client: Client)

  /** What `datastore.Put` with an incomplete key did: stored under a freshly
      allocated integer id, or failed. */
  datatype PutResult = Stored(id: int64) | PutFailed
}
