/** The HTTP side of dingaling: routing of paths under "/d/" (handleDinger), the
    dinger URL handed back to clients (dingerUrl), creating a dinger from a form
    (handleNewDinger), and the dispatch of each route to the dinger operations. */
module Dingaling {
  import opened Types
  import opened DingerId
  import opened Dingers

  const DingerPrefix: string := "/d/"
  const DefaultDingerName: string := "Untitled dinger"

  /** Where handleDinger sends a request. */
  datatype Route =
    | NewDinger        // handleNewDinger
    | Page(key: Key)   // the dinger page template
    | Info(key: Key)   // handleDingerInfo
    | Connect(key: Key) // handleDingerConnect
    | Post(key: Key)   // handleDingerPost
    | Fail(error: Error)

  /** `strings.Index(s, string(c))`: the first position of `c` in `s`, or -1. */
  function IndexOf(s: string, c: char): (r: int)
    ensures -1 <= r < |s|
    ensures r == -1 <==> c !in s
    ensures r >= 0 ==> s[r] == c && c !in s[..r]
  {
    if s == [] then -1
    else if s[0] == c then 0
    else
      var j := IndexOf(s[1..], c);
      if j == -1 then -1
      else
        assert s[..j + 1] == [s[0]] + s[1..][..j];
        j + 1
  }

  /** Split the sub-path after "/d/" at its first '/' into the id part and the
      request part; without a '/', the request part is empty. */
  function SplitSubPath(sub: string): (parts: (string, string))
    ensures '/' !in parts.0
    ensures '/' in sub ==> sub == parts.0 + "/" + parts.1
    ensures '/' !in sub ==> parts == (sub, "")
  {
    var slash := IndexOf(sub, '/');
    if slash == -1 then (sub, "")
    else
      assert sub == sub[..slash] + "/" + sub[slash + 1..];
      (sub[..slash], sub[slash + 1..])
  }

  /** handleDinger's decision for a request with method `httpMethod` and URL path `path`. */
  function RouteRequest(httpMethod: string, path: string): (r: Route)
    ensures r == Fail(WrongPrefix(path)) <==> !(DingerPrefix <= path)
  {
    if !(DingerPrefix <= path) then Fail(WrongPrefix(path))
    else
      var (id, request) := SplitSubPath(path[|DingerPrefix|..]);
      if |id| == 0 then NewDinger
      else
        match DingerIdToKey(id)
        case Err(e) => Fail(e)
        case Ok(key) =>
          if httpMethod == "POST" then
            if request != "" then Fail(MalformedPost(path)) else Post(key)
          else if request == "" then Page(key)
          else if request == "info" then Info(key)
          else if request == "connect" then Connect(key)
          else Fail(MalformedRequest(path))
  }

  /** A sub-path `id + "/" + request` whose id part has no '/' splits into exactly
      those two parts: the split is at the first '/'. */
  lemma SplitAtFirstSlash(id: string, request: string)
    requires '/' !in id
    ensures SplitSubPath(id + "/" + request) == (id, request)
  {
    var s := id + "/" + request;
    assert s[|id|] == '/';
    var (a, b) := SplitSubPath(s);
    assert |a| == |id|;
    assert a == s[..|id|] == id;
    assert b == s[|id| + 1..] == request;
  }

  /** The sub-path of `"/d/" + id + rest`, where `rest` is empty or starts with a
      '/', splits into `id` and what follows that '/'. */
  lemma SubPathOf(id: string, rest: string)
    requires '/' !in id && (rest == "" || rest[0] == '/')
    ensures (DingerPrefix + id + rest)[|DingerPrefix|..] == id + rest
    ensures SplitSubPath(id + rest) == (id, if rest == "" then "" else rest[1..])
  {
    assert (DingerPrefix + id + rest)[|DingerPrefix|..] == id + rest;
    if rest == "" {
      assert id + rest == id;
    } else {
      assert id + rest == id + "/" + rest[1..];
      SplitAtFirstSlash(id, rest[1..]);
    }
  }

  /** A path outside "/d/" is refused before anything else is looked at. */
  lemma WrongPrefixRefused(httpMethod: string, path: string)
    requires !(DingerPrefix <= path)
    ensures RouteRequest(httpMethod, path) == Fail(WrongPrefix(path))
  {
  }

  /** A request creates a new dinger exactly when its id part is empty ("/d/",
      "/d//info", ...), whatever the method and the request part. */
  lemma NewDingerRoute(httpMethod: string, path: string)
    ensures RouteRequest(httpMethod, path) == NewDinger <==>
            DingerPrefix <= path && (|path| == |DingerPrefix| || path[|DingerPrefix|] == '/')
  {
    if DingerPrefix <= path {
      var sub := path[|DingerPrefix|..];
      var (id, request) := SplitSubPath(sub);
      if '/' in sub && id != "" {
        assert sub[0] == id[0];
      }
    }
  }

  /** A non-empty id part that does not decode yields the decoder's error. */
  lemma InvalidIdRoute(httpMethod: string, id: string, rest: string)
    requires id != "" && '/' !in id && DingerIdToKey(id).Err?
    requires rest == "" || rest[0] == '/'
    ensures RouteRequest(httpMethod, DingerPrefix + id + rest) == Fail(DingerIdToKey(id).error)
  {
    SubPathOf(id, rest);
  }

  /** A POST to a decodable id posts when nothing but an optional '/' follows the
      id, and is a malformed-URL error otherwise. */
  lemma PostRoute(id: string, rest: string, key: Key)
    requires id != "" && '/' !in id && DingerIdToKey(id) == Ok(key)
    requires rest == "" || rest[0] == '/'
    ensures var path := DingerPrefix + id + rest;
            RouteRequest("POST", path) == if |rest| <= 1 then Post(key) else Fail(MalformedPost(path))
  {
    SubPathOf(id, rest);
  }

  /** The route of a path with a request part, for a decodable id. */
  lemma RouteWithRequest(httpMethod: string, id: string, request: string, key: Key)
    requires id != "" && '/' !in id && DingerIdToKey(id) == Ok(key)
    ensures var path := DingerPrefix + id + "/" + request;
            RouteRequest(httpMethod, path)
            == if httpMethod == "POST" then (if request != "" then Fail(MalformedPost(path)) else Post(key))
               else if request == "" then Page(key)
               else if request == "info" then Info(key)
               else if request == "connect" then Connect(key)
               else Fail(MalformedRequest(path))
  {
    SubPathOf(id, "/" + request);
    assert DingerPrefix + id + "/" + request == DingerPrefix + id + ("/" + request);
  }

  /** Any other method to a decodable id: "" shows the page, "info" and "connect"
      go to their handlers, and every other request part is a malformed-URL error. */
  lemma GetRoute(httpMethod: string, id: string, request: string, key: Key)
    requires httpMethod != "POST" && id != "" && '/' !in id && DingerIdToKey(id) == Ok(key)
    ensures RouteRequest(httpMethod, DingerPrefix + id) == Page(key)
    ensures var path := DingerPrefix + id + "/" + request;
            var r := RouteRequest(httpMethod, path);
            && (r == Page(key) <==> request == "")
            && (r == Info(key) <==> request == "info")
            && (r == Connect(key) <==> request == "connect")
            && (r == Fail(MalformedRequest(path)) <==> request !in {"", "info", "connect"})
  {
    SubPathOf(id, "");
    assert DingerPrefix + id == DingerPrefix + id + "";
    RouteWithRequest(httpMethod, id, request, key);
  }

  /** The fields of a request URL that dingerUrl reads or writes. */
  datatype Url = Url(scheme: string, host: string, path: string, rawQuery: string, fragment: string)

  /** `dingerUrl`: the request URL with its query and fragment cleared and its path
      set to the dinger's path. */
  function DingerUrl(u: Url, key: Key): (r: Url)
    ensures r.scheme == u.scheme && r.host == u.host
    ensures r.rawQuery == "" && r.fragment == ""
    ensures DingerPrefix <= r.path && r.path[|DingerPrefix|..] == KeyToDingerId(key)
  {
    var path := DingerPrefix + KeyToDingerId(key);
    assert path[|DingerPrefix|..] == KeyToDingerId(key);
    u.(rawQuery := "", fragment := "", path := path)
  }

  /** The URL handed out for a dinger routes back to that dinger: to its page for
      a GET and to posting for a POST. */
  lemma DingerUrlRoutesBack(u: Url, key: Key, httpMethod: string)
    requires IsDingerKey(key) && key.intId >= 0
    ensures RouteRequest(httpMethod, DingerUrl(u, key).path) == if httpMethod == "POST" then Post(key) else Page(key)
  {
    var id := KeyToDingerId(key);
    RoundTrip(key);
    assert '/' !in id;
    assert DingerUrl(u, key).path == DingerPrefix + id + "";
    if httpMethod == "POST" {
      PostRoute(id, "", key);
    } else {
      GetRoute(httpMethod, id, "", key);
    }
  }

  /** handleNewDinger's name: the form's "name" value, or the placeholder when empty. */
  function NewDingerName(formName: string): (name: string)
    ensures name != ""
    ensures formName != "" ==> name == formName
    ensures formName == "" ==> name == "Untitled dinger"
  {
    if |formName| == 0 then DefaultDingerName else formName
  }

  /** The JSON reply of handleNewDinger. */
  datatype NewDingerReply = NewDingerReply(name: string, url: Url)

  /** `handleNewDinger`: store a dinger named from the form and reply with its name
      and URL. The URL's path routes to the new dinger. */
  method HandleNewDinger(store: Store, formName: string, url: Url, put: PutResult)
    returns (r: Result<NewDingerReply>)
    requires store.Valid()
    requires put.Stored? ==> put.id > 0 && DingerKey(put.id) !in store.dingers
    modifies store
    ensures store.Valid() && store.clients == old(store.clients)
    ensures put.PutFailed? ==> r == Err(StoreFailure) && store.dingers == old(store.dingers)
    ensures put.Stored? ==> r.Ok?
    ensures r.Ok? ==> put.Stored? && r.value.name == NewDingerName(formName)
    ensures r.Ok? ==> store.dingers == old(store.dingers)[DingerKey(put.id) := Dinger(r.value.name)]
    ensures r.Ok? ==> RouteRequest("GET", r.value.url.path) == Page(DingerKey(put.id))
    ensures r.Ok? ==> r.value.url == DingerUrl(url, DingerKey(put.id))
  {
    var name := formName;
    if |name| == 0 {
      name := DefaultDingerName;
    }
    var made := store.MakeDinger(name, put);
    match made
    case Err(e) =>
      return Err(e);
    case Ok((_, key)) =>
      DingerUrlRoutesBack(url, key, "GET");
      return Ok(NewDingerReply(name, DingerUrl(url, key)));
  }

  /** An incoming request under "/d/": its method, URL, "name" form value and body
      (None when reading the body failed). */
  datatype Request = Request(httpMethod: string, url: Url, formName: string, body: Option<string>)

  /** What the datastore, the channel service and the random number generator do
      during one request. */
  datatype Services = Services(
    dingerPut: PutResult,        // datastore.Put of a new dinger
    random: Option<nat>,         // rand.Int for a new client id
    hash: string -> string,      // SHA-1 then URL-safe base64
    token: Option<string>,       // channel.Create for a new client
    clientPut: PutResult,        // datastore.Put of a new client
    sendFails: set<string>,      // client ids whose channel.Send fails
    undeletable: set<Key>,       // client keys whose datastore.Delete fails
    enumFailAt: Option<nat>)     // the query iterator call that fails, if any

  /** What handleDinger answers. */
  datatype Reply =
    | Created(created: NewDingerReply)
    | PageOf(url: Url)
    | InfoOf(dinger: Dinger)
    | Connected(client: Client)
    | Posted
    | Failed(error: Error)

  /** `handleDinger`: route the request and run the handler it selects. `sent`
      holds the channel sends a broadcast made, and is empty on every other route. */
  method HandleDinger(store: Store, req: Request, env: Services) returns (reply: Reply, sent: seq<Delivery>)
    requires store.Valid()
    requires env.dingerPut.Stored? ==> env.dingerPut.id > 0 && DingerKey(env.dingerPut.id) !in store.dingers
    requires env.clientPut.Stored? ==> forall k :: k in store.clients ==>
               forall row :: row in store.clients[k] ==> row.key != ClientKey(k, env.clientPut.id)
    modifies store
    ensures store.Valid()
    ensures var route := RouteRequest(req.httpMethod, req.url.path);
            && (route.Fail? ==> reply == Failed(route.error))
            && (route.Fail? || route.Page? || route.Info? ==>
                  store.dingers == old(store.dingers) && store.clients == old(store.clients))
            && (route.Page? ==> reply == PageOf(DingerUrl(req.url, route.key)))
            && (route.Info? ==> reply == if route.key in old(store.dingers)
                                         then InfoOf(old(store.dingers)[route.key]) else Failed(NoSuchEntity))
            && (route.NewDinger? ==> store.clients == old(store.clients)
                                     && (reply.Created? <==> env.dingerPut.Stored?))
            && (route.Connect? ==> store.dingers == old(store.dingers)
                                   && (reply.Connected? <==> env.random.Some? && env.token.Some? && env.clientPut.Stored?))
            && (route.Post? ==> store.dingers == old(store.dingers)
                                && (reply == Posted <==>
                                      (req.body.Some? && (env.enumFailAt.None? ||
                                       env.enumFailAt.value > |old(store.ClientsOf(route.key))|))))
    ensures var route := RouteRequest(req.httpMethod, req.url.path);
            if route.Post? && req.body.Some?
            then var rows := old(store.ClientsOf(route.key));
                 sent == Deliveries(rows[..Processed(|rows|, env.enumFailAt)], DingMessage(req.body.value))
            else sent == []
    ensures var route := RouteRequest(req.httpMethod, req.url.path);
            route.NewDinger? ==>
              var name := NewDingerName(req.formName);
              if reply.Created?
              then env.dingerPut.Stored?
                   && reply.created == NewDingerReply(name, DingerUrl(req.url, DingerKey(env.dingerPut.id)))
                   && store.dingers == old(store.dingers)[DingerKey(env.dingerPut.id) := Dinger(name)]
              else reply == Failed(StoreFailure) && store.dingers == old(store.dingers)
    ensures var route := RouteRequest(req.httpMethod, req.url.path);
            route.Connect? ==>
              if reply.Connected?
              then env.random.Some? && env.token.Some? && env.clientPut.Stored?
                   && reply.client == Client(env.hash(ClientIdMaterial(route.key, env.random.value)), env.token.value)
                   && store.clients == old(store.clients)[route.key :=
                        old(store.ClientsOf(route.key)) + [ClientRow(ClientKey(route.key, env.clientPut.id), reply.client)]]
              else store.clients == old(store.clients)
                   && reply == Failed(if env.random.None? then RandFailure
                                      else if env.token.None? then ChannelFailure else StoreFailure)
    ensures var route := RouteRequest(req.httpMethod, req.url.path);
            route.Post? ==>
              if req.body.None?
              then reply == Failed(BodyReadFailure) && store.clients == old(store.clients)
              else
                var rows := old(store.ClientsOf(route.key));
                && (reply == Posted || reply == Failed(EnumerationFailure))
                && store.clients == BroadcastState(old(store.clients), route.key, rows,
                                                   Processed(|rows|, env.enumFailAt), env.sendFails, env.undeletable)
  {
    var route := RouteRequest(req.httpMethod, req.url.path);
    sent := [];
    match route
    case Fail(e) =>
      reply := Failed(e);
    case NewDinger =>
      var r := HandleNewDinger(store, req.formName, req.url, env.dingerPut);
      reply := if r.Ok? then Created(r.value) else Failed(r.error);
    case Page(key) =>
      reply := PageOf(DingerUrl(req.url, key));
    case Info(key) =>
      var r := store.GetDinger(key);
      reply := if r.Ok? then InfoOf(r.value) else Failed(r.error);
    case Connect(key) =>
      var r := store.MakeClient(key, env.random, env.hash, env.token, env.clientPut);
      reply := if r.Ok? then Connected(r.value) else Failed(r.error);
    case Post(key) =>
      if req.body.None? {
        reply := Failed(BodyReadFailure);
      } else {
        var err, delivered, _ := store.PostDing(key, req.body.value, env.sendFails, env.undeletable, env.enumFailAt);
        sent := delivered;
        reply := if err.None? then Posted else Failed(err.value);
      }
  }
}
