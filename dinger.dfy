/** Dingers and their clients in the datastore: creating a dinger, reading it back,
    subscribing a client, and broadcasting a ding to every client with pruning of
    those whose channel send fails. The datastore's allocation, the channel service,
    the random number generator and the hash are oracles passed in as parameters. */
module Dingers {
  import opened Types
  import opened DingerId

  const DefaultDing: string := "Ding-A-Ling!"

  /** The message actually sent by a broadcast. */
  function DingMessage(message: string): (m: string)
    ensures m != ""
    ensures message != "" ==> m == message
    ensures message == "" ==> m == "Ding-A-Ling!"
  {
    if |message| == 0 then DefaultDing else message
  }

  const ClientKind: string := "DingerClient"

  /** The key a client row gets once the datastore has allocated `id` for it. */
  function ClientKey(dingerKey: Key, id: int64): (k: Key)
    ensures k.kind == ClientKind && k.parent == Some(dingerKey) && k.intId == id
    ensures !IsDingerKey(k)
  {
    Key(ClientKind, "", id, Some(dingerKey))
  }

  /** What the SHA-1 hash is computed over: the dinger's textual id followed by the
      decimal rendering of the random number, with no separator. */
  function ClientIdMaterial(dingerKey: Key, random: nat): (m: string)
    ensures KeyToDingerId(dingerKey) <= m
    ensures m[|KeyToDingerId(dingerKey)|..] == Decimal(random)
  {
    KeyToDingerId(dingerKey) + Decimal(random)
  }

  /** The hashed material has no separator, so two different (dinger, random)
      pairs can hash the same text: distinct client ids rest on the randomness of
      the number, not on the construction. */
  lemma ClientIdMaterialAmbiguous()
    ensures ClientIdMaterial(DingerKey(1), 23) == ClientIdMaterial(DingerKey(12), 3)
  {
    assert Decimal(1) == "1" && Decimal(3) == "3";
    assert Decimal(12) == Decimal(1) + "2" == "12";
    assert Decimal(23) == Decimal(2) + "3" == "23";
  }

  /** Rows stored under dinger `d`: each has `d` as parent and no two share a key. */
  ghost predicate RowsBelong(d: Key, rows: seq<ClientRow>) {
    (forall i :: 0 <= i < |rows| ==> rows[i].key.parent == Some(d)) &&
    (forall i, j :: 0 <= i < j < |rows| ==> rows[i].key != rows[j].key)
  }

  /** Every dinger's rows belong to it. */
  ghost predicate AllRowsBelong(clients: map<Key, seq<ClientRow>>) {
    forall d :: d in clients ==> RowsBelong(d, clients[d])
  }


  /** The rows left after deleting key `k`. */
  function Without(rows: seq<ClientRow>, k: Key): seq<ClientRow>
  {
    if rows == [] then []
    else (if rows[0].key == k then [] else [rows[0]]) + Without(rows[1..], k)
  }

  /** Whether a broadcast leaves `row` in place: its send succeeded, or its delete failed. */
  predicate Keeps(row: ClientRow, sendFails: set<string>, undeletable: set<Key>) {
    row.client.id !in sendFails || row.key in undeletable
  }

  /** The rows a broadcast over `rows` leaves, in their original order. */
  function Survivors(rows: seq<ClientRow>, sendFails: set<string>, undeletable: set<Key>): seq<ClientRow>
  {
    if rows == [] then []
    else
      var last := rows[|rows| - 1];
      Survivors(rows[..|rows| - 1], sendFails, undeletable) +
      (if Keeps(last, sendFails, undeletable) then [last] else [])
  }

  /** The keys logged as undeletable by a broadcast over `rows`, in order. */
  function LoggedDeletes(rows: seq<ClientRow>, sendFails: set<string>, undeletable: set<Key>): seq<Key>
  {
    if rows == [] then []
    else
      var last := rows[|rows| - 1];
      LoggedDeletes(rows[..|rows| - 1], sendFails, undeletable) +
      (if last.client.id in sendFails && last.key in undeletable then [last.key] else [])
  }

  /** One send attempt: the client id routed to and the payload. */
  datatype Delivery = Delivery(clientId: string, message: string)

  /** The send attempts of a broadcast of `msg` over `rows`: exactly one per row, in order. */
  function Deliveries(rows: seq<ClientRow>, msg: string): seq<Delivery> {
    if rows == [] then []
    else Deliveries(rows[..|rows| - 1], msg) + [Delivery(rows[|rows| - 1].client.id, msg)]
  }

  /** The store's clients after a broadcast over the dinger's `rows` has handled
      the first `i` of them: the survivors of those, then the untouched rest. */
  ghost function BroadcastState(before: map<Key, seq<ClientRow>>, key: Key, rows: seq<ClientRow>, i: nat,
                                sendFails: set<string>, undeletable: set<Key>): map<Key, seq<ClientRow>>
    requires i <= |rows|
  {
    if key in before then before[key := Survivors(rows[..i], sendFails, undeletable) + rows[i..]] else before
  }

  /** How many rows a broadcast processes before the enumeration ends or fails. */
  function Processed(count: nat, failAt: Option<nat>): (n: nat)
    ensures n <= count
    ensures failAt.Some? && failAt.value <= count ==> n == failAt.value
    ensures failAt.None? || failAt.value > count ==> n == count
  {
    if failAt.Some? && failAt.value <= count then failAt.value else count
  }

  /** A row survives a broadcast exactly when it was there and was kept. */
  lemma {:induction false} SurvivorsMembership(rows: seq<ClientRow>, sendFails: set<string>, undeletable: set<Key>)
    ensures forall row :: row in Survivors(rows, sendFails, undeletable) <==>
                          row in rows && Keeps(row, sendFails, undeletable)
  {
    if rows != [] {
      var front := rows[..|rows| - 1];
      SurvivorsMembership(front, sendFails, undeletable);
      assert rows == front + [rows[|rows| - 1]];
    }
  }

  /** A broadcast makes exactly one send attempt per row, in query order, each
      carrying the same message. */
  lemma {:induction false} DeliveriesOnePerRow(rows: seq<ClientRow>, msg: string)
    ensures |Deliveries(rows, msg)| == |rows|
    ensures forall j :: 0 <= j < |rows| ==> Deliveries(rows, msg)[j] == Delivery(rows[j].client.id, msg)
  {
    if rows != [] {
      DeliveriesOnePerRow(rows[..|rows| - 1], msg);
    }
  }

  /** A broadcast where every send succeeds removes nothing. */
  lemma {:induction false} SurvivorsAllDelivered(rows: seq<ClientRow>, sendFails: set<string>, undeletable: set<Key>)
    requires forall i :: 0 <= i < |rows| ==> rows[i].client.id !in sendFails
    ensures Survivors(rows, sendFails, undeletable) == rows
  {
    if rows != [] {
      SurvivorsAllDelivered(rows[..|rows| - 1], sendFails, undeletable);
      assert rows == rows[..|rows| - 1] + [rows[|rows| - 1]];
    }
  }

  /** Deleting key `k` removes exactly the rows with that key. */
  lemma {:induction false} WithoutMembership(rows: seq<ClientRow>, k: Key)
    ensures forall row :: row in Without(rows, k) <==> row in rows && row.key != k
  {
    if rows != [] {
      WithoutMembership(rows[1..], k);
      assert rows == [rows[0]] + rows[1..];
    }
  }

  lemma {:induction false} WithoutAbsent(rows: seq<ClientRow>, k: Key)
    requires forall row :: row in rows ==> row.key != k
    ensures Without(rows, k) == rows
  {
    if rows != [] {
      WithoutAbsent(rows[1..], k);
      assert rows == [rows[0]] + rows[1..];
    }
  }

  lemma {:induction false} WithoutConcat(a: seq<ClientRow>, b: seq<ClientRow>, k: Key)
    ensures Without(a + b, k) == Without(a, k) + Without(b, k)
  {
    if a != [] {
      var head := if a[0].key == k then [] else [a[0]];
      assert (a + b)[0] == a[0];
      assert (a + b)[1..] == a[1..] + b;
      assert Without(a + b, k) == head + Without(a[1..] + b, k);
      WithoutConcat(a[1..], b, k);
      assert Without(a, k) == head + Without(a[1..], k);
    } else {
      assert a + b == b;
    }
  }

  lemma {:induction false} WithoutKeepsBelonging(d: Key, rows: seq<ClientRow>, k: Key)
    requires RowsBelong(d, rows)
    ensures RowsBelong(d, Without(rows, k))
  {
    if rows != [] {
      var tail := rows[1..];
      assert RowsBelong(d, tail) by {
        forall i, j | 0 <= i < j < |tail| ensures tail[i].key != tail[j].key {
          assert tail[i] == rows[i + 1] && tail[j] == rows[j + 1];
        }
      }
      WithoutKeepsBelonging(d, tail, k);
      WithoutMembership(tail, k);
      var rest := Without(tail, k);
      if rows[0].key != k {
        var r := [rows[0]] + rest;
        forall i, j | 0 <= i < j < |r| ensures r[i].key != r[j].key {
          if i == 0 {
            assert r[j] in tail;
            var m :| 0 <= m < |tail| && tail[m] == r[j];
            assert rows[m + 1] == r[j];
          } else {
            assert r[i] == rest[i - 1] && r[j] == rest[j - 1];
          }
        }
        forall i | 0 <= i < |r| ensures r[i].key.parent == Some(d) {
          if i == 0 {
            assert r[0] == rows[0];
          } else {
            assert r[i] == rest[i - 1];
          }
        }
      } else {
        assert Without(rows, k) == rest;
      }
    }
  }

  /** In rows stored under one dinger, the key of `rows[i]` occurs nowhere else. */
  lemma KeyOnlyAt(d: Key, rows: seq<ClientRow>, i: nat)
    requires RowsBelong(d, rows) && i < |rows|
    ensures forall row :: row in rows[..i] ==> row.key != rows[i].key
    ensures forall row :: row in rows[i + 1..] ==> row.key != rows[i].key
  {
    forall row | row in rows[..i] ensures row.key != rows[i].key {
      var m :| 0 <= m < i && rows[..i][m] == row;
      assert rows[m] == row;
    }
    forall row | row in rows[i + 1..] ensures row.key != rows[i].key {
      var m :| 0 <= m < |rows| - i - 1 && rows[i + 1..][m] == row;
      assert rows[i + 1 + m] == row;
    }
  }

  /** Processing `rows[i]` extends the survivors of the prefix by at most that row. */
  lemma SurvivorsSnoc(rows: seq<ClientRow>, i: nat, sendFails: set<string>, undeletable: set<Key>)
    requires i < |rows|
    ensures Survivors(rows[..i + 1], sendFails, undeletable)
         == Survivors(rows[..i], sendFails, undeletable) + (if Keeps(rows[i], sendFails, undeletable) then [rows[i]] else [])
  {
    assert rows[..i + 1][..i] == rows[..i];
  }

  /** Processing `rows[i]` adds one send attempt and at most one logged key. */
  lemma LoggedSnoc(rows: seq<ClientRow>, i: nat, msg: string, sendFails: set<string>, undeletable: set<Key>)
    requires i < |rows|
    ensures Deliveries(rows[..i + 1], msg) == Deliveries(rows[..i], msg) + [Delivery(rows[i].client.id, msg)]
    ensures LoggedDeletes(rows[..i + 1], sendFails, undeletable)
         == LoggedDeletes(rows[..i], sendFails, undeletable)
            + (if rows[i].client.id in sendFails && rows[i].key in undeletable then [rows[i].key] else [])
  {
    assert rows[..i + 1][..i] == rows[..i];
  }

  /** When `rows[i]` is kept, the state after processing `rows[..i+1]` is the
      state after processing `rows[..i]`. */
  lemma KeepStep(rows: seq<ClientRow>, i: nat, sendFails: set<string>, undeletable: set<Key>)
    requires i < |rows| && Keeps(rows[i], sendFails, undeletable)
    ensures Survivors(rows[..i + 1], sendFails, undeletable) + rows[i + 1..]
         == Survivors(rows[..i], sendFails, undeletable) + rows[i..]
  {
    SurvivorsSnoc(rows, i, sendFails, undeletable);
    assert rows[i..] == [rows[i]] + rows[i + 1..];
  }

  /** When `rows[i]` is not kept, the state after processing `rows[..i+1]` is the
      state after processing `rows[..i]` with the key of `rows[i]` deleted. */
  lemma DropStep(d: Key, rows: seq<ClientRow>, i: nat, sendFails: set<string>, undeletable: set<Key>)
    requires RowsBelong(d, rows) && i < |rows| && !Keeps(rows[i], sendFails, undeletable)
    ensures Survivors(rows[..i + 1], sendFails, undeletable) + rows[i + 1..]
         == Without(Survivors(rows[..i], sendFails, undeletable) + rows[i..], rows[i].key)
  {
    var k := rows[i].key;
    var done := Survivors(rows[..i], sendFails, undeletable);
    var tail := rows[i + 1..];
    KeyOnlyAt(d, rows, i);
    SurvivorsMembership(rows[..i], sendFails, undeletable);
    assert forall row :: row in done ==> row.key != k;
    WithoutAbsent(done, k);
    WithoutAbsent(tail, k);
    assert rows[i..][1..] == tail;
    DropHead(rows[i..], k);
    assert Without(rows[i..], k) == tail;
    WithoutConcat(done, rows[i..], k);
    assert Without(done + rows[i..], k) == done + tail;
    SurvivorsSnoc(rows, i, sendFails, undeletable);
    assert Survivors(rows[..i + 1], sendFails, undeletable) == done;
  }

  /** Whatever prefix a broadcast has processed, the rows it leaves still belong
      to the dinger. */
  lemma {:induction false} PrefixStateBelongs(d: Key, rows: seq<ClientRow>, i: nat,
                                              sendFails: set<string>, undeletable: set<Key>)
    requires RowsBelong(d, rows) && i <= |rows|
    ensures RowsBelong(d, Survivors(rows[..i], sendFails, undeletable) + rows[i..])
  {
    if i == 0 {
      assert Survivors(rows[..0], sendFails, undeletable) + rows[0..] == rows;
    } else {
      PrefixStateBelongs(d, rows, i - 1, sendFails, undeletable);
      var cur := Survivors(rows[..i - 1], sendFails, undeletable) + rows[i - 1..];
      if Keeps(rows[i - 1], sendFails, undeletable) {
        KeepStep(rows, i - 1, sendFails, undeletable);
      } else {
        DropStep(d, rows, i - 1, sendFails, undeletable);
        WithoutKeepsBelonging(d, cur, rows[i - 1].key);
      }
    }
  }

  /** A broadcast stopped after any prefix leaves a store whose rows still belong
      to their dingers. */
  lemma BroadcastKeepsBelonging(clients: map<Key, seq<ClientRow>>, d: Key, rows: seq<ClientRow>, i: nat,
                                sendFails: set<string>, undeletable: set<Key>)
    requires AllRowsBelong(clients) && (d in clients ==> clients[d] == rows) && i <= |rows|
    ensures AllRowsBelong(BroadcastState(clients, d, rows, i, sendFails, undeletable))
  {
    if d in clients {
      PrefixStateBelongs(d, rows, i, sendFails, undeletable);
    }
  }

  /** A broadcast that runs to the end of the enumeration leaves the dinger
      exactly the survivors of its rows and changes no other dinger. */
  lemma BroadcastComplete(before: map<Key, seq<ClientRow>>, key: Key, rows: seq<ClientRow>,
                          sendFails: set<string>, undeletable: set<Key>)
    requires key in before
    ensures BroadcastState(before, key, rows, |rows|, sendFails, undeletable)
            == before[key := Survivors(rows, sendFails, undeletable)]
  {
    assert rows[..|rows|] == rows;
    assert Survivors(rows, sendFails, undeletable) + rows[|rows|..] == Survivors(rows, sendFails, undeletable);
  }

  /** A key is logged exactly when some row with that key had its send fail and
      could not be deleted. */
  lemma {:induction false} LoggedDeletesMembership(rows: seq<ClientRow>, sendFails: set<string>, undeletable: set<Key>)
    ensures forall k :: k in LoggedDeletes(rows, sendFails, undeletable) <==>
                        exists j :: 0 <= j < |rows| && rows[j].key == k && rows[j].client.id in sendFails && k in undeletable
  {
    if rows != [] {
      var front := rows[..|rows| - 1];
      LoggedDeletesMembership(front, sendFails, undeletable);
      forall k | exists j :: 0 <= j < |front| && front[j].key == k && front[j].client.id in sendFails && k in undeletable
        ensures exists j :: 0 <= j < |rows| && rows[j].key == k && rows[j].client.id in sendFails && k in undeletable
      {
        var j :| 0 <= j < |front| && front[j].key == k && front[j].client.id in sendFails && k in undeletable;
        assert rows[j] == front[j];
      }
      forall k | exists j :: 0 <= j < |rows| && rows[j].key == k && rows[j].client.id in sendFails && k in undeletable
        ensures k in LoggedDeletes(rows, sendFails, undeletable)
      {
        var j :| 0 <= j < |rows| && rows[j].key == k && rows[j].client.id in sendFails && k in undeletable;
        if j < |rows| - 1 {
          assert front[j] == rows[j];
        }
      }
    }
  }

  /** Before any client is handled the store is unchanged. */
  lemma BroadcastStart(before: map<Key, seq<ClientRow>>, key: Key, rows: seq<ClientRow>,
                       sendFails: set<string>, undeletable: set<Key>)
    requires key in before ==> before[key] == rows
    ensures BroadcastState(before, key, rows, 0, sendFails, undeletable) == before
  {
    assert rows[..0] == [] && rows[0..] == rows;
    assert Survivors(rows[..0], sendFails, undeletable) + rows[0..] == rows;
    if key in before {
      assert before[key := rows] == before;
    }
  }

  /** One client's step moves the store from the state after `rows[..i]` to the
      state after `rows[..i+1]`. */
  lemma Advance(before: map<Key, seq<ClientRow>>, key: Key, rows: seq<ClientRow>, i: nat,
                sendFails: set<string>, undeletable: set<Key>,
                cur: map<Key, seq<ClientRow>>, next: map<Key, seq<ClientRow>>)
    requires RowsBelong(key, rows) && i < |rows| && key in before
    requires cur == BroadcastState(before, key, rows, i, sendFails, undeletable)
    requires next == if Keeps(rows[i], sendFails, undeletable) then cur
                     else cur[key := Without(cur[key], rows[i].key)]
    ensures next == BroadcastState(before, key, rows, i + 1, sendFails, undeletable)
  {
    if Keeps(rows[i], sendFails, undeletable) {
      KeepStep(rows, i, sendFails, undeletable);
    } else {
      DropStep(key, rows, i, sendFails, undeletable);
    }
  }

  lemma DropHead(rows: seq<ClientRow>, k: Key)
    requires rows != [] && rows[0].key == k && Without(rows[1..], k) == rows[1..]
    ensures Without(rows, k) == rows[1..]
  {
  }

  /** The datastore's dinger and client entities. Clients are held per dinger in
      the order the ancestor query returns them. */
  class Store {
    var dingers: map<Key, Dinger>
    var clients: map<Key, seq<ClientRow>>

    ghost predicate Valid()
      reads this
    {
      AllRowsBelong(clients)
    }

    constructor ()
      ensures Valid() && dingers == map[] && clients == map[]
    {
      dingers := map[];
      clients := map[];
    }

    /** The rows the ancestor query over `d` enumerates. */
    function ClientsOf(d: Key): (rows: seq<ClientRow>)
      reads this
      ensures d !in clients ==> rows == []
      ensures Valid() ==> RowsBelong(d, rows)
    {
      if d in clients then clients[d] else []
    }

    /** `MakeDinger`: put a new dinger under a freshly allocated key. */
    method MakeDinger(name: string, put: PutResult) returns (r: Result<(Dinger, Key)>)
      requires Valid()
      requires put.Stored? ==> put.id > 0 && DingerKey(put.id) !in dingers
      modifies this
      ensures Valid() && clients == old(clients)
      ensures put.PutFailed? ==> r == Err(StoreFailure) && dingers == old(dingers)
      ensures put.Stored? ==> r == Ok((Dinger(name), DingerKey(put.id)))
      ensures put.Stored? ==> dingers == old(dingers)[DingerKey(put.id) := Dinger(name)]
    {
      var dinger := Dinger(name);
      match put
      case PutFailed =>
        return Err(StoreFailure);
      case Stored(id) =>
        var key := DingerKey(id);
        dingers := dingers[key := dinger];
        return Ok((dinger, key));
    }

    /** `GetDinger`: the stored record, or an error when there is none. */
    function GetDinger(key: Key): (r: Result<Dinger>)
      reads this
      ensures r.Ok? <==> key in dingers
      ensures r.Ok? ==> r.value == dingers[key]
      ensures r.Err? ==> r.error == NoSuchEntity
    {
      if key in dingers then Ok(dingers[key]) else Err(NoSuchEntity)
    }

    /** `MakeClient`: derive an id from the dinger id and a random number, ask the
        channel service for a token, then put the client under the dinger. Each
        failure returns before anything is stored. */
    method MakeClient(dingerKey: Key, random: Option<nat>, hash: string -> string,
                      token: Option<string>, put: PutResult) returns (r: Result<Client>)
      requires Valid()
      requires put.Stored? ==> forall row :: row in ClientsOf(dingerKey) ==> row.key != ClientKey(dingerKey, put.id)
      modifies this
      ensures Valid() && dingers == old(dingers)
      ensures r.Err? <==> random.None? || token.None? || put.PutFailed?
      ensures random.None? ==> r == Err(RandFailure)
      ensures random.Some? && token.None? ==> r == Err(ChannelFailure)
      ensures random.Some? && token.Some? && put.PutFailed? ==> r == Err(StoreFailure)
      ensures r.Err? ==> clients == old(clients)
      ensures r.Ok? ==> r.value == Client(hash(ClientIdMaterial(dingerKey, random.value)), token.value)
      ensures r.Ok? ==> clients == old(clients)[dingerKey :=
                          old(ClientsOf(dingerKey)) + [ClientRow(ClientKey(dingerKey, put.id), r.value)]]
    {
      if random.None? {
        return Err(RandFailure);
      }
      var id := hash(ClientIdMaterial(dingerKey, random.value));
      if token.None? {
        return Err(ChannelFailure);
      }
      var client := Client(id, token.value);
      if put.PutFailed? {
        return Err(StoreFailure);
      }
      var rows := ClientsOf(dingerKey);
      var row := ClientRow(ClientKey(dingerKey, put.id), client);
      assert RowsBelong(dingerKey, rows + [row]) by {
        forall i, j | 0 <= i < j < |rows| + 1 ensures (rows + [row])[i].key != (rows + [row])[j].key {
          if j == |rows| {
            assert rows[i] in rows;
          }
        }
      }
      clients := clients[dingerKey := rows + [row]];
      return Ok(client);
    }

    /** `datastore.Delete`: remove the row with key `k` from its parent's rows.
        It fails when `k` is in `undeletable`; deleting an absent key succeeds. */
    method Delete(k: Key, undeletable: set<Key>) returns (ok: bool)
      requires Valid()
      modifies this
      ensures Valid() && dingers == old(dingers)
      ensures ok <==> k !in undeletable
      ensures var p := k.parent;
              clients == if ok && p.Some? && p.value in old(clients)
                         then old(clients)[p.value := Without(old(clients)[p.value], k)]
                         else old(clients)
    {
      ok := k !in undeletable;
      if ok && k.parent.Some? && k.parent.value in clients {
        var d := k.parent.value;
        WithoutKeepsBelonging(d, clients[d], k);
        clients := clients[d := Without(clients[d], k)];
      }
    }

    /** One pass of PostDing's loop: send the message to the client, and delete the
        client's row when the send fails; a failed delete is reported for logging. */
    method Notify(row: ClientRow, msg: string, sendFails: set<string>, undeletable: set<Key>)
      returns (delivery: Delivery, failedDelete: seq<Key>)
      requires Valid()
      modifies this
      ensures Valid() && dingers == old(dingers)
      ensures delivery == Delivery(row.client.id, msg)
      ensures failedDelete == if row.client.id in sendFails && row.key in undeletable then [row.key] else []
      ensures var p := row.key.parent;
              clients == if !Keeps(row, sendFails, undeletable) && p.Some? && p.value in old(clients)
                         then old(clients)[p.value := Without(old(clients)[p.value], row.key)]
                         else old(clients)
    {
      delivery := Delivery(row.client.id, msg);
      failedDelete := [];
      if row.client.id in sendFails {
        var deleted := Delete(row.key, undeletable);
        if !deleted {
          failedDelete := [row.key];
        }
      }
    }

    /** Notify the `i`-th of the dinger's `rows` and record the send and any failed
        delete, moving the sends, the logged keys and the store from their values
        after `rows[..i]` to those after `rows[..i+1]`. */
    method NotifyNext(ghost before: map<Key, seq<ClientRow>>, key: Key, rows: seq<ClientRow>, i: nat,
                      msg: string, sendFails: set<string>, undeletable: set<Key>,
                      sent: seq<Delivery>, logged: seq<Key>)
      returns (sent': seq<Delivery>, logged': seq<Key>)
      requires AllRowsBelong(before) && key in before && before[key] == rows && i < |rows|
      requires clients == BroadcastState(before, key, rows, i, sendFails, undeletable)
      requires sent == Deliveries(rows[..i], msg)
      requires logged == LoggedDeletes(rows[..i], sendFails, undeletable)
      modifies this
      ensures dingers == old(dingers)
      ensures sent' == Deliveries(rows[..i + 1], msg)
      ensures logged' == LoggedDeletes(rows[..i + 1], sendFails, undeletable)
      ensures clients == BroadcastState(before, key, rows, i + 1, sendFails, undeletable)
    {
      LoggedSnoc(rows, i, msg, sendFails, undeletable);
      BroadcastKeepsBelonging(before, key, rows, i, sendFails, undeletable);
      var delivery, failedDelete := Notify(rows[i], msg, sendFails, undeletable);
      Advance(before, key, rows, i, sendFails, undeletable, old(clients), clients);
      sent' := sent + [delivery];
      logged' := logged + failedDelete;
    }

    /** `PostDing`: send the message (or the default ding) to every client of the
        dinger in query order; a client whose send fails is deleted, a failed
        delete is logged and skipped. Only a failure of the enumeration itself is
        returned, and it stops the loop with the rows before it already handled. */
    method PostDing(key: Key, message: string, sendFails: set<string>, undeletable: set<Key>,
                    enumFailAt: Option<nat>)
      returns (err: Option<Error>, sent: seq<Delivery>, logged: seq<Key>)
      requires Valid()
      modifies this
      ensures Valid() && dingers == old(dingers)
      ensures var rows := old(ClientsOf(key));
              var n := Processed(|rows|, enumFailAt);
              && (err.Some? <==> enumFailAt.Some? && enumFailAt.value <= |rows|)
              && (err.Some? ==> err.value == EnumerationFailure)
              && sent == Deliveries(rows[..n], DingMessage(message))
              && logged == LoggedDeletes(rows[..n], sendFails, undeletable)
              && clients == BroadcastState(old(clients), key, rows, n, sendFails, undeletable)
    {
      var msg := message;
      if |msg| == 0 {
        msg := DefaultDing;
      }
      var rows := ClientsOf(key);
      ghost var n := Processed(|rows|, enumFailAt);
      ghost var before := clients;
      assert msg == DingMessage(message);
      assert AllRowsBelong(before) && (key in before ==> before[key] == rows);
      BroadcastStart(before, key, rows, sendFails, undeletable);
      assert Deliveries(rows[..0], msg) == [];
      err, sent, logged := None, [], [];
      var i := 0;
      while true
        invariant i <= n
        invariant err == None
        invariant dingers == old(dingers)
        invariant sent == Deliveries(rows[..i], msg)
        invariant logged == LoggedDeletes(rows[..i], sendFails, undeletable)
        invariant clients == BroadcastState(before, key, rows, i, sendFails, undeletable)
        decreases |rows| - i
      {
        if enumFailAt == Some(i) {
          // the iterator's Next returned an error
          err := Some(EnumerationFailure);
          break;
        }
        if i == |rows| {
          // the iterator is exhausted (datastore.Done)
          break;
        }
        assert key in before;
        sent, logged := NotifyNext(before, key, rows, i, msg, sendFails, undeletable, sent, logged);
        i := i + 1;
      }
      BroadcastKeepsBelonging(before, key, rows, i, sendFails, undeletable);
    }
  }
}
