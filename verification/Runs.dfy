// Ways to go on from any reachable state: connecting any number of clients,
// logging in on a session, ticking. Runs with given properties are put together
// from these.
module Runs {
  import opened Prelude
  import opened Protocol
  import opened WriteQueue
  import opened ServerSpec
  import opened ClientSpec
  import opened Accounts
  import opened Ticks
  import opened Worlds
  import opened Invariant
  import opened Preservation
  import opened CatchingUp
  import opened Connections
  import Filter
  import Framing
  import Json
  import Notices
  import Text
  import Uuid

  lemma ReachNext(w: World, e: Event)
    requires Reachable(w) && CanHappen(w, e)
    ensures Reachable(Next(w, e))
  {
    hide Reachable, CanHappen, Next;
    ReachOn(w, [w, Next(w, e)], [e]);
  }

  const EMPTY_DB := Db(map[], [], Disk(Absent, Absent), [map[]])
  const FIRST := World(Started(EMPTY_DB), [], [])

  lemma FirstIsInitial()
    ensures Init(FIRST)
  {
    assert Load(EMPTY_DB.disk) == Some(EMPTY_DB.accounts);
  }

  lemma FirstReachable()
    ensures Reachable(FIRST)
  {
    hide CanHappen, Next, Init;
    FirstIsInitial();
    assert Behavior([FIRST], []);
  }

  // A session that is read from, with nothing in its buffer.
  predicate Reading(s: ServerState, k: nat) {
    && !s.ended && k < |s.sessions|
    && s.sessions[k].reading && s.sessions[k].input.buffer == ""
  }

  // It is also filed under its id, and none of its writes has failed.
  predicate Open(w: World, k: nat) {
    && Reading(w.server, k)
    && var v := w.server.sessions[k];
       !v.failed && v.id in w.server.filed && w.server.filed[v.id] == Some(k)
  }

  lemma Sizes(w: World)
    requires Well(w)
    ensures |w.conns| == |w.past| + |w.server.sessions| == |Sessions(w)|
  {
    hide ServerWell;
  }

  // ------------------------------------------------------------------ connecting

  // An accept makes one session, filed under the next id, being read from, and
  // given the handshake to send; it changes nothing else.
  lemma ConnectOne(w: World)
    requires Reachable(w) && !w.server.ended
    ensures CanHappen(w, Connect)
    ensures var u, n, id := Next(w, Connect), |w.server.sessions|, w.server.nextId;
            && Reachable(u) && u.past == w.past && u.server.db == w.server.db && u.server.lastSeq == w.server.lastSeq
            && |u.server.sessions| == n + 1 && u.server.sessions[..n] == w.server.sessions && Open(u, n)
            && u.server.sessions[n].sent == [Handshake(id)] && u.server.sessions[n].id == id
            && id == (n + 1) % U8 && u.server.nextId == (n + 2) % U8
            && u.server.filed == w.server.filed[id := Some(n)] && w.conns <= u.conns
            && |u.conns| == |w.past| + n + 1 && u.conns[|w.past| + n] == Accepted(n, Counter(w.server.lastSeq, id))
  {
    hide Reachable, Handshake, Serialize, Counter, Durable, Bindings, Counters, ConnsWell;
    ReachableWell(w);
    assert CanHappen(w, Connect);
    ReachNext(w, Connect);
    assert |w.conns| == |w.past| + |w.server.sessions| by { Sizes(w); }
  }

  // Any number of clients can connect. The last one starts from the counter of
  // the id its number gives.
  lemma {:induction false} ConnectMany(w: World, n: nat) returns (u: World)
    requires Reachable(w) && !w.server.ended && n > 0
    ensures var last := |w.server.sessions| + n - 1;
            var id := (last + 1) % U8;
            && Reachable(u) && u.past == w.past && u.server.db == w.server.db && u.server.lastSeq == w.server.lastSeq
            && |u.server.sessions| == last + 1 && w.server.sessions <= u.server.sessions && Open(u, last)
            && u.server.sessions[last].sent == [Handshake(id)] && u.server.sessions[last].id == id
            && |u.conns| == |w.past| + last + 1
            && u.conns[|w.past| + last] == Accepted(last, Counter(w.server.lastSeq, id))
    decreases n
  {
    hide Reachable, CanHappen, Next, Handshake, Counter;
    if n == 1 {
      ConnectOne(w);
      u := Next(w, Connect);
    } else {
      var mid := ConnectMany(w, n - 1);
      ConnectOne(mid);
      u := Next(mid, Connect);
    }
  }

  // -------------------------------------------------------------------- logging in

  function LoginRequest(user: string, password: string): Message {
    Message(LOGIN_REQUEST, 1, Json.Obj(map["id" := Json.Str(user), "password" := Json.Str(password)]))
  }

  lemma LoginRequestContents(user: string, password: string)
    requires Text.Ascii(user) && Text.Ascii(password)
    ensures var m := LoginRequest(user, password);
            Wire(m) && m.kind == LOGIN_REQUEST
            && StringAt(m.payload, "id") == Some(user) && StringAt(m.payload, "password") == Some(password)
  {
    var m := LoginRequest(user, password);
    var p := m.payload.m;
    assert p["id"] == Json.Str(user) && p["password"] == Json.Str(password);
    assert Text.Ascii("id") && Text.Ascii("password");
    assert forall k | k in p :: Text.Ascii(k) && Json.Wire(p[k]);
    assert Json.Wire(m.payload);
  }

  // Reading a login request is handling it, on the session without its bytes.
  lemma LineLogsIn(s: ServerState, k: nat, user: string, password: string, drawn: string, rehash: seq<string>)
    requires WellFormed(s) && k < |s.sessions| && s.sessions[k].input.buffer == Serialize(LoginRequest(user, password))
    requires Text.Ascii(user) && Text.Ascii(password)
    ensures Framing.HasLine(s.sessions[k].input.buffer)
    ensures var v := s.sessions[k].(input := Framing.Do(s.sessions[k].input, Framing.Take));
            && v.input.buffer == ""
            && OnLine(s, k, drawn, rehash)
               == OnLogin(s.(sessions := s.sessions[k := v]), v.id, LoginRequest(user, password).payload, drawn, rehash)
  {
    hide Serialize, Parse, LoginRequest, OnLogin;
    var m := LoginRequest(user, password);
    LoginRequestContents(user, password);
    Framing.MessageFirst(m, "");
    assert Serialize(m) + "" == Serialize(m);
  }

  // The account a login with these words ends up with.
  ghost predicate Accepting(db: Db, user: string, password: string, drawn: string, rehash: seq<string>, uuid: string) {
    if user in db.accounts then db.accounts[user].password == password && db.accounts[user].uuid == uuid
    else uuid == drawn && Fresh(db.accounts, drawn) && IsOrder(rehash, db.accounts.Keys + {user})
  }

  lemma Authenticated(db: Db, user: string, password: string, drawn: string, rehash: seq<string>, uuid: string)
    requires Sound(db) && Text.Ascii(user) && Text.Ascii(password) && Accepting(db, user, password, drawn, rehash, uuid)
    ensures var auth := Authenticate(db, LoginRequest(user, password).payload, drawn, rehash);
            && auth.Some? && auth.value.1 == uuid && Sound(auth.value.0)
            && auth.value.0.accounts.Keys == db.accounts.Keys + {user}
            && auth.value.0.accounts[user].password == password && auth.value.0.accounts[user].uuid == uuid
            && auth.value.0.accounts[user].resources
               == if user in db.accounts then db.accounts[user].resources else NO_RESOURCES
  {
    hide Sound, LoginRequest;
    LoginRequestContents(user, password);
    if user !in db.accounts {
      AddUserSound(db, user, password, drawn, rehash);
    }
  }

  lemma BoundBy(s: ServerState, id: nat, j: nat, payload: Json.Json, drawn: string, rehash: seq<string>)
    requires WellFormed(s) && id in s.filed && s.filed[id] == Some(j)
    requires Authenticate(s.db, payload, drawn, rehash).Some?
    ensures var auth := Authenticate(s.db, payload, drawn, rehash).value;
            OnLogin(s, id, payload, drawn, rehash)
            == s.(db := auth.0, sessions := s.sessions[j :=
                 WriteQueue.Apply(s.sessions[j].(uuid := auth.1), Post(LoginResult(auth.1)))])
  {
    hide Serialize, LoginResult, Authenticate;
  }

  // What a login changes at the session it binds, and what it leaves as it was.
  ghost predicate LoggedIn(w: World, u: World, j: nat, uuid: string)
    requires j < |w.server.sessions|
  {
    && u.past == w.past && u.conns == w.conns && u.server.lastSeq == w.server.lastSeq
    && |u.server.sessions| == |w.server.sessions| && Open(u, j)
    && u.server.sessions[j].id == w.server.sessions[j].id && u.server.sessions[j].uuid == uuid
    && u.server.sessions[j].sent == w.server.sessions[j].sent + [LoginResult(uuid)]
  }

  // Handling the line of such a login on session k, when session j is filed
  // under the id of k.
  lemma LineBinds(s: ServerState, k: nat, j: nat, user: string, password: string, drawn: string, rehash: seq<string>,
                  uuid: string)
    requires WellFormed(s) && k < |s.sessions| && s.sessions[k].input.buffer == Serialize(LoginRequest(user, password))
    requires s.sessions[k].id in s.filed && s.filed[s.sessions[k].id] == Some(j)
    requires Text.Ascii(user) && Text.Ascii(password) && Sound(s.db)
    requires Accepting(s.db, user, password, drawn, rehash, uuid)
    ensures Framing.HasLine(s.sessions[k].input.buffer)
    ensures var v, next := s.sessions[k], OnLine(s, k, drawn, rehash);
            var taken := s.sessions[k := v.(input := Framing.Do(v.input, Framing.Take))];
            && next == s.(db := next.db, sessions := taken[j :=
                 WriteQueue.Apply(taken[j].(uuid := uuid), Post(LoginResult(uuid)))])
            && taken[k].input.buffer == ""
            && Coherent(next.db) && next.db.accounts.Keys == s.db.accounts.Keys + {user}
            && next.db.accounts[user].password == password && next.db.accounts[user].uuid == uuid
            && next.db.accounts[user].resources
               == if user in s.db.accounts then s.db.accounts[user].resources else NO_RESOURCES
  {
    hide Serialize, LoginRequest, LoginResult, Sound, OnLogin, OnLine, Authenticate, Accepting;
    LineLogsIn(s, k, user, password, drawn, rehash);
    var v := s.sessions[k].(input := Framing.Do(s.sessions[k].input, Framing.Take));
    var taken := s.(sessions := s.sessions[k := v]);
    Authenticated(taken.db, user, password, drawn, rehash, uuid);
    BoundBy(taken, v.id, j, LoginRequest(user, password).payload, drawn, rehash);
    SoundParts(OnLine(s, k, drawn, rehash).db);
  }

  // A login can be read from session k; it binds the session j filed under the
  // id of k.
  lemma LogIn(w: World, k: nat, j: nat, user: string, password: string, a: nat, b: nat, rehash: seq<string>,
              uuid: string) returns (u: World)
    requires Reachable(w) && Reading(w.server, k) && Open(w, j) && w.server.sessions[k].id == w.server.sessions[j].id
    requires a < U64 && b < U64 && Fresh(w.server.db.accounts, Uuid.Format(a, b))
    requires Text.Ascii(user) && Text.Ascii(password)
    requires Accepting(w.server.db, user, password, Uuid.Format(a, b), rehash, uuid)
    ensures Reachable(u) && LoggedIn(w, u, j, uuid)
    ensures k != j ==> u.server.sessions[k].uuid == w.server.sessions[k].uuid
                       && u.server.sessions[k].sent == w.server.sessions[k].sent
    ensures var t, t' := w.server.db.accounts, u.server.db.accounts;
            && t'.Keys == t.Keys + {user} && t'[user].password == password && t'[user].uuid == uuid
            && t'[user].resources == if user in t then t[user].resources else NO_RESOURCES
  {
    hide Reachable, Well, Serialize, LoginRequest, LoginResult, Sound, OnLine, Uuid.Format, Accepting, Coherent;
    var text, drawn := Serialize(LoginRequest(user, password)), Uuid.Format(a, b);
    var read, line := ServerRead(k, text), ServerLine(k, a, b, rehash);
    ReachNext(w, read);
    var mid := Next(w, read);
    assert "" + text == text;
    ReachableWell(mid);
    WellFormedOf(mid);
    assert Sound(mid.server.db) by { SoundOf(mid); }
    LineBinds(mid.server, k, j, user, password, drawn, rehash, uuid);
    ReachNext(mid, line);
    u := Next(mid, line);
  }

  lemma SoundOf(w: World)
    requires Well(w)
    ensures Sound(w.server.db)
  {
    hide ConnsWell, Filing, Bindings, Counters, Sound;
  }

  // ----------------------------------------------------------------------- ticking

  lemma {:induction false} ListingOf(ids: set<nat>) returns (order: seq<nat>)
    ensures Listing(order, ids)
    decreases |ids|
  {
    if ids == {} {
      order := [];
    } else {
      var id :| id in ids;
      order := ListingOf(ids - {id});
      order := [id] + order;
    }
  }

  lemma CounterAfter(w: World, u: World, k: nat, m: Message)
    requires Well(w) && Well(u) && Open(w, k) && Open(u, k) && u.past == w.past && u.conns == w.conns
    requires |u.server.sessions| == |w.server.sessions| && u.server.sessions[k].id == w.server.sessions[k].id
    requires u.server.sessions[k].sent == w.server.sessions[k].sent + [m] && m.kind == RESOURCE_UPDATE
    ensures var id := w.server.sessions[k].id;
            Counter(u.server.lastSeq, id) == (Counter(w.server.lastSeq, id) + 1) % U32
  {
    hide ConnsWell, Durable, Filing, Bindings, Counter;
    var id := w.server.sessions[k].id;
    assert Mine(u) == Mine(w);
    FiledIsLatest(w.server, id, k);
    FiledIsLatest(u.server, id, k);
    assert CounterOf(w.server, Mine(w), k) && CounterOf(u.server, Mine(u), k);
    Filter.Snoc(w.server.sessions[k].sent, m, RESOURCE_UPDATE);
    NextNumber(Mine(w)[k].base, Updates(w.server.sessions[k]));
  }

  lemma CountFirst(st: ServerState, id: nat, uuid: string)
    requires Bound(st, id) == uuid
    ensures CountIn(st, [id], uuid) == 1
  {
    assert CountIn(st, [id][1..], uuid) == 0;
  }

  // Ticking with the session's entry first sends it the account's next ten.
  lemma TickPostsFirst(st: ServerState, order: seq<nat>, k: nat, user: string)
    requires Notices.Sane(st) && k < |st.sessions| && Listing([st.sessions[k].id] + order, st.filed.Keys)
    requires st.filed[st.sessions[k].id] == Some(k)
    requires user in st.db.accounts && st.db.accounts[user].uuid == st.sessions[k].uuid != ""
    ensures var v, all := st.sessions[k], [st.sessions[k].id] + order;
            && WellFormed(st) && (forall id | id in all :: id in st.filed)
            && |Tick(st, all).sessions| == |st.sessions|
            && Tick(st, all).sessions[k] == WriteQueue.Apply(v, Post(ResourceUpdate(
                 v.uuid, (Counter(st.lastSeq, v.id) + 1) % U32, Plus10(st.db.accounts[user].resources))))
  {
    hide Notices.Sane, Tick, Serialize, ResourceUpdate, Counter, WriteQueue.Apply, Repeat10, Plus10, CountIn, Bound,
         WellFormed;
    var all, uuid := [st.sessions[k].id] + order, st.sessions[k].uuid;
    Notices.TickPosts(st, all, 0, k, user);
    Notices.BoundHere(st, st.sessions[k].id, k);
    assert all[..1] == [st.sessions[k].id];
    CountFirst(st, st.sessions[k].id, uuid);
    RepeatOnce(st.db.accounts[user].resources, 0);
  }

  lemma OneHolder(st: ServerState, id: nat)
    requires Notices.Sane(st) && |st.sessions| == 1 && id in st.filed && st.sessions[0].id == id
    ensures Bound(st, id) == st.sessions[0].uuid
    ensures st.sessions[0].uuid != "" ==> |Holders(st, st.sessions[0].uuid)| == 1
  {
    if st.sessions[0].uuid != "" {
      assert Holders(st, st.sessions[0].uuid) == {id};
    }
  }

  lemma TickOnce(w: World, k: nat, user: string) returns (u: World, m: Message)
    requires Reachable(w) && Open(w, k) && w.server.sessions[k].uuid != ""
    requires user in w.server.db.accounts && w.server.db.accounts[user].uuid == w.server.sessions[k].uuid
    ensures Reachable(u) && u.past == w.past && u.conns == w.conns
    ensures |u.server.sessions| == |w.server.sessions| && Open(u, k)
    ensures var v, next := w.server.sessions[k], u.server.sessions[k];
            && next.id == v.id && next.uuid == v.uuid && next.sent == v.sent + [m]
            && m == ResourceUpdate(v.uuid, (Counter(w.server.lastSeq, v.id) + 1) % U32,
                                   Plus10(w.server.db.accounts[user].resources))
            && Counter(u.server.lastSeq, v.id) == (Counter(w.server.lastSeq, v.id) + 1) % U32
    ensures var t, t' := w.server.db.accounts, u.server.db.accounts;
            && t'.Keys == t.Keys && t'[user].password == t[user].password && t'[user].uuid == t[user].uuid
            && (|w.server.sessions| == 1 ==> t'[user].resources == Plus10(t[user].resources))
    ensures exists order :: CanHappen(w, TickAll(order)) && u == Next(w, TickAll(order))
  {
    hide Reachable, Well, Tick, Serialize, Counter, Repeat10, CountIn, TickSafe, Holders, Plus10;
    ReachableWell(w);
    Notices.WellIsSane(w);
    var s, v := w.server, w.server.sessions[k];
    var rest := ListingOf(s.filed.Keys - {v.id});
    var e := TickAll([v.id] + rest);
    TickWell(w, [v.id] + rest);
    assert CanHappen(w, e);
    TickPostsFirst(s, rest, k, user);
    TickPerAccount(s, [v.id] + rest, user);
    if |s.sessions| == 1 {
      OneHolder(s, v.id);
      RepeatOnce(s.db.accounts[user].resources, 0);
    }
    u := Next(w, e);
    ReachNext(w, e);
    ReachableWell(u);
    m := ResourceUpdate(v.uuid, (Counter(s.lastSeq, v.id) + 1) % U32, Plus10(s.db.accounts[user].resources));
    CounterAfter(w, u, k, m);
  }

  // Any number of ticks can follow one another.
  lemma {:induction false} TickMany(w: World, k: nat, user: string, n: nat) returns (u: World)
    requires Reachable(w) && Open(w, k) && w.server.sessions[k].uuid != ""
    requires user in w.server.db.accounts && w.server.db.accounts[user].uuid == w.server.sessions[k].uuid
    ensures Reachable(u) && u.past == w.past && u.conns == w.conns
    ensures |u.server.sessions| == |w.server.sessions| && Open(u, k)
    ensures u.server.sessions[k].uuid == w.server.sessions[k].uuid
    ensures Updates(u.server.sessions[k]) == Updates(w.server.sessions[k]) + n
    ensures u.server.db.accounts.Keys == w.server.db.accounts.Keys
    ensures u.server.db.accounts[user].uuid == u.server.sessions[k].uuid
    ensures |w.server.sessions| == 1 ==>
              u.server.db.accounts[user].resources == Repeat10(w.server.db.accounts[user].resources, n)
    decreases n
  {
    hide Reachable, Well, Counter, Plus10, CanHappen, Next;
    if n == 0 {
      u := w;
      RepeatNone(w, user);
    } else {
      var mid := TickMany(w, k, user, n - 1);
      var m: Message;
      u, m := TickOnce(mid, k, user);
      Filter.Snoc(mid.server.sessions[k].sent, m, RESOURCE_UPDATE);
      RepeatNext(w.server.db.accounts[user].resources, n - 1);
    }
  }

  lemma RepeatNone(w: World, user: string)
    requires Reachable(w) && user in w.server.db.accounts
    ensures var r := w.server.db.accounts[user].resources; Repeat10(r, 0) == r
  {
    hide Reachable, Well;
    ReachableWell(w);
    DurableOf(w);
    DurableParts(w.server.db);
    assert TypedResources(w.server.db.accounts[user].resources);
  }

  lemma DurableOf(w: World)
    requires Well(w)
    ensures Durable(w.server.db)
  {
    hide ConnsWell, Filing, Bindings, Counters, Durable;
  }

  // ------------------------------------------------------------------- catching up

  // The client at the end of session k can poll all that session was sent.
  lemma Receive(w: World, k: nat) returns (u: World)
    requires Reachable(w) && w.past == [] && Open(w, k)
    ensures Reachable(u) && u.past == [] && !u.server.ended && u.server.filed == w.server.filed
    ensures |u.conns| == |w.conns| == |w.server.sessions| == |u.server.sessions|
    ensures var v, v' := w.server.sessions[k], u.server.sessions[k];
            v'.sent == v.sent && v'.uuid == v.uuid && v'.id == v.id && u.conns[k].polled == v.sent
    ensures Open(u, k) && u.server.db == w.server.db && u.server.lastSeq == w.server.lastSeq
    ensures w.conns[k].client.scene == Game ==> u.conns[k].atLogin == w.conns[k].atLogin
    ensures u.conns[k].base == w.conns[k].base && u.conns[k].serial == w.conns[k].serial
    ensures u.conns[k].client.scene == w.conns[k].client.scene
  {
    hide Reachable, Well, CanHappen, Next, PassesOn;
    ReachableWell(w);
    Sizes(w);
    assert Sessions(w) == w.server.sessions;
    assert Running(w, k);
    var ws, es := CatchUp(w, k);
    ReachOn(w, ws, es);
    u := ws[|es|];
    assert Sessions(u) == u.server.sessions;
  }

  // --------------------------------------------------------- the first connection

  lemma Kinds(id: nat, uuid: string)
    ensures Handshake(id).kind == ASSIGN_CLIENT_ID && LoginResult(uuid).kind == LOGIN_RESULT
    ensures UuidOf(LoginResult(uuid)) == uuid
  {
    assert LoginResult(uuid).payload.m["uuid"].s == uuid;
  }

  // The first client connects and registers.
  lemma FirstLogsIn() returns (w: World, uuid: string)
    ensures Reachable(w) && w.past == [] && Open(w, 0) && |w.server.sessions| == 1
    ensures |w.conns| == 1 && w.conns[0] == Accepted(0, 0)
    ensures w.server.sessions[0].id == 1 && w.server.lastSeq == map[]
    ensures w.server.sessions[0].sent == [Handshake(1)] + [LoginResult(uuid)] && w.server.sessions[0].uuid == uuid != ""
    ensures var t := w.server.db.accounts;
            && t.Keys == {"u"} && t["u"].password == "p" && t["u"].uuid == uuid == Uuid.Format(0, 0)
            && t["u"].resources == NO_RESOURCES
  {
    hide Reachable, Handshake, LoginResult, Uuid.Format;
    FirstReachable();
    var a := ConnectMany(FIRST, 1);
    uuid := Uuid.Format(0, 0);
    Uuid.FormatOnWire(0, 0);
    assert Text.Ascii("u") && Text.Ascii("p");
    w := LogIn(a, 0, 0, "u", "p", 0, 0, ["u"], uuid);
  }

  lemma OneUpdate(h: Message, l: Message, m: Message)
    requires h.kind == ASSIGN_CLIENT_ID && l.kind == LOGIN_RESULT && m.kind == RESOURCE_UPDATE
    ensures Filter.OfKind(RESOURCE_UPDATE, [h] + [l] + [m]) == [m]
    ensures Filter.OfKind(LOGIN_RESULT, [h] + [l] + [m]) == [l]
  {
    Filter.Snoc([], h, RESOURCE_UPDATE);
    Filter.Snoc([h], l, RESOURCE_UPDATE);
    Filter.Snoc([h] + [l], m, RESOURCE_UPDATE);
    Filter.Snoc([], h, LOGIN_RESULT);
    Filter.Snoc([h], l, LOGIN_RESULT);
    Filter.Snoc([h] + [l], m, LOGIN_RESULT);
    assert [] + [h] == [h];
  }
}
