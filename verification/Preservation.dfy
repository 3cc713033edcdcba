// Every event keeps the invariant, so it holds in every reachable state.
module Preservation {
  import opened Prelude
  import opened Protocol
  import opened WriteQueue
  import opened ServerSpec
  import opened ClientSpec
  import opened Accounts
  import opened Connections
  import opened Ticks
  import opened Worlds
  import opened Invariant
  import Filter
  import Framing
  import Json
  import Text
  import Uuid

  // ------------------------------------------------------------------- the tick

  lemma {:induction false} TickWell(w: World, order: seq<nat>)
    requires Well(w) && !w.server.ended && forall id | id in order :: id in w.server.filed
    ensures WellFormed(w.server)
    ensures Well(w.(server := Tick(w.server, order)))
    ensures !Tick(w.server, order).ended && Tick(w.server, order).filed == w.server.filed
    ensures w.server.db.history <= Tick(w.server, order).db.history
    decreases |order|
  {
    hide TickOne, Well;
    WellFormedOf(w);
    if order != [] {
      var id, rest := order[0], order[1..];
      assert id in order;
      TickOneWell(w, id);
      TickOneWellFormed(w.server, id);
      var mid := w.(server := TickOne(w.server, id));
      TickWell(mid, rest);
      assert Tick(w.server, order) == Tick(mid.server, rest);
    }
  }

  lemma WellFormedOf(w: World)
    requires Well(w)
    ensures WellFormed(w.server)
  {
    WellIsFormed(w.server, Mine(w));
  }

  lemma CrashWell(w: World, leftover: File)
    requires Well(w)
    ensures Well(w.(server := Crashed(w.server, leftover)))
  {
    hide ConnsWell, Durable, CounterOf, Entry, Known;
    var s, next := w.server, Crashed(w.server, leftover);
    CrashDurable(s.db, leftover);
    forall id | id in next.filed ensures Entry(next, id) {
      CrashEntry(s, leftover, id);
    }
    QuietCounters(s, Mine(w), next);
  }

  lemma CrashDurable(db: Db, leftover: File)
    requires Durable(db)
    ensures Durable(db.(disk := db.disk.(temp := leftover)))
  {
  }

  lemma CrashEntry(s: ServerState, leftover: File, id: nat)
    requires id in s.filed && Entry(s, id)
    ensures Entry(Crashed(s, leftover), id)
  {
  }

  lemma RestartWell(w: World, users: seq<string>)
    requires Well(w) && CanHappen(w, Restart(users))
    ensures Well(Next(w, Restart(users)))
    ensures Next(w, Restart(users)).server.db.history == w.server.db.history
  {
    hide ConnWell;
    var db, next := w.server.db, Next(w, Restart(users));
    BootSound(db, users);
    assert Sessions(next) == Sessions(w);
    assert Mine(next) == [];
  }

  // ---------------------------------------------------------------------- accept

  lemma AcceptConn(s: ServerState, serial: nat, h: seq<Table>)
    requires s.nextId < U8 && h != []
    requires Counter(s.lastSeq, s.nextId) < U32 && (serial < U8 ==> Counter(s.lastSeq, s.nextId) == 0)
    ensures var next := OnAccept(s);
            ConnWell(next.sessions[|s.sessions|], Accepted(serial, Counter(s.lastSeq, s.nextId)), h)
  {
    hide Serialize, SentWell, ClientWell;
    var v := OnAccept(s).sessions[|s.sessions|];
    OpenedOrderly(s.nextId);
    PostOrderly(Opened(s.nextId), Handshake(s.nextId));
    FirstSent(s.nextId, Counter(s.lastSeq, s.nextId), h);
    LaunchedWell(s.nextId, serial, Counter(s.lastSeq, s.nextId));
    assert v.sent == [Handshake(s.nextId)];
    assert Framing.Texts([]) == [];
  }

  // The session 256 before the new one is the only one that stops being the
  // latest of its id, and its entry is replaced.
  lemma AcceptEntry(s: ServerState, id: nat)
    requires Ids(s) && !s.ended && id in s.filed && id != s.nextId && Entry(s, id)
    ensures Entry(OnAccept(s), id)
  {
    hide Serialize;
  }

  lemma AcceptFiling(s: ServerState)
    requires Filing(s) && !s.ended
    ensures Filing(OnAccept(s))
  {
    hide Serialize;
    var next := OnAccept(s);
    assert next.sessions[|s.sessions|].id == s.nextId && Live(next.sessions[|s.sessions|]);
    forall id | id in next.filed ensures Entry(next, id) {
      if id != s.nextId {
        AcceptEntry(s, id);
      }
    }
    forall k | 0 <= k < |s.sessions| < U8 ensures next.sessions[k].id != s.nextId {
      assert next.sessions[k] == s.sessions[k];
    }
  }

  lemma AcceptCounter(s: ServerState, mine: seq<Conn>, conn: Conn)
    requires |mine| == |s.sessions| && Words(s.lastSeq) && conn.base == Counter(s.lastSeq, s.nextId)
    ensures CounterOf(OnAccept(s), mine + [conn], |s.sessions|)
  {
    hide Serialize;
    var next := OnAccept(s);
    var v := next.sessions[|s.sessions|];
    assert v.sent == [] + [Handshake(s.nextId)];
    Filter.Snoc([], Handshake(s.nextId), RESOURCE_UPDATE);
    assert Updates(v) == 0;
  }

  lemma AcceptOldCounter(s: ServerState, mine: seq<Conn>, conn: Conn, k: nat)
    requires Ids(s) && CounterOf(s, mine, k) && conn.base == Counter(s.lastSeq, s.nextId)
    ensures CounterOf(OnAccept(s), mine + [conn], k)
  {
    hide Serialize, Handshake, Updates;
  }

  lemma AcceptCounters(s: ServerState, mine: seq<Conn>)
    requires Filing(s) && Counters(s, mine)
    ensures var base := Counter(s.lastSeq, s.nextId);
            && Counters(OnAccept(s), mine + [Accepted(|s.sessions|, base)])
            && (|s.sessions| < U8 ==> base == 0) && base < U32
  {
    hide Serialize, CounterOf, Entry;
    var base, next := Counter(s.lastSeq, s.nextId), OnAccept(s);
    var conn := Accepted(|s.sessions|, base);
    AcceptShape(s);
    forall k | 0 <= k < |next.sessions| ensures CounterOf(next, mine + [conn], k) {
      if k < |s.sessions| {
        AcceptOldCounter(s, mine, conn, k);
      } else {
        AcceptCounter(s, mine, conn);
      }
    }
  }

  lemma AcceptBindings(s: ServerState)
    requires Bindings(s)
    ensures Bindings(OnAccept(s))
  {
    hide Serialize;
  }

  lemma ConnectWell(w: World)
    requires Well(w) && CanHappen(w, Connect)
    ensures Well(Next(w, Connect))
    ensures Next(w, Connect).server.db == w.server.db
  {
    hide ConnWell, OnAccept, Filing, Bindings, Counters, Durable;
    var s, next := w.server, Next(w, Connect);
    var h := s.db.history;
    AcceptShape(s);
    AcceptFiling(s);
    AcceptBindings(s);
    assert s.nextId < U8 && h != [] by { FilingNext(s); DurableParts(s.db); }
    AcceptCounters(s, Mine(w));
    AcceptConn(s, |s.sessions|, h);
    assert Sessions(next) == Sessions(w) + [OnAccept(s).sessions[|s.sessions|]];
    assert Mine(next) == Mine(w) + [Accepted(|s.sessions|, Counter(s.lastSeq, s.nextId))];
  }

  lemma AcceptShape(s: ServerState)
    ensures var next := OnAccept(s);
            && next.db == s.db && |next.sessions| == |s.sessions| + 1
            && next.sessions[..|s.sessions|] == s.sessions
  {
    hide Serialize;
  }

  lemma FilingNext(s: ServerState)
    requires Filing(s)
    ensures s.nextId < U8
  {
  }

  // ------------------------------------------------- steps within one connection

  lemma ConnAt(w: World, k: nat)
    requires Well(w) && k < |w.server.sessions|
    ensures |Mine(w)| == |w.server.sessions| && |w.past| + k < |w.conns|
    ensures w.conns[|w.past| + k] == Mine(w)[k] && Sessions(w)[|w.past| + k] == w.server.sessions[k]
    ensures ConnWell(w.server.sessions[k], Mine(w)[k], w.server.db.history)
  {
    hide ConnWell;
    assert w.conns[|w.past| + k] == Mine(w)[k] && Sessions(w)[|w.past| + k] == w.server.sessions[k];
  }

  lemma ReplaceSession(w: World, k: nat, v: SessionView)
    requires Well(w) && k < |w.server.sessions|
    requires Orderly(v) && w.server.sessions[k].wire <= v.wire && Framing.Framed(v.input)
    requires var u := w.server.sessions[k]; v.id == u.id && v.uuid == u.uuid && v.sent == u.sent
    ensures ConnsWell(w.past + w.server.sessions[k := v], w.conns, w.server.db.history)
  {
    hide ConnWell, Orderly, ServerWell, Framing.Framed;
    ConnAt(w, k);
    var h := w.server.db.history;
    Quiet(w.server.sessions[k], v, Mine(w)[k], h);
    MoveOne(Sessions(w), w.conns, h, h, |w.past| + k, v);
    PastUpdate(w.past, w.server.sessions, k, v);
  }

  lemma QuietCounters(s: ServerState, mine: seq<Conn>, next: ServerState)
    requires Counters(s, mine) && |next.sessions| == |s.sessions| && next.lastSeq == s.lastSeq
    requires forall k | 0 <= k < |s.sessions| ::
               next.sessions[k].sent == s.sessions[k].sent && next.sessions[k].id == s.sessions[k].id
    ensures Counters(next, mine)
  {
    hide CounterOf;
    forall k | 0 <= k < |next.sessions| ensures CounterOf(next, mine, k) {
      CounterSame(s, mine, k, next);
    }
  }

  // A session's step that neither sends nor disconnects.
  lemma QuietWell(w: World, k: nat, v: SessionView)
    requires Well(w) && k < |w.server.sessions|
    requires Orderly(v) && w.server.sessions[k].wire <= v.wire && Framing.Framed(v.input)
    requires var u := w.server.sessions[k];
             && v.id == u.id && v.uuid == u.uuid && v.sent == u.sent
             && v.reading == u.reading && v.failed == u.failed
    ensures Well(w.(server := w.server.(sessions := w.server.sessions[k := v])))
  {
    hide ConnsWell, Orderly, Filing, Bindings, Counters, Known, Durable;
    var s := w.server;
    var next := s.(sessions := s.sessions[k := v]);
    ReplaceSession(w, k, v);
    FilingKept(s, next);
    BindingsKept(s, next);
    QuietCounters(s, Mine(w), next);
  }

  // A session's step after which its disconnect callback runs.
  lemma DisconnectWell(w: World, k: nat, v: SessionView)
    requires Well(w) && k < |w.server.sessions|
    requires Orderly(v) && w.server.sessions[k].wire <= v.wire && Framing.Framed(v.input)
    requires var u := w.server.sessions[k];
             && v.id == u.id && v.uuid == u.uuid && v.sent == u.sent
             && !Live(v)
    ensures Well(w.(server := OnDisconnect(w.server.(sessions := w.server.sessions[k := v]), v.id)))
  {
    hide ConnsWell, Orderly, Filing, Bindings, Counters, Known, Durable;
    var s := w.server;
    var next := OnDisconnect(s.(sessions := s.sessions[k := v]), v.id);
    ReplaceSession(w, k, v);
    DisconnectFiling(s, k, v);
    BindingsKept(s, next);
    QuietCounters(s, Mine(w), next);
  }

  lemma DisconnectEntry(s: ServerState, k: nat, v: SessionView, id: nat)
    requires Ids(s) && k < |s.sessions| && v.id == s.sessions[k].id && id != v.id && Entry(s, id)
    ensures Entry(OnDisconnect(s.(sessions := s.sessions[k := v]), v.id), id)
  {
  }

  lemma DisconnectFirst(s: ServerState, k: nat, v: SessionView)
    requires Ids(s) && FirstFiled(s) && k < |s.sessions| && v.id == s.sessions[k].id && !Live(v)
    ensures FirstFiled(OnDisconnect(s.(sessions := s.sessions[k := v]), v.id))
  {
    var next := OnDisconnect(s.(sessions := s.sessions[k := v]), v.id);
    forall j | 0 <= j < |next.sessions| <= U8 && Live(next.sessions[j])
      ensures next.sessions[j].id in next.filed && next.filed[next.sessions[j].id] == Some(j)
    {
      assert next.sessions[j] == s.sessions[j];
      assert (j + 1) % U8 != (k + 1) % U8;
    }
  }

  lemma DisconnectFiling(s: ServerState, k: nat, v: SessionView)
    requires Filing(s) && k < |s.sessions| && v.id == s.sessions[k].id && !Live(v)
    ensures Filing(OnDisconnect(s.(sessions := s.sessions[k := v]), v.id))
  {
    hide Entry;
    var next := OnDisconnect(s.(sessions := s.sessions[k := v]), v.id);
    forall id | id in next.filed ensures Entry(next, id) {
      DisconnectEntry(s, k, v, id);
    }
    DisconnectFirst(s, k, v);
  }

  lemma QueueWell(w: World, k: nat, q: Step)
    requires Well(w) && CanHappen(w, Queue(k, q))
    ensures Well(Next(w, Queue(k, q)))
    ensures Next(w, Queue(k, q)).server.db == w.server.db
  {
    hide Well, Orderly, SentWell, Transported, ClientWell, Framing.Framed;
    var u := w.server.sessions[k];
    var v := WriteQueue.Apply(u, q);
    ConnAt(w, k);
    StepOrderly(u, q);
    StepKeeps(u, q);
    if q.Fail? {
      DisconnectWell(w, k, v);
    } else {
      QuietWell(w, k, v);
    }
  }

  lemma StepKeeps(u: SessionView, q: Step)
    requires WriteQueue.Enabled(u, q) && !q.Post?
    ensures var v := WriteQueue.Apply(u, q);
            && v.id == u.id && v.uuid == u.uuid && v.sent == u.sent && v.reading == u.reading && v.input == u.input
            && u.wire <= v.wire && v.failed == (u.failed || q.Fail?)
  {
  }

  // ----------------------------------------------------------------------- login

  lemma AuthenticateDurable(db: Db, payload: Json.Json, uuid: string, rehash: seq<string>)
    requires Durable(db) && Fresh(db.accounts, uuid) && Text.Ascii(uuid)
    requires Authenticate(db, payload, uuid, rehash).Some?
    requires Coherent(Authenticate(db, payload, uuid, rehash).value.0)
    ensures var (next, bound) := Authenticate(db, payload, uuid, rehash).value;
            && Durable(next) && db.history <= next.history && KnownKept(db.accounts, next.accounts)
            && Known(next.accounts, bound) && Text.Ascii(bound)
  {
    hide Saved, Sound;
    var user := StringAt(payload, "id").value;
    var (next, bound) := Authenticate(db, payload, uuid, rehash).value;
    if user in db.accounts {
      assert db.accounts[user].uuid == bound;
    } else {
      var pass := StringAt(payload, "password").value;
      RegisterParts(db, user, pass, uuid, rehash);
      SoundParts(db);
      AddUserSound(db, user, pass, uuid, rehash);
      GrowingSnoc(db.history, next.accounts);
    }
  }

  lemma RegisterParts(db: Db, user: string, pass: string, uuid: string, rehash: seq<string>)
    requires user !in db.accounts
    ensures var next := AddUser(db, user, pass, uuid, rehash).value;
            && next.accounts == db.accounts[user := Account(pass, uuid, NO_RESOURCES, map[])]
            && next.accounts.Keys == db.accounts.Keys + {user}
            && next.order == rehash && next.history == db.history + [next.accounts]
            && Grows(db.accounts, next.accounts) && KnownKept(db.accounts, next.accounts)
            && Known(next.accounts, uuid)
  {
    var next := AddUser(db, user, pass, uuid, rehash).value;
    assert next.accounts[user].uuid == uuid;
    forall other | Known(db.accounts, other) ensures Known(next.accounts, other) {
      var v :| v in db.accounts && db.accounts[v].uuid == other;
      assert v in next.accounts && next.accounts[v].uuid == other;
    }
  }

  lemma ConnsGrow(ss: seq<SessionView>, conns: seq<Conn>, h: seq<Table>, longer: seq<Table>)
    requires ConnsWell(ss, conns, h) && h <= longer
    ensures ConnsWell(ss, conns, longer)
  {
    hide SentWell, Transported, ClientWell, Orderly, Framing.Framed;
    forall i | 0 <= i < |conns|
      ensures ConnWell(ss[i], conns[i], longer)
    {
      HistoryGrew(ss[i].id, ss[i].uuid, ss[i].sent, conns[i].base, h, longer);
    }
  }

  // The handler reaches setUUID for an id that no session is filed under.
  lemma NullLoginWell(w: World, id: nat, db: Db)
    requires Well(w) && (id !in w.server.filed || w.server.filed[id].None?)
    requires Durable(db) && w.server.db.history <= db.history && KnownKept(w.server.db.accounts, db.accounts)
    ensures Well(w.(server := w.server.(db := db, filed := w.server.filed[id := None], ended := true)))
  {
    hide ConnWell, Known, Durable, CounterOf;
    var s, next := w.server, w.server.(db := db, filed := w.server.filed[id := None], ended := true);
    ConnsGrow(Sessions(w), w.conns, s.db.history, db.history);
    BindingsKept(s, next);
    QuietCounters(s, Mine(w), next);
  }

  lemma LoginSendable(uuid: string, sent: seq<Message>, base: nat, h: seq<Table>)
    requires Text.Ascii(uuid) && h != []
    ensures Sendable(LoginResult(uuid), sent, base, h) && UuidOf(LoginResult(uuid)) == uuid
    ensures LoginResult(uuid).kind == LOGIN_RESULT
  {
    hide Proper, UuidOf;
    LoginResultProper(uuid);
  }

  lemma BoundLoginWell(w: World, k: nat, db: Db, uuid: string)
    requires Well(w) && k < |w.server.sessions|
    requires Durable(db) && w.server.db.history <= db.history && KnownKept(w.server.db.accounts, db.accounts)
    requires Known(db.accounts, uuid) && Text.Ascii(uuid)
    ensures var v := WriteQueue.Apply(w.server.sessions[k].(uuid := uuid), Post(LoginResult(uuid)));
            Well(w.(server := w.server.(db := db, sessions := w.server.sessions[k := v])))
  {
    hide Serialize, LoginResult, ConnWell, Known, Durable, Filing, Bindings, Counters, Sendable;
    var s, u, m := w.server, w.server.sessions[k], LoginResult(uuid);
    var v := WriteQueue.Apply(u.(uuid := uuid), Post(m));
    var next := s.(db := db, sessions := s.sessions[k := v]);
    ConnAt(w, k);
    DurableParts(db);
    LoginSendable(uuid, u.sent, Mine(w)[k].base, db.history);
    Sends(u, uuid, m, Mine(w)[k], s.db.history, db.history);
    MoveOne(Sessions(w), w.conns, s.db.history, db.history, |w.past| + k, v);
    PastUpdate(w.past, s.sessions, k, v);
    FilingKept(s, next);
    BindingsKept(s, next);
    LoginCounters(s, Mine(w), k, m, next);
  }

  lemma LoginCounters(s: ServerState, mine: seq<Conn>, k: nat, m: Message, next: ServerState)
    requires Counters(s, mine) && k < |s.sessions| == |next.sessions| && m.kind != RESOURCE_UPDATE
    requires next.lastSeq == s.lastSeq && next.sessions[k].sent == s.sessions[k].sent + [m]
    requires next.sessions[k].id == s.sessions[k].id
    requires forall i | 0 <= i < |s.sessions| && i != k :: next.sessions[i] == s.sessions[i]
    ensures Counters(next, mine)
  {
    hide Counter;
    Filter.Snoc(s.sessions[k].sent, m, RESOURCE_UPDATE);
    assert Updates(next.sessions[k]) == Updates(s.sessions[k]);
    forall i | 0 <= i < |next.sessions| ensures CounterOf(next, mine, i) {
      assert CounterOf(s, mine, i);
    }
  }

  lemma LoginWell(w: World, id: nat, payload: Json.Json, uuid: string, rehash: seq<string>)
    requires Well(w) && WellFormed(w.server) && Fresh(w.server.db.accounts, uuid) && Text.Ascii(uuid)
    requires Coherent(OnLogin(w.server, id, payload, uuid, rehash).db)
    ensures Well(w.(server := OnLogin(w.server, id, payload, uuid, rehash)))
    ensures w.server.db.history <= OnLogin(w.server, id, payload, uuid, rehash).db.history
  {
    hide Serialize, LoginResult, Authenticate, ConnsWell, Known, Durable, Filing, Bindings, Counters;
    var s := w.server;
    var auth := Authenticate(s.db, payload, uuid, rehash);
    if auth.Some? {
      AuthenticateDurable(s.db, payload, uuid, rehash);
      if id !in s.filed || s.filed[id].None? {
        NullLoginWell(w, id, auth.value.0);
      } else {
        var k, uuid := s.filed[id].value, auth.value.1;
        BoundLoginWell(w, k, auth.value.0, uuid);
        var bound := s.sessions[k := s.sessions[k].(uuid := uuid)];
        var v := WriteQueue.Apply(bound[k], Post(LoginResult(uuid)));
        assert bound[k := v] == s.sessions[k := v];
      }
    }
  }

  lemma LineWell(w: World, k: nat, a: nat, b: nat, rehash: seq<string>)
    requires Well(w) && CanHappen(w, ServerLine(k, a, b, rehash))
    ensures Well(Next(w, ServerLine(k, a, b, rehash)))
    ensures w.server.db.history <= Next(w, ServerLine(k, a, b, rehash)).server.db.history
  {
    hide Well, Orderly, SentWell, Transported, ClientWell, Framing.Framed, Parse, OnLogin;
    var s, v := w.server, w.server.sessions[k];
    var taken := v.(input := Framing.Do(v.input, Framing.Take));
    var mid := w.(server := s.(sessions := s.sessions[k := taken]));
    ConnAt(w, k);
    assert Orderly(taken) by { InputAside(v, taken.input); }
    Framing.DoFramed(v.input, Framing.Take);
    QuietWell(w, k, taken);
    WellFormedOf(mid);
    var m := Parse(Framing.StripCr(Framing.FirstLine(v.input.buffer)));
    if m.Some? && m.value.kind == LOGIN_REQUEST {
      Uuid.FormatOnWire(a, b);
      LoginWell(mid, v.id, m.value.payload, Uuid.Format(a, b), rehash);
    }
  }

  lemma InputAside(v: SessionView, input: Framing.Input)
    requires Orderly(v)
    ensures Orderly(v.(input := input))
  {
    hide Serialize;
  }

  // --------------------------------------------------------------------- clients

  lemma ClientWellStep(w: World, c: nat, conn: Conn)
    requires Well(w) && c < |w.conns|
    requires conn.serial == w.conns[c].serial && conn.base == w.conns[c].base
    requires ConnWell(Sessions(w)[c], conn, w.server.db.history)
    ensures Well(w.(conns := w.conns[c := conn]))
  {
    hide ConnWell, CounterOf;
    var next := w.(conns := w.conns[c := conn]);
    MoveClient(Sessions(w), w.conns, w.server.db.history, c, conn);
    assert |Mine(next)| == |Mine(w)|;
    forall k | 0 <= k < |w.server.sessions| ensures CounterOf(w.server, Mine(next), k) {
      CounterBase(w.server, Mine(w), Mine(next), k);
    }
  }

  lemma CounterBase(s: ServerState, mine: seq<Conn>, next: seq<Conn>, k: nat)
    requires CounterOf(s, mine, k) && |next| == |mine|
    requires forall i | 0 <= i < |mine| :: next[i].base == mine[i].base
    ensures CounterOf(s, next, k)
  {
  }

  lemma ArriveClient(v: SessionView, conn: Conn, h: seq<Table>, n: nat)
    requires ConnWell(v, conn, h) && |conn.client.input.received| + n <= |v.wire|
    ensures var from := |conn.client.input.received|;
            ConnWell(v, conn.(client := Arrive(conn.client, v.wire[from..from + n])), h)
  {
    hide SentWell, Orderly, Transported, ClientWell, Framing.Framed;
    var from := |conn.client.input.received|;
    Framing.DoFramed(conn.client.input, Framing.Receive(v.wire[from..from + n]));
    BytesArrive(v, conn.client, conn.polled, n);
    ArrivalUnseen(conn, v.id, v.wire[from..from + n]);
  }

  lemma ArrivalUnseen(conn: Conn, id: nat, chunk: string)
    requires ClientWell(conn, id)
    ensures ClientWell(conn.(client := Arrive(conn.client, chunk)), id)
  {
    hide Visible, Proper, UuidOf;
  }

  lemma LineClient(v: SessionView, conn: Conn, h: seq<Table>)
    requires ConnWell(v, conn, h) && Framing.HasLine(conn.client.input.buffer)
    ensures ConnWell(v, conn.(client := TakeLine(conn.client)), h)
  {
    hide Orderly, Parse, Stamped, Transported, Visible, Framing.Framed;
    Framing.DoFramed(conn.client.input, Framing.Take);
    LineTaken(v, conn.client, conn.polled);
  }

  lemma PollClient(v: SessionView, conn: Conn, h: seq<Table>)
    requires ConnWell(v, conn, h) && conn.client.queue != []
    ensures ConnWell(v, Polled(conn), h)
  {
    hide Orderly, Stamped, Proper, ClientWell, Serialize, Framing.Framed;
    var c, m := conn.client, conn.client.queue[0];
    assert (conn.polled + c.queue)[|conn.polled|] == m == v.sent[|conn.polled|];
    PolledWell(conn, v.id);
    PollQueue(c);
    assert conn.polled + [m] + c.queue[1..] == conn.polled + c.queue;
  }

  lemma PollQueue(c: ClientState)
    requires c.queue != []
    ensures Poll(c).queue == c.queue[1..] && Poll(c).input == c.input
  {
  }

  lemma FrameClient(v: SessionView, conn: Conn, h: seq<Table>)
    requires ConnWell(v, conn, h)
    ensures ConnWell(v, conn.(client := EndFrame(conn.client)), h)
  {
    hide Orderly, SentWell, Visible, Framing.Framed;
  }

  lemma ConnOf(w: World, c: nat)
    requires Well(w) && c < |w.conns|
    ensures |Sessions(w)| == |w.conns| && ConnWell(Sessions(w)[c], w.conns[c], w.server.db.history)
  {
    hide ConnWell;
  }

  lemma ClientEventWell(w: World, e: Event)
    requires Well(w) && CanHappen(w, e) && (e.ClientRead? || e.ClientLine? || e.ClientPoll? || e.ClientFrame?)
    ensures Well(Next(w, e)) && Next(w, e).server == w.server
  {
    hide Well, ConnWell, TakeLine, Poll, EndFrame, Arrive;
    var c := e.c;
    ConnOf(w, c);
    var conn, v, h := w.conns[c], Sessions(w)[c], w.server.db.history;
    match e {
      case ClientRead(_, n) =>
        ArriveClient(v, conn, h, n);
        var from := |conn.client.input.received|;
        ClientWellStep(w, c, conn.(client := Arrive(conn.client, v.wire[from..from + n])));
      case ClientLine(_) =>
        LineClient(v, conn, h);
        ClientWellStep(w, c, conn.(client := TakeLine(conn.client)));
      case ClientPoll(_) =>
        PollClient(v, conn, h);
        ClientWellStep(w, c, Polled(conn));
      case ClientFrame(_) =>
        FrameClient(v, conn, h);
        ClientWellStep(w, c, conn.(client := EndFrame(conn.client)));
    }
  }

  // ------------------------------------------------------------------ every event

  lemma ReadWell(w: World, k: nat, chunk: string)
    requires Well(w) && CanHappen(w, ServerRead(k, chunk))
    ensures Well(Next(w, ServerRead(k, chunk)))
  {
    hide Well, Orderly, SentWell, Transported, ClientWell, Framing.Framed;
    var v := w.server.sessions[k];
    ConnAt(w, k);
    InputAside(v, Framing.Do(v.input, Framing.Receive(chunk)));
    Framing.DoFramed(v.input, Framing.Receive(chunk));
    QuietWell(w, k, v.(input := Framing.Do(v.input, Framing.Receive(chunk))));
  }

  lemma EofWell(w: World, k: nat)
    requires Well(w) && CanHappen(w, ServerEof(k))
    ensures Well(Next(w, ServerEof(k)))
  {
    hide Well, Orderly, SentWell, Transported, ClientWell, Framing.Framed;
    var v := w.server.sessions[k];
    ConnAt(w, k);
    ReadingAside(v);
    DisconnectWell(w, k, v.(reading := false));
  }

  lemma ReadingAside(v: SessionView)
    requires Orderly(v)
    ensures Orderly(v.(reading := false))
  {
    hide Serialize;
  }

  lemma EventWell(w: World, e: Event)
    requires Well(w) && CanHappen(w, e)
    ensures Well(Next(w, e)) && w.server.db.history <= Next(w, e).server.db.history
  {
    hide Well;
    match e
    case Connect => ConnectWell(w);
    case ServerRead(k, chunk) => ReadWell(w, k, chunk);
    case ServerLine(k, a, b, rehash) => LineWell(w, k, a, b, rehash);
    case ServerEof(k) => EofWell(w, k);
    case Queue(k, q) => QueueWell(w, k, q);
    case TickAll(order) => TickWell(w, order);
    case Halt(order, leftover) =>
      TickWell(w, order);
      CrashWell(w.(server := Tick(w.server, order)), leftover);
    case Restart(users) => RestartWell(w, users);
    case ClientRead(_, _) => ClientEventWell(w, e);
    case ClientLine(_) => ClientEventWell(w, e);
    case ClientPoll(_) => ClientEventWell(w, e);
    case ClientFrame(_) => ClientEventWell(w, e);
  }

  lemma InitWell(w: World)
    requires Init(w)
    ensures Well(w)
  {
    assert Sessions(w) == [] && Mine(w) == [];
  }

  lemma {:induction false} BehaviorWell(ws: seq<World>, es: seq<Event>, i: nat)
    requires Behavior(ws, es) && i < |ws|
    ensures Well(ws[i])
  {
    hide Well, CanHappen, Next;
    if i == 0 {
      InitWell(ws[0]);
    } else {
      BehaviorWell(ws, es, i - 1);
      EventWell(ws[i - 1], es[i - 1]);
    }
  }

  lemma ReachableWell(w: World)
    requires Reachable(w)
    ensures Well(w)
  {
    hide Well, CanHappen, Next;
    var ws, es :| Behavior(ws, es) && ws[|ws| - 1] == w;
    BehaviorWell(ws, es, |ws| - 1);
  }
}
