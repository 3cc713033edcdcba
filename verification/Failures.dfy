// Runs of the system that show where its guarantees end. None has a crash.
module Failures {
  import opened Prelude
  import opened Protocol
  import opened WriteQueue
  import opened ServerSpec
  import opened ClientSpec
  import opened Accounts
  import opened Connections
  import opened Worlds
  import opened Invariant
  import opened Preservation
  import opened Runs
  import Filter
  import Framing
  import Text
  import Theorems
  import Ticks
  import Uuid

  // ------------------------------------------------------ a login ends the process

  // A session that is still read from, but whose id nobody is filed under.
  ghost predicate Orphan(s: ServerState, k: nat) {
    && WellFormed(s) && !s.ended && k < |s.sessions|
    && s.sessions[k].reading && s.sessions[k].input.buffer == "" && s.sessions[k].id !in s.filed
  }

  // A registration line on an orphan session adds the account and makes a null entry.
  lemma OrphanRegisters(s: ServerState, k: nat, user: string, password: string, drawn: string, rehash: seq<string>)
    requires WellFormed(s) && !s.ended && k < |s.sessions| && s.sessions[k].id !in s.filed
    requires s.sessions[k].input.buffer == Serialize(LoginRequest(user, password))
    requires Text.Ascii(user) && Text.Ascii(password) && user !in s.db.accounts
    ensures Framing.HasLine(s.sessions[k].input.buffer)
    ensures OnLine(s, k, drawn, rehash).ended
    ensures OnLine(s, k, drawn, rehash).db == AddUser(s.db, user, password, drawn, rehash).value
  {
    hide Serialize, Parse, LoginRequest;
    var m := LoginRequest(user, password);
    LoginRequestContents(user, password);
    Framing.MessageFirst(m, "");
    assert Serialize(m) + "" == Serialize(m);
  }

  // Wherever there is one, a single registration read from it ends the process,
  // with the account registered all the same.
  lemma RegistrationEnds(w: World, k: nat, user: string, password: string, a: nat, b: nat, rehash: seq<string>)
    requires Orphan(w.server, k) && Text.Ascii(user) && Text.Ascii(password) && user !in w.server.db.accounts
    requires a < U64 && b < U64 && Fresh(w.server.db.accounts, Uuid.Format(a, b))
    requires IsOrder(rehash, w.server.db.accounts.Keys + {user})
    ensures var read, line := ServerRead(k, Serialize(LoginRequest(user, password))), ServerLine(k, a, b, rehash);
            && CanHappen(w, read) && CanHappen(Next(w, read), line)
            && Next(Next(w, read), line).server.ended
            && Next(Next(w, read), line).server.db.accounts
               == w.server.db.accounts[user := Account(password, Uuid.Format(a, b), NO_RESOURCES, map[])]
  {
    hide Serialize, Uuid.Format, LoginRequest, OnLine;
    var s, drawn := w.server, Uuid.Format(a, b);
    var text := Serialize(LoginRequest(user, password));
    assert "" + text == text;
    OrphanRegisters(ReadSome(s, k, text), k, user, password, drawn, rehash);
    var added := AddUser(s.db, user, password, drawn, rehash).value;
    assert added.accounts.Keys == s.db.accounts.Keys + {user};
  }

  // One client connects, and the write of its handshake fails.
  lemma FailedWriteOrphans()
    ensures exists a, b, c ::
              && CanHappen(FIRST, Connect) && a == Next(FIRST, Connect)
              && CanHappen(a, Queue(0, RunTask)) && b == Next(a, Queue(0, RunTask))
              && CanHappen(b, Queue(0, Fail)) && c == Next(b, Queue(0, Fail))
              && Orphan(c.server, 0) && c.server.db == EMPTY_DB
  {
    hide Serialize;
    var a := Next(FIRST, Connect);
    assert a.server.sessions[0].tasks == [Serialize(Handshake(1))];
    var b := Next(a, Queue(0, RunTask));
    assert b.server.sessions[0].inFlight == 1;
    var c := Next(b, Queue(0, Fail));
    assert Orphan(c.server, 0);
  }

  // From an empty database, without a crash: connect, a failed write, and a
  // login on the same session end the process.
  lemma NullLoginRun()
    ensures exists ws: seq<World>, es: seq<Event> ::
              && Behavior(ws, es) && (forall e | e in es :: !e.Halt?) && ws[|ws| - 1].server.ended
  {
    hide CanHappen, Next, Init, Serialize, Orphan, Uuid.Format;
    FirstIsInitial();
    FailedWriteOrphans();
    var a, b, c :|
      && CanHappen(FIRST, Connect) && a == Next(FIRST, Connect)
      && CanHappen(a, Queue(0, RunTask)) && b == Next(a, Queue(0, RunTask))
      && CanHappen(b, Queue(0, Fail)) && c == Next(b, Queue(0, Fail))
      && Orphan(c.server, 0) && c.server.db == EMPTY_DB;
    assert Text.Ascii("u") && Text.Ascii("p");
    RegistrationEnds(c, 0, "u", "p", 0, 0, ["u"]);
    var read, line := ServerRead(0, Serialize(LoginRequest("u", "p"))), ServerLine(0, 0, 0, ["u"]);
    var d := Next(c, read);
    var ws := [FIRST, a, b, c, d, Next(d, line)];
    var es := [Connect, Queue(0, RunTask), Queue(0, Fail), read, line];
    assert Behavior(ws, es);
  }

  // ------------------------------------------- the client and its session disagree

  lemma TwoLogins(h: Message, l: Message, m: Message)
    requires h.kind != LOGIN_RESULT && l.kind == LOGIN_RESULT && m.kind == LOGIN_RESULT
    ensures var ms := [h] + [l] + [m];
            FirstLogin(ms) == UuidOf(l) && LastLogin(ms) == UuidOf(m) && LoginsSeen(ms) == 1
  {
    hide UuidOf;
    Filter.Snoc([], h, LOGIN_RESULT);
    Filter.Snoc([h], l, LOGIN_RESULT);
    Filter.Snoc([h] + [l], m, LOGIN_RESULT);
    assert [] + [h] == [h];
  }

  // One connection registers two names, one after the other.
  lemma LogsInTwice() returns (w: World, first: string, second: string)
    ensures Reachable(w) && w.past == [] && Open(w, 0)
    ensures first != second && first != "" && second != "" && w.server.sessions[0].uuid == second
    ensures w.server.sessions[0].sent == [Handshake(1)] + [LoginResult(first)] + [LoginResult(second)]
  {
    hide Reachable, Handshake, LoginResult, Uuid.Format;
    var a: World;
    a, first := FirstLogsIn();
    second := Uuid.Format(0, 1);
    Uuid.FormatInjective(0, 0, 0, 1);
    Uuid.FormatOnWire(0, 1);
    assert Text.Ascii("v") && Text.Ascii("p");
    w := LogIn(a, 0, 0, "v", "p", 0, 1, ["u", "v"], second);
  }

  // The client goes by the first result, the session by the last.
  lemma IdentitiesPart()
    ensures exists w: World, c: nat ::
              && Reachable(w) && w.past == [] && !w.server.ended && c < |w.conns| == |w.server.sessions|
              && w.conns[c].polled == w.server.sessions[c].sent
              && w.conns[c].client.uuid != "" && w.server.sessions[c].uuid != ""
              && w.conns[c].client.uuid != w.server.sessions[c].uuid
  {
    hide Reachable, Handshake, LoginResult, UuidOf;
    var w, first, second := LogsInTwice();
    var u := Receive(w, 0);
    Kinds(1, first);
    Kinds(1, second);
    TwoLogins(Handshake(1), LoginResult(first), LoginResult(second));
    Theorems.ClientIdentity(u, 0);
    assert Sessions(u) == u.server.sessions;
    assert u.conns[0].client.uuid == first && u.server.sessions[0].uuid == second;
  }

  // ----------------------------------------------------- an update is never shown

  // The first client polls its login result and an update in the same frame.
  lemma FirstReceivesOne() returns (u: World, m: Message, uuid: string)
    ensures Reachable(u) && u.past == [] && !u.server.ended && |u.conns| == |u.server.sessions| == 1
    ensures uuid != "" && u.conns[0].client.scene == Login && u.conns[0].base == 0
    ensures u.conns[0].polled == u.server.sessions[0].sent == [Handshake(1)] + [LoginResult(uuid)] + [m]
    ensures m == ResourceUpdate(uuid, 1, Resources(10, 10, 10))
  {
    hide Reachable, Handshake, LoginResult, Uuid.Format, ResourceUpdate, CanHappen, Next;
    var w: World;
    w, uuid := FirstLogsIn();
    var t: World;
    t, m := TickOnce(w, 0, "u");
    u := Receive(t, 0);
  }

  // A client's own update passes its filter, adds to what it has, and is not shown.
  lemma UpdateNeverShown()
    ensures exists w: World, c: nat, m: Message ::
              && Reachable(w) && w.past == [] && !w.server.ended && c < |w.conns|
              && Filter.OfKind(RESOURCE_UPDATE, w.conns[c].passed) == [m]
              && UuidOf(m) == w.conns[c].client.uuid != "" && ResourcesOf(m) == Resources(10, 10, 10)
              && w.conns[c].client.resources == NO_RESOURCES
  {
    hide Reachable, Handshake, LoginResult, UuidOf, ResourcesOf, Visible, ResourceUpdate, Filter.Window;
    var w, m, uuid := FirstReceivesOne();
    var conn := w.conns[0];
    Kinds(1, uuid);
    ResourceUpdateContents(uuid, 1, Resources(10, 10, 10));
    assert m.kind == RESOURCE_UPDATE by { UpdateKind(uuid, 1, Resources(10, 10, 10)); }
    OneUpdate(Handshake(1), LoginResult(uuid), m);
    Theorems.Delivery(w, 0);
    Theorems.ClientIdentity(w, 0);
    assert Sessions(w) == w.server.sessions;
    Theorems.ShowsLatestOwnUpdate(w, 0);
    NothingVisible(conn.polled, conn.client.uuid);
  }

  lemma UpdateKind(uuid: string, sequence: nat, r: Resources)
    ensures ResourceUpdate(uuid, sequence, r).kind == RESOURCE_UPDATE
  {
  }

  // ------------------------------------------------------------ the numbers run out

  // After 2^32 ticks the client has received as many updates, and its filter
  // has not passed the last: it is at 2^32 - 1, and nothing passes any more.
  lemma NumbersRunOut()
    ensures exists w: World, c: nat ::
              && Reachable(w) && w.past == [] && !w.server.ended && c < |w.conns|
              && w.conns[c].serial == c == 0 && w.conns[c].base == 0
              && |Filter.OfKind(RESOURCE_UPDATE, w.conns[c].polled)| == U32
              && |Filter.OfKind(RESOURCE_UPDATE, w.conns[c].passed)| == U32 - 1
              && Filter.LastOf(w.conns[c].client.lastSeq, RESOURCE_UPDATE) == U32 - 1
  {
    hide Reachable, Handshake, LoginResult, Filter.OfKind, Well, ClientWell;
    var a, uuid := FirstLogsIn();
    Kinds(1, uuid);
    assert Updates(a.server.sessions[0]) == 0 by { NoUpdate(Handshake(1), LoginResult(uuid)); }
    var t := TickMany(a, 0, "u", U32);
    var u := Receive(t, 0);
    Theorems.Delivery(u, 0);
    assert Sessions(u) == u.server.sessions;
    assert Filter.Skipped(0) == 0 && Filter.Through(U32, 0) == U32 - 1;
    FilterAtEnd(u, 0);
    assert |Filter.OfKind(RESOURCE_UPDATE, u.conns[0].polled)| == U32;
    assert |Filter.OfKind(RESOURCE_UPDATE, u.conns[0].passed)| == U32 - 1;
  }

  lemma FilterParts(v: SessionView, conn: Conn, h: seq<Table>)
    requires ConnWell(v, conn, h)
    ensures conn.polled <= v.sent && conn.client.lastSeq == Filter.After(conn.polled)
    ensures Filter.Numbered(Filter.OfKind(RESOURCE_UPDATE, v.sent), conn.base)
  {
    hide Orderly, Opening, Stamped, Visible, Filter.OfKind, Filter.Numbered, LastLogin, Filter.LastOf;
  }

  lemma FilterAtEnd(w: World, c: nat)
    requires Reachable(w) && c < |w.conns| && w.conns[c].base == 0
    requires |Filter.OfKind(RESOURCE_UPDATE, w.conns[c].polled)| == U32
    ensures Filter.LastOf(w.conns[c].client.lastSeq, RESOURCE_UPDATE) == U32 - 1
  {
    hide Reachable, Well, ConnWell, Filter.OfKind, Filter.Numbered, Filter.LastOf;
    ReachableWell(w);
    ConnOf(w, c);
    var sent, polled := Sessions(w)[c].sent, w.conns[c].polled;
    FilterParts(Sessions(w)[c], w.conns[c], w.server.db.history);
    var rest := sent[|polled|..];
    assert sent == polled + rest;
    Filter.OfKindAppend(RESOURCE_UPDATE, polled, rest);
    Theorems.NumberedPrefix(Filter.OfKind(RESOURCE_UPDATE, polled), Filter.OfKind(RESOURCE_UPDATE, rest), 0);
    Filter.RunsOutIff(polled, RESOURCE_UPDATE, 0);
  }

  lemma NoUpdate(h: Message, l: Message)
    requires h.kind != RESOURCE_UPDATE && l.kind != RESOURCE_UPDATE
    ensures Filter.OfKind(RESOURCE_UPDATE, [h] + [l]) == []
  {
    Filter.Snoc([], h, RESOURCE_UPDATE);
    Filter.Snoc([h], l, RESOURCE_UPDATE);
    assert [] + [h] == [h];
  }

  // ------------------------------------------------------------- a grant wraps

  lemma FullAccount()
    ensures Ticks.Repeat10(NO_RESOURCES, (U64 - 6) / 10) == Resources(U64 - 6, U64 - 6, U64 - 6)
    ensures Plus10(Resources(U64 - 6, U64 - 6, U64 - 6)) == Resources(4, 4, 4)
  {
    assert 10 * ((U64 - 6) / 10) == U64 - 6;
  }

  // One tick leaves the only account of the file with less than it had.
  lemma ResourcesShrink()
    ensures exists w: World, order: seq<nat> ::
              && Reachable(w) && w.past == [] && CanHappen(w, TickAll(order))
              && w.server.db.accounts.Keys == Next(w, TickAll(order)).server.db.accounts.Keys == {"u"}
              && w.server.db.accounts["u"].resources.wood == U64 - 6
              && Next(w, TickAll(order)).server.db.accounts["u"].resources == Resources(4, 4, 4)
  {
    hide Reachable, CanHappen, Next, Handshake, LoginResult, Counter, ResourceUpdate, Plus10, Ticks.Repeat10, Open;
    var a, uuid := FirstLogsIn();
    FullAccount();
    var w := TickMany(a, 0, "u", (U64 - 6) / 10);
    var u, m := TickOnce(w, 0, "u");
    var order :| CanHappen(w, TickAll(order)) && u == Next(w, TickAll(order));
    assert u.server.db.accounts["u"].resources == Resources(4, 4, 4);
  }

  // ------------------------------------------------- the second session of an id

  // The first client stays, and 256 more connect. The last has the first one's id.
  lemma SecondOfItsId() returns (w: World, uuid: string)
    ensures Reachable(w) && w.past == [] && Open(w, 256) && |w.conns| == |w.server.sessions| == 257
    ensures Reading(w.server, 0) && w.server.sessions[0].id == w.server.sessions[256].id == 1
    ensures w.server.sessions[256].sent == [Handshake(1)] && w.server.sessions[256].uuid == ""
    ensures w.conns[256].base == 1 && w.server.db.accounts.Keys == {"u"}
    ensures w.server.db.accounts["u"].password == "p" && w.server.db.accounts["u"].uuid == uuid
    ensures uuid == Uuid.Format(0, 0) != "" && w.server.sessions[0].uuid == uuid
  {
    hide Reachable, Handshake, LoginResult, Uuid.Format, Plus10, CanHappen, Next;
    var a: World;
    a, uuid := FirstLogsIn();
    var t, m := TickOnce(a, 0, "u");
    assert Counter(t.server.lastSeq, 1) == 1;
    w := ConnectMany(t, 256);
    assert w.server.sessions[0] == t.server.sessions[0];
    UnboundAtFirst(w, 256);
  }

  lemma UnboundAtFirst(w: World, k: nat)
    requires Reachable(w) && k < |w.server.sessions|
    requires w.server.sessions[k].sent == [Handshake(w.server.sessions[k].id)]
    ensures w.server.sessions[k].uuid == ""
  {
    hide Reachable, Well, Orderly, Transported, ClientWell, Proper, Stamped;
    ReachableWell(w);
    ConnAt(w, k);
    var v := w.server.sessions[k];
    assert v.uuid == LastLogin(v.sent);
    assert v.sent[..0] == [] && v.sent[0].kind == ASSIGN_CLIENT_ID && LastLogin([]) == "";
  }

  // It logs in, is sent one update, and receives it.
  lemma SecondReceivesOne() returns (u: World)
    ensures Reachable(u) && u.past == [] && !u.server.ended && |u.conns| == 257 == |u.server.sessions|
    ensures u.server.sessions[256].uuid != "" && u.conns[256].polled == u.server.sessions[256].sent
    ensures |Filter.OfKind(RESOURCE_UPDATE, u.conns[256].polled)| == 1 && u.conns[256].base == 1
  {
    hide Reachable, Filter.OfKind, Handshake, LoginResult, Uuid.Format, Plus10, ResourceUpdate, Counter, CanHappen,
         Next;
    var d, uuid := SecondOfItsId();
    Uuid.FormatInjective(0, 0, 0, 1);
    assert Text.Ascii("u") && Text.Ascii("p");
    var e := LogIn(d, 256, 256, "u", "p", 0, 1, [], uuid);
    var g, m := TickOnce(e, 256, "u");
    u := Receive(g, 256);
    Kinds(1, uuid);
    assert m.kind == RESOURCE_UPDATE by {
      UpdateKind(uuid, (Counter(e.server.lastSeq, 1) + 1) % U32, Plus10(e.server.db.accounts["u"].resources));
    }
    OneUpdate(Handshake(1), LoginResult(uuid), m);
  }

  lemma NonePasses(all: seq<Message>, passed: seq<Message>)
    requires Filter.Window(all, passed, 1) && |all| == 1
    ensures passed == []
  {
  }

  // In a first process that never ended, a connection is logged in, has been
  // sent and has received an update, and its filter has passed none.
  lemma UpdateFilteredAway()
    ensures exists w: World, c: nat ::
              && Reachable(w) && w.past == [] && !w.server.ended && c < |w.conns| == |w.server.sessions|
              && w.server.sessions[c].uuid != ""
              && w.conns[c].polled == w.server.sessions[c].sent
              && |Filter.OfKind(RESOURCE_UPDATE, w.conns[c].polled)| == 1
              && Filter.OfKind(RESOURCE_UPDATE, w.conns[c].passed) == []
  {
    hide Reachable, Filter.OfKind, Filter.Window;
    var u := SecondReceivesOne();
    Theorems.Delivery(u, 256);
    NonePasses(Filter.OfKind(RESOURCE_UPDATE, u.conns[256].polled),
               Filter.OfKind(RESOURCE_UPDATE, u.conns[256].passed));
  }

  // The first session comes to its end of file, and another, live session is
  // no longer filed.
  lemma OtherSessionUnfiled()
    ensures exists w: World, k: nat, other: nat ::
              && Reachable(w) && w.past == [] && CanHappen(w, ServerEof(k))
              && other < |w.server.sessions| && other != k && Open(w, other)
              && var next := Next(w, ServerEof(k)).server;
                 && next.sessions[other] == w.server.sessions[other] && !next.ended
                 && next.sessions[other].id !in next.filed
  {
    hide Reachable, Handshake;
    var w, uuid := SecondOfItsId();
    assert CanHappen(w, ServerEof(0));
  }

  // A login read from the first session binds and answers another one.
  lemma OtherSessionBound()
    ensures exists w: World, u: World, k: nat, other: nat ::
              && Reachable(w) && Reachable(u) && w.past == u.past == [] && !u.server.ended
              && k < |w.server.sessions| == |u.server.sessions| && other < |w.server.sessions| && other != k
              && u.server.sessions[k].sent == w.server.sessions[k].sent
              && w.server.sessions[other].uuid == "" && u.server.sessions[other].uuid != ""
              && u.server.sessions[other].sent
                 == w.server.sessions[other].sent + [LoginResult(u.server.sessions[other].uuid)]
  {
    hide Reachable, Handshake, LoginResult, Uuid.Format;
    var w, uuid := SecondOfItsId();
    Uuid.FormatInjective(0, 0, 0, 1);
    assert Text.Ascii("u") && Text.Ascii("p");
    var u := LogIn(w, 0, 256, "u", "p", 0, 1, [], uuid);
  }
}
