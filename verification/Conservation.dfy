// Nothing is granted untold and nothing told ungranted: over every run, restarts
// included, an account holds what it started with plus ten of everything for
// each update ever sent for its uuid.
module Conservation {
  import opened Protocol
  import opened WriteQueue
  import opened ServerSpec
  import opened Accounts
  import opened Connections
  import opened Ticks
  import opened Worlds
  import opened Invariant
  import opened Preservation
  import ClientSpec
  import Framing
  import Json
  import Theorems
  import Uuid

  // -------------------------------------------------------------------- the books

  predicate IsFor(m: Message, uuid: string) {
    m.kind == RESOURCE_UPDATE && UuidOf(m) == uuid
  }

  // How many of the messages are updates for a uuid.
  function Count(ms: seq<Message>, uuid: string): nat {
    if ms == [] then 0 else Count(ms[..|ms| - 1], uuid) + (if IsFor(ms[|ms| - 1], uuid) then 1 else 0)
  }

  // How many updates for it the sessions were ever given to send.
  function Total(ss: seq<SessionView>, uuid: string): nat {
    if ss == [] then 0 else Total(ss[..|ss| - 1], uuid) + Count(ss[|ss| - 1].sent, uuid)
  }

  // What an account had in the first table, or when it was registered.
  function Origin(h: seq<Table>, u: string): Resources {
    if h != [] && u in h[0] then h[0][u].resources else NO_RESOURCES
  }

  predicate Balanced(db: Db, ss: seq<SessionView>, u: string)
    requires u in db.accounts
  {
    var a := db.accounts[u];
    a.uuid != "" ==> a.resources == Repeat10(Origin(db.history, u), Total(ss, a.uuid))
  }

  predicate Booked(w: World) {
    forall u | u in w.server.db.accounts :: Balanced(w.server.db, Sessions(w), u)
  }

  // --------------------------------------------------------------------- counting

  lemma CountSnoc(ms: seq<Message>, m: Message, uuid: string)
    ensures Count(ms + [m], uuid) == Count(ms, uuid) + (if IsFor(m, uuid) then 1 else 0)
  {
    hide IsFor;
    assert (ms + [m])[..|ms|] == ms;
  }

  lemma {:induction false} CountNone(ms: seq<Message>, uuid: string)
    requires forall i | 0 <= i < |ms| :: !IsFor(ms[i], uuid)
    ensures Count(ms, uuid) == 0
  {
    hide IsFor;
    if ms != [] {
      CountNone(ms[..|ms| - 1], uuid);
    }
  }

  lemma TotalSnoc(ss: seq<SessionView>, v: SessionView, uuid: string)
    ensures Total(ss + [v], uuid) == Total(ss, uuid) + Count(v.sent, uuid)
  {
    hide Count;
    assert (ss + [v])[..|ss|] == ss;
  }

  lemma {:induction false} TotalSame(ss: seq<SessionView>, next: seq<SessionView>, uuid: string)
    requires |ss| == |next| && forall i | 0 <= i < |ss| :: next[i].sent == ss[i].sent
    ensures Total(next, uuid) == Total(ss, uuid)
  {
    hide Count;
    if ss != [] {
      TotalSame(ss[..|ss| - 1], next[..|ss| - 1], uuid);
    }
  }

  // One session is given one more message.
  lemma {:induction false} TotalSend(ss: seq<SessionView>, next: seq<SessionView>, k: nat, m: Message, uuid: string)
    requires k < |ss| == |next| && next[k].sent == ss[k].sent + [m]
    requires forall i | 0 <= i < |ss| && i != k :: next[i].sent == ss[i].sent
    ensures Total(next, uuid) == Total(ss, uuid) + (if IsFor(m, uuid) then 1 else 0)
  {
    hide Count, IsFor;
    var last := |ss| - 1;
    if k == last {
      TotalSame(ss[..last], next[..last], uuid);
      CountSnoc(ss[k].sent, m, uuid);
    } else {
      TotalSend(ss[..last], next[..last], k, m, uuid);
    }
  }

  lemma {:induction false} TotalNone(ss: seq<SessionView>, uuid: string)
    requires forall i, j | 0 <= i < |ss| && 0 <= j < |ss[i].sent| :: !IsFor(ss[i].sent[j], uuid)
    ensures Total(ss, uuid) == 0
  {
    hide IsFor, Count;
    if ss != [] {
      TotalNone(ss[..|ss| - 1], uuid);
      CountNone(ss[|ss| - 1].sent, uuid);
    }
  }

  // ------------------------------------------------------------------ single steps

  // Steps that neither send an update nor touch an account.
  lemma StillBooked(w: World, next: World)
    requires Booked(w) && next.server.db.accounts == w.server.db.accounts
    requires next.server.db.history == w.server.db.history
    requires forall uuid :: Total(Sessions(next), uuid) == Total(Sessions(w), uuid)
    ensures Booked(next)
  {
    hide Total, Origin, Repeat10;
    forall u | u in next.server.db.accounts ensures Balanced(next.server.db, Sessions(next), u) {
      assert Balanced(w.server.db, Sessions(w), u);
    }
  }

  lemma QuietBooked(w: World, next: World)
    requires Booked(w) && next.server.db.accounts == w.server.db.accounts
    requires next.server.db.history == w.server.db.history
    requires |Sessions(next)| == |Sessions(w)|
    requires forall i | 0 <= i < |Sessions(w)| :: Sessions(next)[i].sent == Sessions(w)[i].sent
    ensures Booked(next)
  {
    hide Booked, Total;
    forall uuid ensures Total(Sessions(next), uuid) == Total(Sessions(w), uuid) {
      TotalSame(Sessions(w), Sessions(next), uuid);
    }
    StillBooked(w, next);
  }

  lemma ConnectBooked(w: World)
    requires Booked(w) && CanHappen(w, Connect)
    ensures Booked(Next(w, Connect))
  {
    hide Booked, Serialize, Total;
    var next := Next(w, Connect);
    AcceptShape(w.server);
    var v := next.server.sessions[|w.server.sessions|];
    assert Sessions(next) == Sessions(w) + [v];
    assert v.sent == [] + [Handshake(w.server.nextId)];
    forall uuid ensures Total(Sessions(next), uuid) == Total(Sessions(w), uuid) {
      TotalSnoc(Sessions(w), v, uuid);
      CountSnoc([], Handshake(w.server.nextId), uuid);
    }
    StillBooked(w, next);
  }

  // One iteration of the tick: the grant and the update go together.
  lemma TickOneBooked(w: World, id: nat)
    requires Well(w) && !w.server.ended && id in w.server.filed && Booked(w)
    ensures WellFormed(w.server) && Booked(w.(server := TickOne(w.server, id)))
  {
    hide TickOne, ConnWell, Sound, Filing, Bindings, Counters, Booked;
    var s := w.server;
    WellIsFormed(s, Mine(w));
    if Bound(s, id) == "" {
      TickOneIdle(s, id);
      assert w.(server := TickOne(s, id)) == w;
    } else {
      var u :| u in s.db.accounts && s.db.accounts[u].uuid == Bound(s, id);
      GrantBooked(w, id, u);
    }
  }

  lemma GrantBooked(w: World, id: nat, u: string)
    requires Well(w) && GrantsTo(w.server, id, u) && Booked(w)
    ensures Booked(w.(server := TickOne(w.server, id)))
  {
    hide TickOne, Well, Serialize, TickMessage, GrantTo, WellFormed, Balanced;
    var s, next := w.server, w.(server := TickOne(w.server, id));
    var k, m := s.filed[id].value, TickMessage(s, id, u);
    GrantFacts(w, id, u);
    GrantParts(s.db, u);
    assert Sessions(w)[|w.past| + k] == s.sessions[k] && Sessions(next)[|w.past| + k] == next.server.sessions[k];
    forall v | v in next.server.db.accounts ensures Balanced(next.server.db, Sessions(next), v) {
      assert Balanced(s.db, Sessions(w), v);
      TotalSend(Sessions(w), Sessions(next), |w.past| + k, m, s.db.accounts[v].uuid);
      GrantBalances(s.db, Sessions(w), next.server.db, Sessions(next), u, v, m);
    }
  }

  lemma GrantFacts(w: World, id: nat, u: string)
    requires Well(w) && GrantsTo(w.server, id, u)
    ensures var s, next, m := w.server, TickOne(w.server, id), TickMessage(w.server, id, u);
            var k := s.filed[id].value;
            && k < |s.sessions| == |next.sessions| && UniqueUuids(s.db.accounts) && s.db.history != []
            && (forall i | 0 <= i < |s.sessions| && i != k :: next.sessions[i] == s.sessions[i])
            && next.sessions[k].sent == s.sessions[k].sent + [m]
            && m.kind == RESOURCE_UPDATE && UuidOf(m) == s.db.accounts[u].uuid
            && next.db == GrantTo(s.db, u)
  {
    hide TickOne, ConnsWell, Serialize, TickMessage, GrantTo, Filing, Bindings, Counters, Proper, ResourcesOf, UuidOf;
    var s := w.server;
    DurableParts(s.db);
    TickOneSession(s, id, u);
    TickMessageProper(s, id, u);
  }

  lemma GrantBalances(db: Db, ss: seq<SessionView>, db': Db, ss': seq<SessionView>, u: string, v: string, m: Message)
    requires u in db.accounts && v in db.accounts && db' == GrantTo(db, u) && db.history != []
    requires UniqueUuids(db.accounts) && db.accounts[u].uuid != "" && Balanced(db, ss, v)
    requires m.kind == RESOURCE_UPDATE && UuidOf(m) == db.accounts[u].uuid
    requires Total(ss', db.accounts[v].uuid)
             == Total(ss, db.accounts[v].uuid) + (if IsFor(m, db.accounts[v].uuid) then 1 else 0)
    ensures v in db'.accounts && Balanced(db', ss', v)
  {
    hide Total, Repeat10, Plus10, UuidOf;
    GrantParts(db, u);
    assert db'.history[0] == db.history[0];
    RepeatNext(Origin(db.history, v), Total(ss, db.accounts[v].uuid));
  }

  lemma {:induction false} TickBooked(w: World, order: seq<nat>)
    requires Well(w) && !w.server.ended && Booked(w) && forall id | id in order :: id in w.server.filed
    ensures WellFormed(w.server) && Booked(w.(server := Tick(w.server, order)))
    decreases |order|
  {
    hide TickOne, Well, Booked;
    WellFormedOf(w);
    if order == [] {
      assert w.(server := Tick(w.server, order)) == w;
    } else {
      var id, rest := order[0], order[1..];
      assert id in order;
      TickOneWell(w, id);
      TickOneBooked(w, id);
      TickOneWellFormed(w.server, id);
      var mid := w.(server := TickOne(w.server, id));
      TickBooked(mid, rest);
      assert Tick(w.server, order) == Tick(mid.server, rest);
    }
  }

  // --------------------------------------------------------------------- a login

  // No update was ever sent for a uuid no account has.
  lemma NoneForFresh(w: World, uuid: string)
    requires Well(w) && Fresh(w.server.db.accounts, uuid)
    ensures Total(Sessions(w), uuid) == 0
  {
    hide Well, IsFor;
    forall i, j | 0 <= i < |Sessions(w)| && 0 <= j < |Sessions(w)[i].sent|
      ensures !IsFor(Sessions(w)[i].sent[j], uuid)
    {
      NotFor(w, i, j, uuid);
    }
    TotalNone(Sessions(w), uuid);
  }

  lemma NotFor(w: World, c: nat, j: nat, uuid: string)
    requires Well(w) && Fresh(w.server.db.accounts, uuid)
    requires c < |Sessions(w)| && j < |Sessions(w)[c].sent|
    ensures !IsFor(Sessions(w)[c].sent[j], uuid)
  {
    hide Well, ConnWell, Chain, Held, UuidOf;
    SessionCount(w);
    ConnOf(w, c);
    Theorems.FileOf(w);
    var m, h := Sessions(w)[c].sent[j], w.server.db.history;
    if m.kind == RESOURCE_UPDATE {
      var i := StampOf(Sessions(w)[c], w.conns[c], h, j);
      StillKnown(h, i, m);
    }
  }

  lemma StillKnown(h: seq<Table>, i: nat, m: Message)
    requires Chain(h) && i < |h| && Held(m, h[i])
    ensures !Fresh(h[|h| - 1], UuidOf(m))
  {
    hide UuidOf, ResourcesOf, Chain;
    var u :| u in h[i] && h[i][u].uuid == UuidOf(m) && h[i][u].resources == ResourcesOf(m);
    ChainKept(h, i, |h| - 1);
  }

  lemma SessionCount(w: World)
    requires Well(w)
    ensures |Sessions(w)| == |w.conns|
  {
    hide ConnWell;
  }

  lemma StampOf(v: SessionView, conn: ClientSpec.Conn, h: seq<Table>, j: nat) returns (i: nat)
    requires ConnWell(v, conn, h) && j < |v.sent| && v.sent[j].kind == RESOURCE_UPDATE
    ensures i < |h| && Held(v.sent[j], h[i])
  {
    hide Orderly, Transported, ClientWell, Held, Proper;
    var at: seq<nat> :| StampedAt(v.sent, h, at);
    i := at[j];
  }

  // Registering adds an account with nothing, for which nothing was sent.
  lemma RegisterBooked(w: World, user: string, password: string, uuid: string, rehash: seq<string>)
    requires Well(w) && Booked(w) && user !in w.server.db.accounts && Fresh(w.server.db.accounts, uuid)
    ensures Booked(w.(server := w.server.(db := AddUser(w.server.db, user, password, uuid, rehash).value)))
  {
    hide Well, Balanced;
    var db, next := w.server.db, AddUser(w.server.db, user, password, uuid, rehash).value;
    NoneForFresh(w, uuid);
    NewInHistory(w, user);
    RegisterParts(db, user, password, uuid, rehash);
    forall u | u in next.accounts ensures Balanced(next, Sessions(w), u) {
      if u != user {
        assert Balanced(db, Sessions(w), u);
      }
      RegisterBalances(db, next, Sessions(w), user, password, uuid, u);
    }
  }

  lemma NewInHistory(w: World, user: string)
    requires Well(w) && user !in w.server.db.accounts
    ensures w.server.db.history != [] && user !in w.server.db.history[0]
  {
    hide ConnsWell, Filing, Bindings, Counters;
    ChainKept(w.server.db.history, 0, |w.server.db.history| - 1);
  }

  lemma RegisterBalances(db: Db, next: Db, ss: seq<SessionView>, user: string, password: string, uuid: string,
                         u: string)
    requires next.accounts == db.accounts[user := Account(password, uuid, NO_RESOURCES, map[])]
    requires next.history == db.history + [next.accounts] && db.history != [] && user !in db.history[0]
    requires Total(ss, uuid) == 0 && u in next.accounts && (u != user ==> Balanced(db, ss, u))
    ensures Balanced(next, ss, u)
  {
    hide Total;
    assert next.history[0] == db.history[0];
  }

  // A session is given a message that is no update.
  lemma SendBooked(w: World, next: World, j: nat, m: Message)
    requires Booked(w) && next.past == w.past && |next.server.sessions| == |w.server.sessions|
    requires next.server.db.accounts == w.server.db.accounts && next.server.db.history == w.server.db.history
    requires m.kind != RESOURCE_UPDATE
    requires j < |w.server.sessions| && next.server.sessions[j].sent == w.server.sessions[j].sent + [m]
    requires forall i | 0 <= i < |w.server.sessions| && i != j ::
               next.server.sessions[i].sent == w.server.sessions[i].sent
    ensures Booked(next)
  {
    hide Booked, Total;
    assert Sessions(next)[|w.past| + j] == next.server.sessions[j];
    forall uuid ensures Total(Sessions(next), uuid) == Total(Sessions(w), uuid) {
      TotalSend(Sessions(w), Sessions(next), |w.past| + j, m, uuid);
    }
    StillBooked(w, next);
  }

  lemma LineBooked(w: World, k: nat, a: nat, b: nat, rehash: seq<string>)
    requires Well(w) && Booked(w) && CanHappen(w, ServerLine(k, a, b, rehash))
    ensures Booked(Next(w, ServerLine(k, a, b, rehash)))
  {
    hide Well, Booked, Parse, Serialize, Uuid.Format, Authenticate, LoginResult;
    var s, v, drawn := w.server, w.server.sessions[k], Uuid.Format(a, b);
    var next := Next(w, ServerLine(k, a, b, rehash));
    var m := Parse(Framing.StripCr(Framing.FirstLine(v.input.buffer)));
    if m.Some? && m.value.kind == LOGIN_REQUEST && Authenticate(s.db, m.value.payload, drawn, rehash).Some? {
      var auth := Authenticate(s.db, m.value.payload, drawn, rehash).value;
      var mid := w.(server := s.(db := auth.0));
      AuthenticateBooked(w, m.value.payload, drawn, rehash);
      if v.id in s.filed && s.filed[v.id].Some? {
        var j := s.filed[v.id].value;
        assert LoginResult(auth.1).kind == LOGIN_RESULT by { LoginKind(auth.1); }
        SendBooked(mid, next, j, LoginResult(auth.1));
      } else {
        QuietBooked(mid, next);
      }
    } else {
      QuietBooked(w, next);
    }
  }

  lemma LoginKind(uuid: string)
    ensures LoginResult(uuid).kind == LOGIN_RESULT
  {
  }

  lemma AuthenticateBooked(w: World, payload: Json.Json, drawn: string, rehash: seq<string>)
    requires Well(w) && Booked(w) && Fresh(w.server.db.accounts, drawn)
    requires Authenticate(w.server.db, payload, drawn, rehash).Some?
    ensures Booked(w.(server := w.server.(db := Authenticate(w.server.db, payload, drawn, rehash).value.0)))
  {
    hide Well, Booked, Saved;
    var user, password := StringAt(payload, "id").value, StringAt(payload, "password").value;
    if user in w.server.db.accounts {
      assert w.(server := w.server.(db := w.server.db)) == w;
    } else {
      RegisterBooked(w, user, password, drawn, rehash);
    }
  }

  // --------------------------------------------------------------------- every run

  lemma QueueBooked(w: World, k: nat, q: Step)
    requires Booked(w) && CanHappen(w, Queue(k, q))
    ensures Booked(Next(w, Queue(k, q)))
  {
    hide Booked, WriteQueue.Apply, Total;
    StepKeeps(w.server.sessions[k], q);
    QuietBooked(w, Next(w, Queue(k, q)));
  }

  lemma EventBooked(w: World, e: Event)
    requires Well(w) && CanHappen(w, e) && Booked(w)
    ensures Booked(Next(w, e))
  {
    hide Well, Booked, OnLine, OnAccept, Tick, Enabled, WriteQueue.Apply;
    match e
    case Connect => ConnectBooked(w);
    case ServerLine(k, a, b, rehash) => LineBooked(w, k, a, b, rehash);
    case Queue(k, q) => QueueBooked(w, k, q);
    case TickAll(order) => TickBooked(w, order);
    case Halt(order, leftover) =>
      TickBooked(w, order);
      QuietBooked(w.(server := Tick(w.server, order)), Next(w, e));
    case Restart(users) => RestartBooked(w, users);
    case ServerRead(_, _) => QuietBooked(w, Next(w, e));
    case ServerEof(_) => QuietBooked(w, Next(w, e));
    case _ => QuietBooked(w, Next(w, e));
  }

  lemma RestartBooked(w: World, users: seq<string>)
    requires Well(w) && CanHappen(w, Restart(users)) && Booked(w)
    ensures Booked(Next(w, Restart(users)))
  {
    hide ConnsWell, Filing, Bindings, Counters, Booked;
    BootSound(w.server.db, users);
    QuietBooked(w, Next(w, Restart(users)));
  }

  lemma FirstBalances(db: Db, u: string)
    requires Typed(db.accounts) && |db.history| == 1 && db.history[0] == db.accounts && u in db.accounts
    ensures Balanced(db, [], u)
  {
    assert TypedResources(db.accounts[u].resources);
  }

  lemma InitBooked(w: World)
    requires Init(w)
    ensures Booked(w)
  {
    var db := w.server.db;
    assert Sessions(w) == [];
    forall u | u in db.accounts ensures Balanced(db, [], u) {
      FirstBalances(db, u);
    }
  }

  lemma {:induction false} RunBooked(ws: seq<World>, es: seq<Event>, i: nat)
    requires Behavior(ws, es) && i < |ws|
    ensures Booked(ws[i])
  {
    hide Well, CanHappen, Next, Booked, Init;
    if i == 0 {
      InitBooked(ws[0]);
    } else {
      RunBooked(ws, es, i - 1);
      BehaviorWell(ws, es, i - 1);
      EventBooked(ws[i - 1], es[i - 1]);
    }
  }

  // In every reachable state, whatever crashes and restarts there were: what an
  // account holds is what it had at first plus ten of everything, modulo 2^64,
  // for each update all sessions ever were given for its uuid.
  lemma GrantsAreUpdates(w: World, u: string)
    requires Reachable(w) && u in w.server.db.accounts && w.server.db.accounts[u].uuid != ""
    ensures var db := w.server.db;
            db.accounts[u].resources
            == Repeat10(Origin(db.history, u), Total(Sessions(w), db.accounts[u].uuid))
  {
    hide CanHappen, Next, Init, Total, Repeat10, Origin;
    var ws, es :| Behavior(ws, es) && ws[|ws| - 1] == w;
    RunBooked(ws, es, |ws| - 1);
    assert Balanced(w.server.db, Sessions(w), u);
  }
}
