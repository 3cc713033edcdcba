// The server object, with the login handler that main registers on it.
module Servers {
  import opened Prelude
  import opened Protocol
  import opened WriteQueue
  import opened ServerSession
  import opened JsonDBs
  import Accounts
  import Framing
  import ServerSpec
  import Uuid

  ghost function Views(ss: seq<Session>): (vs: seq<SessionView>)
    reads ss
    ensures |vs| == |ss| && forall i | 0 <= i < |ss| :: vs[i] == ss[i].View()
  {
    if ss == [] then [] else Views(ss[..|ss| - 1]) + [ss[|ss| - 1].View()]
  }

  // The steps of onAccept, one after the other, are its effect as a whole.
  lemma AcceptSteps(st: ServerSpec.ServerState)
    ensures var id, n := st.nextId, |st.sessions|;
            var filed := st.(nextId := (id + 1) % U8, filed := st.filed[id := Some(n)],
                             sessions := st.sessions + [Opened(id)]);
            var sent := ServerSpec.SendTo(filed, n, ServerSpec.Handshake(id));
            sent.(sessions := sent.sessions[n := sent.sessions[n].(reading := true)]) == ServerSpec.OnAccept(st)
  {
    hide Serialize, ServerSpec.Handshake, Opened, Apply;
  }

  // operator[] twice and an increment are one bump of the counter.
  lemma BumpMade(lastSeq: map<nat, map<string, nat>>, id: nat)
    ensures var entries := if id in lastSeq then lastSeq else lastSeq[id := map[]];
            var last := if RESOURCE_UPDATE in entries[id] then entries[id][RESOURCE_UPDATE] else 0;
            && ServerSpec.Bump(lastSeq, id)
               == entries[id := entries[id][RESOURCE_UPDATE := (last + 1) % U32]]
            && ServerSpec.Counter(ServerSpec.Bump(lastSeq, id), id) == (last + 1) % U32
  {
  }

  // The functions registered on a server: only the login handler of main.
  datatype Handler = LoginHandler

  class Server {
    var m_nextClientId: nat
    var m_sessions: map<nat, Session?>
    var m_lastSeqByType: map<nat, map<string, nat>>
    var m_handlers: map<string, Handler>
    const m_db: JsonDB
    var accepting: bool            // an accept is armed
    var ticking: bool              // the resource timer is armed
    var ended: bool                // the process is over
    ghost var all: seq<Session>    // every session ever accepted

    ghost predicate Valid()
      reads this, m_db, all
    {
      && m_nextClientId < U8
      && Accounts.Coherent(m_db.View())
      && (forall i | 0 <= i < |all| :: all[i].serial == i)
      && forall id | id in m_sessions && m_sessions[id] != null ::
           m_sessions[id].serial < |all| && all[m_sessions[id].serial] == m_sessions[id]
    }

    ghost function Filed(): map<nat, Option<nat>>
      reads this
    {
      map id | id in m_sessions :: if m_sessions[id] == null then None else Some(m_sessions[id].serial)
    }

    ghost function View(): (st: ServerSpec.ServerState)
      requires Valid()
      reads this, m_db, all
      ensures ServerSpec.WellFormed(st)
    {
      ServerSpec.ServerState(m_nextClientId, Filed(), Views(all), m_lastSeqByType, m_db.View(), ended)
    }

    constructor (db: JsonDB)
      requires Accounts.Coherent(db.View())
      ensures Valid() && View() == ServerSpec.Started(db.View()) && m_db == db
      ensures !accepting && ticking && m_handlers == map[]
    {
      m_nextClientId, m_sessions, m_lastSeqByType := 1, map[], map[];
      m_handlers := map[];
      accepting, ticking := false, true;
      m_db := db;
      ended := false;
      all := [];
    }

    method RegisterHandler(kind: string, handler: Handler)
      requires Valid()
      modifies this`m_handlers
      ensures Valid() && View() == old(View()) && m_handlers == old(m_handlers)[kind := handler]
    {
      hide Accounts.Coherent;
      m_handlers := m_handlers[kind := handler];
    }

    // The handlers main has registered when it runs the server.
    predicate AsInMain()
      reads this
    {
      m_handlers == map[LOGIN_REQUEST := LoginHandler]
    }

    // main, up to the loop of the io_context.
    method SetUp()
      requires Valid() && m_handlers == map[]
      modifies this`m_handlers, this`accepting
      ensures Valid() && View() == old(View()) && AsInMain() && accepting
    {
      hide View, Valid;
      RegisterHandler(LOGIN_REQUEST, LoginHandler);
      DoAccept();
    }

    method DoAccept()
      requires Valid()
      modifies this`accepting
      ensures Valid() && View() == old(View()) && accepting
    {
      hide Accounts.Coherent;
      accepting := true;
    }

    method ScheduleResourceTick()
      requires Valid()
      modifies this`ticking
      ensures Valid() && View() == old(View()) && ticking
    {
      hide Accounts.Coherent;
      ticking := true;
    }

    // The completion of an armed operation: it is no longer armed.
    method Completed(accept: bool)
      requires Valid()
      modifies this`accepting, this`ticking
      ensures Valid() && View() == old(View())
      ensures accepting == (old(accepting) && !accept) && ticking == (old(ticking) && accept)
    {
      hide Accounts.Coherent;
      if accept {
        accepting := false;
      } else {
        ticking := false;
      }
    }

    // m_sessions[id] = session, for a session just made.
    method FileNew(id: nat, session: Session)
      requires Valid() && session.serial == |all| && session !in all
      modifies this`m_sessions, this`all
      ensures Valid() && all == old(all) + [session]
      ensures View() == var st := old(View());
              st.(filed := st.filed[id := Some(|st.sessions|)], sessions := st.sessions + [old(session.View())])
    {
      hide Accounts.Coherent;
      ghost var before := View();
      m_sessions := m_sessions[id := session];
      all := all + [session];
      assert all[..|all| - 1] == old(all);
      assert Filed() == before.filed[id := Some(|before.sessions|)];
    }

    // Only the session's own state differs.
    twostate lemma OneChanged(session: Session)
      requires Valid() && old(Valid()) && session in all && unchanged(this) && unchanged(m_db)
      requires forall s | s in all && s != session :: unchanged(s)
      ensures View() == old(View()).(sessions := old(View()).sessions[session.serial := session.View()])
    {
      hide Accounts.Coherent;
      var k :| 0 <= k < |all| && all[k] == session;
      forall i | 0 <= i < |all| && i != k ensures Views(all)[i] == old(Views(all)[i]) {
        var s := all[i];
        assert s in all && s.serial == i && session.serial == k;
        assert unchanged(s);
      }
      assert Views(all) == old(Views(all))[session.serial := session.View()];
    }

    // Only the database differs.
    twostate lemma DbChanged()
      requires Valid() && old(Valid()) && unchanged(this) && forall s | s in all :: unchanged(s)
      ensures View() == old(View()).(db := m_db.View())
    {
      hide Accounts.Coherent;
      forall i | 0 <= i < |all| ensures Views(all)[i] == old(Views(all)[i]) {
        var s := all[i];
        assert s in all && unchanged(s);
      }
      assert Views(all) == old(Views(all));
    }

    // m_db.updateResources.
    method UpdateDb(uuid: string, r: Accounts.Resources)
      requires Valid() && Accounts.UpdateResources(m_db.View(), uuid, r).Some?
      modifies m_db
      ensures Valid()
      ensures View() == old(View()).(db := Accounts.UpdateResources(old(m_db.View()), uuid, r).value)
    {
      var _ := m_db.UpdateResources(uuid, r);
      DbChanged();
    }

    // session->send.
    method SendOn(session: Session, msg: Message)
      requires Valid() && session in all
      modifies session
      ensures Valid() && View() == ServerSpec.SendTo(old(View()), session.serial, msg)
    {
      hide Serialize, Apply, Accounts.Coherent;
      session.Send(msg);
      OneChanged(session);
    }

    // Whether it failed or not, the next accept is armed.
    method OnAccept(ec: bool)
      requires Valid() && accepting
      modifies this`m_nextClientId, this`m_sessions, this`all, this`accepting, this`ticking
      ensures Valid() && accepting && ticking == old(ticking)
      ensures View() == if ec then old(View()) else ServerSpec.OnAccept(old(View()))
    {
      hide Serialize, ServerSpec.Handshake, ServerSpec.SendTo, ServerSpec.OnAccept, Opened, View, Valid;
      Completed(true);
      if ec {
        DoAccept();
        return;
      }
      AcceptSteps(View());
      var session := MakeSession();
      SendOn(session, ServerSpec.Handshake(session.m_clientId));
      StartOn(session);
      DoAccept();
    }

    method NextId() returns (id: nat)
      requires Valid()
      modifies this`m_nextClientId
      ensures Valid() && id == old(View()).nextId
      ensures View() == old(View()).(nextId := (old(View()).nextId + 1) % U8)
    {
      hide Accounts.Coherent;
      id := m_nextClientId;
      m_nextClientId := (m_nextClientId + 1) % U8;
    }

    // The next id, and a session made for it and filed under it.
    method MakeSession() returns (session: Session)
      requires Valid()
      modifies this`m_nextClientId, this`m_sessions, this`all
      ensures Valid() && fresh(session) && all == old(all) + [session]
      ensures session.serial == |old(View()).sessions| && session.m_clientId == old(View()).nextId
      ensures View() == var st := old(View());
              st.(nextId := (st.nextId + 1) % U8, filed := st.filed[st.nextId := Some(|st.sessions|)],
                  sessions := st.sessions + [Opened(st.nextId)])
    {
      hide Opened, View, Valid;
      var id := NextId();
      session := new Session(id, |all|);
      SessionCount();
      FileNew(id, session);
    }

    lemma SessionCount()
      requires Valid()
      ensures |View().sessions| == |all|
    {
    }

    method StartOn(session: Session)
      requires Valid() && session in all
      modifies session
      ensures Valid()
      ensures View() == var st, k := old(View()), session.serial;
              st.(sessions := st.sessions[k := st.sessions[k].(reading := true)])
    {
      hide Accounts.Coherent;
      session.Start();
      OneChanged(session);
    }

    method SendToClient(clientId: nat, msg: Message)
      requires Valid()
      modifies all
      ensures Valid()
      ensures View() == var st := old(View());
              if clientId in st.filed && st.filed[clientId].Some?
              then ServerSpec.SendTo(st, st.filed[clientId].value, msg) else st
    {
      hide ServerSpec.SendTo, Accounts.Coherent;
      if clientId in m_sessions {
        var session := m_sessions[clientId];
        if session != null {
          SendOn(session, msg);
        }
      }
    }

    // m_sessions[clientId]: a missing entry becomes a null one.
    method GetSession(clientId: nat) returns (session: Session?)
      requires Valid()
      modifies this`m_sessions
      ensures Valid()
      ensures clientId in m_sessions && session == m_sessions[clientId]
      ensures View() == var st := old(View());
              if clientId in st.filed then st else st.(filed := st.filed[clientId := None])
    {
      hide Accounts.Coherent;
      ghost var before := Filed();
      if clientId !in m_sessions {
        m_sessions := m_sessions[clientId := null];
        assert Filed() == before[clientId := None];
      }
      session := m_sessions[clientId];
    }

    method OnClientDisconnect(clientId: nat)
      requires Valid()
      modifies this`m_sessions
      ensures Valid() && View() == ServerSpec.OnDisconnect(old(View()), clientId)
    {
      hide Accounts.Coherent;
      ghost var before := Filed();
      m_sessions := m_sessions - {clientId};
      assert Filed() == before - {clientId};
    }

    // ++m_lastSeqByType[clientId]["ResourceUpdate"].
    method NextSequence(clientId: nat) returns (sequence: nat)
      requires Valid()
      modifies this`m_lastSeqByType
      ensures Valid()
      ensures View() == var st := old(View()); st.(lastSeq := ServerSpec.Bump(st.lastSeq, clientId))
      ensures sequence == ServerSpec.Counter(View().lastSeq, clientId)
    {
      hide Accounts.Coherent, ServerSpec.Bump, ServerSpec.Counter, Views;
      BumpMade(m_lastSeqByType, clientId);
      if clientId !in m_lastSeqByType {
        m_lastSeqByType := m_lastSeqByType[clientId := map[]];
      }
      var inner: map<string, nat> := m_lastSeqByType[clientId];
      var last: nat := if RESOURCE_UPDATE in inner then inner[RESOURCE_UPDATE] else 0;
      sequence := (last + 1) % U32;
      m_lastSeqByType := m_lastSeqByType[clientId := inner[RESOURCE_UPDATE := sequence]];
    }

    // How the fields and the view tell of the same entry.
    lemma EntryView(clientId: nat)
      requires Valid() && clientId in m_sessions
      ensures clientId in View().filed && View().db == m_db.View() && Accounts.Coherent(m_db.View())
      ensures m_sessions[clientId] == null <==> View().filed[clientId] == None
      ensures m_sessions[clientId] != null ==>
                var session := m_sessions[clientId];
                && session in all && View().filed[clientId] == Some(session.serial)
                && session.serial < |View().sessions| && View().sessions[session.serial] == session.View()
    {
      hide Accounts.Coherent;
    }

    // The body of the tick loop. An exception or a null session ends the process.
    method TickEntry(clientId: nat)
      requires Valid() && clientId in m_sessions
      modifies this`ended, this`m_lastSeqByType, m_db, all
      ensures Valid()
      ensures View() == ServerSpec.TickOne(old(View()), clientId)
    {
      hide Serialize, ServerSpec.ResourceUpdate, ServerSpec.Bump, ServerSpec.Counter, ServerSpec.SendTo, View, Valid;
      EntryView(clientId);
      var session := m_sessions[clientId];
      if session == null {
        EndProcess();
        return;
      }
      var uuid := session.m_uuid;
      if uuid != "" {
        var pool := m_db.GetResources(uuid);
        if pool.None? {
          EndProcess();
          return;
        }
        var grown := ServerSpec.Plus10(pool.value);
        var sequence := NextSequence(clientId);
        var msg := ServerSpec.ResourceUpdate(uuid, sequence, grown);
        UpdateDb(uuid, grown);
        SendOn(session, msg);
      }
    }

    method EndProcess()
      requires Valid()
      modifies this`ended
      ensures Valid() && View() == old(View()).(ended := true)
    {
      hide Accounts.Coherent;
      ended := true;
    }

    // The loop over m_sessions, in the order the hash table iterates.
    method TickEntries(order: seq<nat>)
      requires Valid() && !ended && forall id :: id in order <==> id in m_sessions
      modifies this`ended, this`m_lastSeqByType, m_db, all
      ensures Valid() && View() == ServerSpec.Tick(old(View()), order)
    {
      hide ServerSpec.TickOne, Accounts.Coherent;
      for i := 0 to |order|
        invariant Valid() && !ended
        invariant ServerSpec.Tick(old(View()), order) == ServerSpec.Tick(View(), order[i..])
      {
        assert order[i] in order && order[i..][0] == order[i] && order[i..][1..] == order[i + 1..];
        TickEntry(order[i]);
        if ended {
          return;
        }
      }
    }

    // The timer is armed again unless it was cancelled or the loop ended the process.
    method OnResourceTick(ec: bool, order: seq<nat>)
      requires Valid() && ticking && !ended && forall id :: id in order <==> id in m_sessions
      modifies this`ended, this`m_lastSeqByType, this`accepting, this`ticking, m_db, all
      ensures Valid() && ticking == (!ec && !ended) && accepting == old(accepting)
      ensures View() == if ec then old(View()) else ServerSpec.Tick(old(View()), order)
    {
      hide ServerSpec.Tick, Accounts.Coherent, Views;
      Completed(false);
      if ec {
        return;
      }
      TickEntries(order);
      if !ended {
        ScheduleResourceTick();
      }
    }

    // ------------------------------------------------------------------- login

    // db.addUser.
    method Register(user: string, pass: string, a: nat, b: nat, rehash: seq<string>) returns (uuid: string)
      requires Valid() && user !in m_db.View().accounts
      requires Accounts.IsOrder(rehash, m_db.View().accounts.Keys + {user})
      modifies m_db
      ensures Valid() && uuid == Uuid.Format(a, b)
      ensures View() == old(View()).(
                db := Accounts.AddUser(old(m_db.View()), user, pass, Uuid.Format(a, b), rehash).value)
    {
      var r := m_db.AddUser(user, pass, a, b, rehash);
      uuid := r.value;
      assert Accounts.Coherent(m_db.View()) by { AddedKeys(old(m_db.View()), user, pass, uuid, rehash); }
      DbChanged();
    }

    // setUUID.
    method BindOn(session: Session, uuid: string)
      requires Valid() && session in all
      modifies session
      ensures Valid()
      ensures View() == var st, k := old(View()), session.serial;
              st.(sessions := st.sessions[k := st.sessions[k].(uuid := uuid)])
    {
      hide Accounts.Coherent;
      session.SetUUID(uuid);
      OneChanged(session);
    }

    // The part of the handler after the database: bind the session and reply.
    method Bind(clientId: nat, uuid: string)
      requires Valid()
      modifies this`m_sessions, this`ended, all
      ensures Valid() && all == old(all)
      ensures View() == ServerSpec.Bind(old(View()), clientId, uuid)
    {
      hide Serialize, ServerSpec.LoginResult, ServerSpec.SendTo, View, Valid;
      ghost var before := View();
      var session := GetSession(clientId);
      EntryView(clientId);
      if session == null {
        assert View().filed == before.filed[clientId := None];
        EndProcess();
        return;
      }
      BindOn(session, uuid);
      SendToClient(clientId, ServerSpec.LoginResult(uuid));
    }

    // The LoginRequest handler; returning early where the source throws, which
    // the read handler catches, or where the password is wrong.
    method OnLogin(clientId: nat, msg: Message, a: nat, b: nat, rehash: seq<string>)
      requires Valid()
      requires Accounts.Coherent(ServerSpec.OnLogin(View(), clientId, msg.payload, Uuid.Format(a, b), rehash).db)
      modifies this`m_sessions, this`ended, m_db, all
      ensures Valid()
      ensures View() == ServerSpec.OnLogin(old(View()), clientId, msg.payload, Uuid.Format(a, b), rehash)
    {
      hide ServerSpec.Bind, View, Valid, Uuid.Format, Accounts.Saved;
      DbView();
      var user := StringAt(msg.payload, "id");
      if user.None? {
        return;
      }
      var pass := StringAt(msg.payload, "password");
      if pass.None? {
        return;
      }
      var uuid: string;
      var found := m_db.UserExists(user.value);
      if found {
        var ok := m_db.VerifyUser(user.value, pass.value);
        if !ok {
          return;
        }
        var known := m_db.GetUser(user.value, pass.value);
        uuid := known.value;
      } else {
        BindDb(View().(db := Accounts.AddUser(View().db, user.value, pass.value, Uuid.Format(a, b), rehash).value),
               clientId, Uuid.Format(a, b));
        RehashLists(View().db, user.value, pass.value, Uuid.Format(a, b), rehash);
        uuid := Register(user.value, pass.value, a, b, rehash);
      }
      Bind(clientId, uuid);
    }

    lemma DbView()
      requires Valid()
      ensures View().db == m_db.View() && Accounts.Coherent(m_db.View())
    {
    }

    // The handler registered for the type, if there is one.
    method OnClientMessage(clientId: nat, msg: Message, a: nat, b: nat, rehash: seq<string>)
      requires Valid()
      requires msg.kind in m_handlers ==>
                 Accounts.Coherent(ServerSpec.OnLogin(View(), clientId, msg.payload, Uuid.Format(a, b), rehash).db)
      modifies this`m_sessions, this`ended, m_db, all
      ensures Valid()
      ensures View() == if msg.kind in m_handlers
                        then ServerSpec.OnLogin(old(View()), clientId, msg.payload, Uuid.Format(a, b), rehash)
                        else old(View())
    {
      hide ServerSpec.OnLogin, View, Valid, Uuid.Format;
      if msg.kind in m_handlers {
        match m_handlers[msg.kind]
        case LoginHandler => OnLogin(clientId, msg, a, b, rehash);
      }
    }

    // -------------------------------------------- completions of one session

    lemma SessionView(session: Session)
      requires Valid() && session in all
      ensures session.serial < |View().sessions| && View().sessions[session.serial] == session.View()
      ensures session.m_clientId == View().sessions[session.serial].id
    {
      hide Accounts.Coherent;
    }

    method ReadOn(session: Session, ec: bool) returns (m: Option<Message>)
      requires Valid() && session in all
      requires !ec ==> session.reading && Framing.HasLine(session.m_incoming)
      modifies session
      ensures Valid()
      ensures ec ==> m == None
      ensures !ec ==> m == Parse(Framing.StripCr(Framing.FirstLine(old(session.m_incoming))))
      ensures View() == (var st, k := old(View()), session.serial;
                         var v := st.sessions[k];
                         st.(sessions := st.sessions[k := if ec then v.(reading := false)
                                                          else v.(input := Framing.Do(v.input, Framing.Take))]))
    {
      hide Parse, Accounts.Coherent;
      m := session.OnRead(ec);
      OneChanged(session);
    }

    // The completion of a session's read, with the callback it makes.
    method OnSessionRead(session: Session, ec: bool, a: nat, b: nat, rehash: seq<string>)
      requires Valid() && AsInMain() && session in all && session.serial < |View().sessions|
      requires session.View() == View().sessions[session.serial]
      requires !ec ==> session.reading && Framing.HasLine(session.m_incoming)
      requires !ec ==> Accounts.Coherent(ServerSpec.OnLine(View(), session.serial, Uuid.Format(a, b), rehash).db)
      modifies this`m_sessions, this`ended, m_db, all
      ensures Valid()
      ensures View() == if ec then ServerSpec.OnReadError(old(View()), session.serial)
                        else ServerSpec.OnLine(old(View()), session.serial, Uuid.Format(a, b), rehash)
    {
      hide ServerSpec.OnLogin, View, Valid, Uuid.Format, Parse;
      SessionView(session);
      var m := ReadOn(session, ec);
      if ec {
        OnClientDisconnect(session.m_clientId);
      } else if m.Some? {
        OnClientMessage(session.m_clientId, m.value, a, b, rehash);
      }
    }

    // A strand task of a session runs.
    method OnSessionTask(session: Session)
      requires Valid() && session in all && session.strand != []
      requires session.serial < |View().sessions| && session.View() == View().sessions[session.serial]
      modifies session
      ensures Valid()
      ensures View() == ServerSpec.OnQueue(old(View()), session.serial, RunTask)
    {
      hide Apply, Accounts.Coherent;
      session.RunPosted();
      OneChanged(session);
    }

    method WrittenOn(session: Session, ec: bool)
      requires Valid() && session in all && Enabled(session.View(), if ec then Fail else Done)
      modifies session
      ensures Valid()
      ensures View() == old(View()).(sessions :=
                old(View()).sessions[session.serial := Apply(old(session.View()), if ec then Fail else Done)])
    {
      hide Apply, Accounts.Coherent;
      session.OnWritten(ec);
      OneChanged(session);
    }

    // The completion of a session's write, with the callback it makes.
    method OnSessionWritten(session: Session, ec: bool)
      requires Valid() && session in all && session.serial < |View().sessions|
      requires session.View() == View().sessions[session.serial]
      requires Enabled(session.View(), if ec then Fail else Done)
      modifies this`m_sessions, session
      ensures Valid()
      ensures View() == ServerSpec.OnQueue(old(View()), session.serial, if ec then Fail else Done)
    {
      hide Apply, View, Valid;
      SessionView(session);
      WrittenOn(session, ec);
      if ec {
        OnClientDisconnect(session.m_clientId);
      }
    }
  }

  lemma AddedKeys(db: Accounts.Db, user: string, pass: string, uuid: string, rehash: seq<string>)
    requires user !in db.accounts && Accounts.IsOrder(rehash, db.accounts.Keys + {user})
    ensures Accounts.Coherent(Accounts.AddUser(db, user, pass, uuid, rehash).value)
  {
    var next := Accounts.AddUser(db, user, pass, uuid, rehash).value;
    assert next.accounts.Keys == db.accounts.Keys + {user};
  }

  lemma RehashLists(db: Accounts.Db, user: string, pass: string, uuid: string, rehash: seq<string>)
    requires user !in db.accounts
    requires Accounts.Coherent(Accounts.AddUser(db, user, pass, uuid, rehash).value)
    ensures Accounts.IsOrder(rehash, db.accounts.Keys + {user})
  {
    var next := Accounts.AddUser(db, user, pass, uuid, rehash).value;
    assert next.accounts.Keys == db.accounts.Keys + {user};
  }

  lemma BindDb(st: ServerSpec.ServerState, id: nat, uuid: string)
    requires id in st.filed && st.filed[id].Some? ==> st.filed[id].value < |st.sessions|
    ensures ServerSpec.Bind(st, id, uuid).db == st.db
  {
    hide Serialize;
  }
}
