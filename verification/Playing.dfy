// Frames in the transition system, and that clients do get into the game and
// are shown what their account holds.
module Playing {
  import opened Protocol
  import opened WriteQueue
  import opened ServerSpec
  import opened ClientSpec
  import opened Accounts
  import opened Connections
  import opened Worlds
  import opened Invariant
  import opened Preservation
  import opened CatchingUp
  import opened Runs
  import Filter
  import Theorems
  import Uuid

  // The end of a frame puts the client that ends it into the game if it knows
  // its uuid. It does nothing else, to it or to anything.
  lemma FrameEnds(w: World, c: nat)
    requires CanHappen(w, ClientFrame(c))
    ensures var next, before := Next(w, ClientFrame(c)), w.conns[c];
            && next.server == w.server && next.past == w.past && |next.conns| == |w.conns|
            && (forall i | 0 <= i < |w.conns| && i != c :: next.conns[i] == w.conns[i])
            && (next.conns[c].client.scene == Game <==> before.client.uuid != "" || before.client.scene == Game)
            && next.conns[c].(client := next.conns[c].client.(scene := before.client.scene)) == before
  {
  }

  // ---------------------------------------------------------------------- frames

  lemma OnlyClient(w: World, c: nat, e: Event)
    requires CanHappen(w, e) && (e == ClientPoll(c) || e == ClientFrame(c))
    ensures var next := Next(w, e);
            && next.server == w.server && next.past == w.past && |next.conns| == |w.conns|
            && (forall i | 0 <= i < |w.conns| && i != c :: next.conns[i] == w.conns[i])
  {
    hide Poll;
  }

  ghost predicate OthersSame(w: World, u: World, c: nat) {
    && u.server == w.server && u.past == w.past && |u.conns| == |w.conns|
    && forall i | 0 <= i < |w.conns| && i != c :: u.conns[i] == w.conns[i]
  }

  lemma AliveThroughout(w: World, c: nat)
    requires Well(w) && c < |w.conns|
    ensures w.conns[c].client.alive
  {
    hide Well, SentWell, Transported, Orderly, Visible;
    ConnOf(w, c);
  }

  lemma PollEvent(w: World, c: nat)
    requires Well(w) && c < |w.conns| && w.conns[c].client.queue != []
    ensures CanHappen(w, ClientPoll(c))
    ensures var next, conn := Next(w, ClientPoll(c)), w.conns[c];
            && OthersSame(w, next, c) && next.conns[c].client == Poll(conn.client)
            && next.conns[c].polled == conn.polled + [conn.client.queue[0]]
  {
    hide Well, Poll;
    AliveThroughout(w, c);
    OnlyClient(w, c, ClientPoll(c));
  }

  // A frame during which nothing arrives is a run of polls, one for each queued
  // message, and then its end.
  lemma {:induction false} FrameIsPath(w: World, c: nat) returns (ws: seq<World>, es: seq<Event>)
    requires Well(w) && c < |w.conns|
    ensures Path(ws, es) && ws[0] == w && |es| == |w.conns[c].client.queue| + 1
    ensures (forall i | 0 <= i < |es| - 1 :: es[i] == ClientPoll(c)) && es[|es| - 1] == ClientFrame(c)
    ensures OthersSame(w, ws[|es|], c)
    ensures ws[|es|].conns[c].client == ClientSpec.Update(w.conns[c].client, [])
    ensures ws[|es|].conns[c].polled == w.conns[c].polled + w.conns[c].client.queue
    decreases |w.conns[c].client.queue|
  {
    hide Well, Poll, CanHappen, Next;
    AliveThroughout(w, c);
    var client := w.conns[c].client;
    if client.queue == [] {
      assert CanHappen(w, ClientFrame(c)) by { FrameEvent(w, c); }
      var next := Next(w, ClientFrame(c));
      OnlyClient(w, c, ClientFrame(c));
      FrameEvent(w, c);
      ws, es := [w, next], [ClientFrame(c)];
      assert Path(ws, es);
      assert w.conns[c].polled + [] == w.conns[c].polled;
    } else {
      PollEvent(w, c);
      var next := Next(w, ClientPoll(c));
      EventWell(w, ClientPoll(c));
      AliveThroughout(next, c);
      PollKeeps(client);
      var ws', es' := FrameIsPath(next, c);
      PathPrepend(w, ClientPoll(c), ws', es');
      UpdatePolls(client);
      ws, es := [w] + ws', [ClientPoll(c)] + es';
      assert w.conns[c].polled + [client.queue[0]] + client.queue[1..] == w.conns[c].polled + client.queue;
    }
  }

  lemma FrameEvent(w: World, c: nat)
    requires c < |w.conns| && w.conns[c].client.alive && w.conns[c].client.queue == []
    ensures CanHappen(w, ClientFrame(c))
    ensures var next := Next(w, ClientFrame(c));
            && next.conns[c].client == ClientSpec.Update(w.conns[c].client, [])
            && next.conns[c].polled == w.conns[c].polled
  {
  }

  lemma UpdatePolls(client: ClientState)
    requires client.alive && client.queue != []
    ensures ClientSpec.Update(client, []) == ClientSpec.Update(Poll(client), [])
  {
    hide Poll;
  }

  // -------------------------------------------------------------- into the game

  lemma PathAppend(ws: seq<World>, es: seq<Event>, e: Event)
    requires Path(ws, es) && CanHappen(ws[|es|], e)
    ensures Path(ws + [Next(ws[|es|], e)], es + [e])
  {
    hide CanHappen, Next;
    var ws', es' := ws + [Next(ws[|es|], e)], es + [e];
    forall i | 0 <= i < |es'| ensures CanHappen(ws'[i], es'[i]) && ws'[i + 1] == Next(ws'[i], es'[i]) {
      if i < |es| {
        assert ws'[i] == ws[i] && ws'[i + 1] == ws[i + 1] && es'[i] == es[i];
      }
    }
  }

  lemma AllPolled(w: World, c: nat)
    requires Well(w) && c < |w.conns| == |Sessions(w)| && w.conns[c].polled == Sessions(w)[c].sent
    ensures w.conns[c].client.queue == [] && w.conns[c].client.uuid == FirstLogin(Sessions(w)[c].sent)
    ensures w.conns[c].client.alive
  {
    hide Well, SentWell, Orderly, Visible;
    ConnOf(w, c);
    var v, conn := Sessions(w)[c], w.conns[c];
    assert |conn.polled + conn.client.queue| <= |v.sent|;
  }

  // A client whose session was ever answered with a non-empty uuid can always
  // get into the game, by nothing but the two ends of its connection passing
  // on what was sent and the end of a frame.
  lemma CanEnterGame(w: World, c: nat)
    requires Reachable(w) && Running(w, c) && FirstLogin(Sessions(w)[c].sent) != ""
    ensures exists ws: seq<World>, es: seq<Event> ::
              && Path(ws, es) && ws[0] == w && Reachable(ws[|es|])
              && (forall e | e in es :: PassesOn(e, c - |w.past|, c) || e == ClientFrame(c))
              && c < |ws[|es|].conns| && ws[|es|].conns[c].client.scene == Game
              && ws[|es|].conns[c].client.uuid == FirstLogin(Sessions(w)[c].sent)
  {
    hide Reachable, Well, Running, SameBut, CanHappen, Next, PassesOn, FirstLogin;
    ReachableWell(w);
    RunningIn(w, c);
    var ws, es := CatchUp(w, c);
    var u := ws[|es|];
    ReachOn(w, ws, es);
    ReachableWell(u);
    CatchingUp.SameFrame(w, u, c);
    RunningIn(u, c);
    AllPolled(u, c);
    FrameEvent(u, c);
    FrameEnds(u, c);
    PathAppend(ws, es, ClientFrame(c));
    var ws', es' := ws + [Next(u, ClientFrame(c))], es + [ClientFrame(c)];
    ReachOn(w, ws', es');
    assert ws'[|es'|] == Next(u, ClientFrame(c));
  }

  // ------------------------------------------------------------ a client that plays

  // The first client logs in, polls the result and ends its frame.
  lemma FirstEnters() returns (w: World, uuid: string)
    ensures Reachable(w) && w.past == [] && Open(w, 0) && |w.server.sessions| == |w.conns| == 1
    ensures w.conns[0].client.scene == Game && w.conns[0].client.uuid == uuid != "" && w.conns[0].base == 0
    ensures w.conns[0].atLogin == 2 && w.server.sessions[0].uuid == uuid
    ensures w.server.sessions[0].sent == [Handshake(1)] + [LoginResult(uuid)] && w.server.sessions[0].id == 1
    ensures w.server.lastSeq == map[]
    ensures var t := w.server.db.accounts;
            t.Keys == {"u"} && t["u"].uuid == uuid && t["u"].resources == NO_RESOURCES
  {
    hide Reachable, Well, Handshake, LoginResult, Uuid.Format, CanHappen, Next, FirstLogin;
    var a: World;
    a, uuid := FirstLogsIn();
    var u := Receive(a, 0);
    ReachableWell(u);
    assert Sessions(u) == u.server.sessions;
    AllPolled(u, 0);
    Kinds(1, uuid);
    assert FirstLogin(u.server.sessions[0].sent) == uuid by {
      OneLogin(Handshake(1), LoginResult(uuid));
    }
    FrameEvent(u, 0);
    FrameEnds(u, 0);
    ReachNext(u, ClientFrame(0));
    w := Next(u, ClientFrame(0));
    AtLoginThen(u, 0);
  }

  lemma OneLogin(h: Message, l: Message)
    requires h.kind != LOGIN_RESULT && l.kind == LOGIN_RESULT
    ensures FirstLogin([h] + [l]) == UuidOf(l)
  {
    hide UuidOf;
    Filter.Snoc([], h, LOGIN_RESULT);
    Filter.Snoc([h], l, LOGIN_RESULT);
    assert [] + [h] == [h];
  }

  lemma AtLoginThen(w: World, c: nat)
    requires Well(w) && c < |w.conns| && w.conns[c].client.scene == Login
    ensures w.conns[c].atLogin == |w.conns[c].polled|
  {
    hide Well, SentWell, Transported, Orderly, Visible;
    ConnOf(w, c);
  }

  // The filter is open for the second update after the first.
  lemma SecondPasses(h: Message, l: Message, m: Message, n: Message)
    requires h.kind == ASSIGN_CLIENT_ID && l.kind == LOGIN_RESULT && m.kind == n.kind == RESOURCE_UPDATE
    requires m.sequence == 1 && n.sequence == 2
    ensures Filter.Accepts(Filter.After([h] + [l] + [m]), n)
  {
    hide Filter.After, Filter.OfKind, Filter.Passed, Filter.Window;
    var ms := [h] + [l] + [m];
    OneUpdate(h, l, m);
    Filter.NumberedPass(ms, RESOURCE_UPDATE, 0);
    assert Filter.Through(1, 0) == 1;
  }

  // Two ticks later it shows twenty of everything, as the file has it.
  lemma ShowsTwenty()
    ensures exists w: World, c: nat ::
              && Reachable(w) && w.past == [] && !w.server.ended && c < |w.conns|
              && w.conns[c].client.scene == Game && w.conns[c].client.uuid != ""
              && w.conns[c].client.resources == Resources(20, 20, 20)
              && exists u :: u in w.server.db.accounts && w.server.db.accounts[u].uuid == w.conns[c].client.uuid
                             && w.server.db.accounts[u].resources == Resources(20, 20, 20)
  {
    hide Reachable, Well, Handshake, LoginResult, ResourceUpdate, CanHappen, Next, Visible, Filter.After,
         Filter.Accepts;
    var g, uuid := FirstEnters();
    var t, m := TickOnce(g, 0, "u");
    var t', n := TickOnce(t, 0, "u");
    var w := Receive(t', 0);
    var before := [Handshake(1)] + [LoginResult(uuid)] + [m];
    assert w.conns[0].polled == before + [n];
    Kinds(1, uuid);
    UpdateParts(uuid, 1, Resources(10, 10, 10));
    UpdateParts(uuid, 2, Resources(20, 20, 20));
    SecondPasses(Handshake(1), LoginResult(uuid), m, n);
    VisibleSnoc(before, n, 2, uuid);
    ReachableWell(w);
    assert Sessions(w) == w.server.sessions;
    AllPolled(w, 0);
    assert FirstLogin(w.server.sessions[0].sent) == uuid by {
      OneLogin(Handshake(1), LoginResult(uuid));
      FirstStays([Handshake(1)] + [LoginResult(uuid)], [m] + [n]);
      assert before + [n] == [Handshake(1)] + [LoginResult(uuid)] + ([m] + [n]);
    }
    Theorems.ShowsLatestOwnUpdate(w, 0);
    assert w.server.db.accounts["u"].uuid == w.conns[0].client.uuid;
  }

  lemma UpdateParts(uuid: string, sequence: nat, r: Resources)
    requires TypedResources(r)
    ensures var m := ResourceUpdate(uuid, sequence, r);
            m.kind == RESOURCE_UPDATE && m.sequence == sequence && UuidOf(m) == uuid && ResourcesOf(m) == r
  {
    ResourceUpdateContents(uuid, sequence, r);
  }

  lemma FirstStays(a: seq<Message>, b: seq<Message>)
    requires Filter.OfKind(LOGIN_RESULT, a) != []
    ensures FirstLogin(a + b) == FirstLogin(a)
  {
    Filter.OfKindAppend(LOGIN_RESULT, a, b);
  }
}
