// That a client can always catch up: from every reachable state, and whatever
// has been sent, there is a way on that delivers all of it.
module CatchingUp {
  import opened Prelude
  import opened Protocol
  import opened WriteQueue
  import opened ServerSpec
  import opened ClientSpec
  import opened Connections
  import opened Worlds
  import opened Invariant
  import opened Preservation
  import opened Delivered
  import Accounts
  import Framing

  ghost predicate Path(ws: seq<World>, es: seq<Event>) {
    && |ws| == |es| + 1
    && forall i | 0 <= i < |es| :: CanHappen(ws[i], es[i]) && ws[i + 1] == Next(ws[i], es[i])
  }

  // What the two ends of connection c do to pass on what has been sent.
  predicate PassesOn(e: Event, k: nat, c: nat) {
    || (e.Queue? && e.k == k && Draining(e.q))
    || ((e.ClientRead? || e.ClientLine? || e.ClientPoll?) && e.c == c)
  }

  lemma PathPrepend(w: World, e: Event, ws: seq<World>, es: seq<Event>)
    requires CanHappen(w, e) && Path(ws, es) && ws[0] == Next(w, e)
    ensures Path([w] + ws, [e] + es) && ([w] + ws)[0] == w && ([w] + ws)[|es| + 1] == ws[|es|]
  {
    hide CanHappen, Next;
    var ws', es' := [w] + ws, [e] + es;
    forall i | 0 <= i < |es'| ensures CanHappen(ws'[i], es'[i]) && ws'[i + 1] == Next(ws'[i], es'[i]) {
      if i > 0 {
        assert ws'[i] == ws[i - 1] && es'[i] == es[i - 1] && ws'[i + 1] == ws[i];
      }
    }
  }

  // A run followed by a path is a run.
  lemma {:induction false} RunOn(before: seq<World>, done: seq<Event>, ws: seq<World>, es: seq<Event>)
    requires Behavior(before, done) && Path(ws, es) && before[|done|] == ws[0]
    ensures Behavior(before + ws[1..], done + es) && (before + ws[1..])[|done + es|] == ws[|es|]
  {
    hide CanHappen, Next, Init;
    var ws', es' := before + ws[1..], done + es;
    forall i | 0 <= i < |es'| ensures CanHappen(ws'[i], es'[i]) && ws'[i + 1] == Next(ws'[i], es'[i]) {
      if i < |done| {
        assert ws'[i] == before[i] && ws'[i + 1] == before[i + 1] && es'[i] == done[i];
      } else {
        var j := i - |done|;
        assert ws'[i] == ws[j] && ws'[i + 1] == ws[j + 1] && es'[i] == es[j];
      }
    }
  }

  lemma ReachOn(w: World, ws: seq<World>, es: seq<Event>)
    requires Reachable(w) && Path(ws, es) && ws[0] == w
    ensures Reachable(ws[|es|])
  {
    hide CanHappen, Next, Init;
    var before, done :| Behavior(before, done) && before[|before| - 1] == w;
    RunOn(before, done, ws, es);
    assert Behavior(before + ws[1..], done + es);
  }

  // Connection c belongs to the running process, and no write of it has failed.
  ghost predicate Running(w: World, c: nat) {
    && !w.server.ended && |w.past| <= c < |w.conns| == |Sessions(w)|
    && !Sessions(w)[c].failed
  }

  // The same system, but for what connection c still has to pass on.
  ghost predicate SameBut(w: World, u: World, c: nat)
    requires Running(w, c) && Running(u, c)
  {
    && u.past == w.past && |u.conns| == |w.conns|
    && u.server == w.server.(sessions := u.server.sessions)
    && (forall i | 0 <= i < |w.conns| && i != c :: Sessions(u)[i] == Sessions(w)[i] && u.conns[i] == w.conns[i])
    && Sessions(u)[c].sent == Sessions(w)[c].sent && Sessions(u)[c].uuid == Sessions(w)[c].uuid
    && u.conns[c].base == w.conns[c].base && u.conns[c].serial == w.conns[c].serial
    && u.conns[c].client.scene == w.conns[c].client.scene
    && (w.conns[c].client.scene == Game ==> u.conns[c].atLogin == w.conns[c].atLogin)
    && Sessions(u)[c].id == Sessions(w)[c].id && Sessions(u)[c].reading == Sessions(w)[c].reading
    && Sessions(u)[c].input == Sessions(w)[c].input
  }

  lemma QueueStep(w: World, c: nat, q: Step)
    requires Running(w, c) && Draining(q) && Enabled(Sessions(w)[c], q) && Orderly(Sessions(w)[c])
    ensures var e := Queue(c - |w.past|, q);
            && CanHappen(w, e)
            && Running(Next(w, e), c) && SameBut(w, Next(w, e), c)
            && Sessions(Next(w, e))[c] == WriteQueue.Apply(Sessions(w)[c], q)
            && Next(w, e).conns == w.conns
  {
    hide WriteQueue.Apply, Orderly, Enabled;
    StepKept(Sessions(w)[c], q);
  }

  lemma StepKept(v: SessionView, q: Step)
    requires Enabled(v, q) && Draining(q)
    ensures var next := WriteQueue.Apply(v, q);
            && next.failed == v.failed && next.sent == v.sent && next.uuid == v.uuid
            && next.id == v.id && next.reading == v.reading && next.input == v.input
  {
  }

  lemma ClientStep(w: World, c: nat, e: Event)
    requires Running(w, c) && CanHappen(w, e) && PassesOn(e, c - |w.past|, c) && !e.Queue?
    ensures Running(Next(w, e), c) && SameBut(w, Next(w, e), c)
    ensures Sessions(Next(w, e)) == Sessions(w)
  {
    hide Poll, TakeLine, Arrive;
    ScenesStay(w.conns[c].client);
  }

  // Only the end of a frame changes the scene.
  lemma ScenesStay(c: ClientState)
    ensures forall chunk :: Arrive(c, chunk).scene == c.scene
    ensures Framing.HasLine(c.input.buffer) ==> TakeLine(c).scene == c.scene
    ensures c.queue != [] ==> Poll(c).scene == c.scene
  {
    hide Parse;
  }

  lemma SameButTrans(w: World, u: World, x: World, c: nat)
    requires Running(w, c) && Running(u, c) && Running(x, c) && SameBut(w, u, c) && SameBut(u, x, c)
    ensures SameBut(w, x, c)
  {
  }

  // Which event passes something on next; none when everything has arrived and
  // been polled.
  function NextEvent(v: SessionView, client: ClientState, k: nat, c: nat): Option<Event> {
    if v.tasks != [] then Some(Queue(k, RunTask))
    else if v.outgoing != [] then
      if v.written < |v.outgoing[0]| then Some(Queue(k, Step.Accept(|v.outgoing[0]| - v.written)))
      else Some(Queue(k, Done))
    else if |client.input.received| < |v.wire| then Some(ClientRead(c, |v.wire| - |client.input.received|))
    else if Framing.HasLine(client.input.buffer) then Some(ClientLine(c))
    else if client.queue != [] then Some(ClientPoll(c))
    else None
  }

  // How much there is to pass on, in the order in which it is.
  datatype Rest = Rest(work: int, unread: int, buffered: nat, queued: nat)

  function RestOf(v: SessionView, client: ClientState): Rest {
    Rest(Work(v), |v.wire| - |client.input.received|, |client.input.buffer|, |client.queue|)
  }

  predicate Less(a: Rest, b: Rest) {
    && 0 <= a.work && 0 <= a.unread
    && (|| a.work < b.work
        || (a.work == b.work && (|| a.unread < b.unread
                                 || (a.unread == b.unread && (|| a.buffered < b.buffered
                                                              || (a.buffered == b.buffered && a.queued < b.queued))))))
  }

  lemma QueueAdvances(w: World, c: nat, q: Step)
    requires Well(w) && Running(w, c) && Draining(q) && Enabled(Sessions(w)[c], q)
    ensures CanHappen(w, Queue(c - |w.past|, q))
    ensures var next := Next(w, Queue(c - |w.past|, q));
            && Running(next, c) && SameBut(w, next, c)
            && Less(RestOf(Sessions(next)[c], next.conns[c].client), RestOf(Sessions(w)[c], w.conns[c].client))
  {
    hide Well, Orderly, Work, SentWell, ClientWell, Next, CanHappen, Enabled, WriteQueue.Apply, SameBut;
    ConnOf(w, c);
    var v := Sessions(w)[c];
    QueueStep(w, c, q);
    WorkDecreases(v, q);
    WireGrows(v, q);
  }

  lemma PollShortens(c: ClientState)
    requires c.queue != []
    ensures Poll(c).queue == c.queue[1..] && Poll(c).input == c.input
  {
  }

  lemma ClientAdvances(w: World, c: nat, e: Event)
    requires Well(w) && Running(w, c) && (e.ClientRead? || e.ClientLine? || e.ClientPoll?) && e.c == c
    requires CanHappen(w, e)
    ensures var next := Next(w, e);
            && Running(next, c) && SameBut(w, next, c)
            && Less(RestOf(Sessions(next)[c], next.conns[c].client), RestOf(Sessions(w)[c], w.conns[c].client))
  {
    hide Well, Work, SentWell, ClientWell, SameBut, Poll, Parse, Serialize, Orderly;
    ConnOf(w, c);
    var v, client := Sessions(w)[c], w.conns[c].client;
    ClientStep(w, c, e);
    WorkNotNegative(v);
    if e.ClientPoll? {
      PollShortens(client);
    }
  }

  lemma NextEnabled(v: SessionView, client: ClientState, k: nat, c: nat, e: Event)
    requires Single(v) && !v.failed && NextEvent(v, client, k, c) == Some(e)
    ensures PassesOn(e, k, c)
    ensures e.Queue? ==> Enabled(v, e.q)
    ensures e.ClientRead? ==> 0 < e.n == |v.wire| - |client.input.received|
    ensures e.ClientLine? ==> Framing.HasLine(client.input.buffer)
    ensures e.ClientPoll? ==> client.queue != []
  {
  }

  lemma OfConn(v: SessionView, conn: Conn, h: seq<Accounts.Table>)
    requires ConnWell(v, conn, h)
    ensures Single(v) && conn.client.alive
  {
    hide SentWell, Transported, Conserved, Visible;
  }

  lemma NextHappens(w: World, c: nat, e: Event)
    requires Well(w) && Running(w, c)
    requires NextEvent(Sessions(w)[c], w.conns[c].client, c - |w.past|, c) == Some(e)
    ensures PassesOn(e, c - |w.past|, c)
    ensures e.Queue? ==> Enabled(Sessions(w)[c], e.q)
    ensures !e.Queue? ==> CanHappen(w, e)
  {
    hide Well, ConnWell, NextEvent, Enabled, Single;
    ConnOf(w, c);
    OfConn(Sessions(w)[c], w.conns[c], w.server.db.history);
    NextEnabled(Sessions(w)[c], w.conns[c].client, c - |w.past|, c, e);
  }

  // While something is left, the next event can happen and leaves less.
  lemma Advance(w: World, c: nat, e: Event)
    requires Well(w) && Running(w, c)
    requires NextEvent(Sessions(w)[c], w.conns[c].client, c - |w.past|, c) == Some(e)
    ensures CanHappen(w, e) && PassesOn(e, c - |w.past|, c)
    ensures var next := Next(w, e);
            && Running(next, c) && SameBut(w, next, c)
            && Less(RestOf(Sessions(next)[c], next.conns[c].client), RestOf(Sessions(w)[c], w.conns[c].client))
  {
    hide Well, SameBut, Less, Next, CanHappen, Enabled, NextEvent, RestOf;
    NextHappens(w, c, e);
    if e.Queue? {
      QueueAdvances(w, c, e.q);
    } else {
      ClientAdvances(w, c, e);
    }
  }

  // When nothing is left, everything has been polled.
  lemma Settled(w: World, c: nat)
    requires Well(w) && Running(w, c)
    requires NextEvent(Sessions(w)[c], w.conns[c].client, c - |w.past|, c).None?
    ensures w.conns[c].polled == Sessions(w)[c].sent
  {
    hide Well, SentWell, ClientWell, Orderly;
    ConnOf(w, c);
    ArrivedAll(Sessions(w)[c], w.conns[c], w.server.db.history);
    assert w.conns[c].polled + [] == w.conns[c].polled;
  }

  lemma SameButSelf(w: World, c: nat)
    requires Running(w, c)
    ensures SameBut(w, w, c)
  {
  }

  // From every state the two ends of a connection whose writes have not failed
  // can pass on everything that has been sent, doing nothing else.
  lemma {:induction false} CatchUp(w: World, c: nat) returns (ws: seq<World>, es: seq<Event>)
    requires Well(w) && Running(w, c)
    ensures Path(ws, es) && ws[0] == w && forall e | e in es :: PassesOn(e, c - |w.past|, c)
    ensures var u := ws[|es|];
            && Running(u, c) && SameBut(w, u, c) && u.conns[c].polled == Sessions(w)[c].sent
    decreases RestOf(Sessions(w)[c], w.conns[c].client).work,
              RestOf(Sessions(w)[c], w.conns[c].client).unread,
              RestOf(Sessions(w)[c], w.conns[c].client).buffered,
              RestOf(Sessions(w)[c], w.conns[c].client).queued
  {
    hide Well, SameBut, Running, CanHappen, Next, RestOf, PassesOn, NextEvent;
    assert |w.past| <= c < |w.conns| == |Sessions(w)| by { RunningIn(w, c); }
    var e := NextEvent(Sessions(w)[c], w.conns[c].client, c - |w.past|, c);
    if e.None? {
      Settled(w, c);
      SameButSelf(w, c);
      ws, es := [w], [];
    } else {
      Advance(w, c, e.value);
      var next := Next(w, e.value);
      EventWell(w, e.value);
      SameFrame(w, next, c);
      var ws', es' := CatchUp(next, c);
      PathPrepend(w, e.value, ws', es');
      SameButTrans(w, next, ws'[|es'|], c);
      ws, es := [w] + ws', [e.value] + es';
    }
  }

  lemma RunningIn(w: World, c: nat)
    requires Running(w, c)
    ensures |w.past| <= c < |w.conns| == |Sessions(w)|
  {
  }

  lemma SameFrame(w: World, u: World, c: nat)
    requires Running(w, c) && Running(u, c) && SameBut(w, u, c)
    ensures u.past == w.past && |u.conns| == |w.conns| && Sessions(u)[c].sent == Sessions(w)[c].sent
  {
  }

  lemma CanAlwaysCatchUp(w: World, c: nat)
    requires Reachable(w) && Running(w, c)
    ensures exists ws: seq<World>, es: seq<Event> ::
              && Path(ws, es) && ws[0] == w && (forall e | e in es :: PassesOn(e, c - |w.past|, c))
              && Running(ws[|es|], c) && SameBut(w, ws[|es|], c) && Reachable(ws[|es|])
              && ws[|es|].conns[c].polled == Sessions(w)[c].sent
  {
    hide Reachable, Well, Running, SameBut, CanHappen, Next, PassesOn;
    ReachableWell(w);
    RunningIn(w, c);
    var ws, es := CatchUp(w, c);
    ReachOn(w, ws, es);
    SameFrame(w, ws[|es|], c);
  }
}
