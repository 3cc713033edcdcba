// That nothing gets lost on the way: what a connection has delivered once both
// ends have done all they can, and what a disconnect takes out of m_sessions.
module Delivered {
  import opened Prelude
  import opened Protocol
  import opened WriteQueue
  import opened ServerSpec
  import opened ClientSpec
  import opened Connections
  import opened Worlds
  import opened Invariant
  import opened Preservation
  import Accounts
  import Framing

  // Both ends of every connection, at all times: the lines taken out, and those
  // still in the buffer, are exactly the lines of all bytes read, however they
  // were cut; the bytes after the last line are kept. What the client reads is
  // a prefix of the texts of everything the session was given to send.
  lemma LinesDelivered(w: World, c: nat)
    requires Reachable(w) && c < |w.conns|
    ensures |Sessions(w)| == |w.conns|
    ensures var v, client := Sessions(w)[c], w.conns[c].client;
            && v.input.lines + Framing.Lines(v.input.buffer) == Framing.Lines(v.input.received)
            && Framing.Tail(v.input.buffer) == Framing.Tail(v.input.received)
            && client.input.lines + Framing.Lines(client.input.buffer) == Framing.Lines(client.input.received)
            && Framing.Tail(client.input.buffer) == Framing.Tail(client.input.received)
            && client.input.received <= v.wire <= Concat(Framing.Texts(v.sent))
  {
    hide Reachable, Well, SentWell, ClientWell, Orderly;
    ReachableWell(w);
    ConnOf(w, c);
    WireIsPrefix(Sessions(w)[c]);
  }

  lemma DecodesTo(ms: seq<Message>, sent: seq<Message>, buffer: string)
    requires forall i | 0 <= i < |ms| :: Wire(ms[i])
    requires forall i | 0 <= i < |sent| :: Wire(sent[i])
    requires !Framing.HasLine(buffer)
    requires Concat(Framing.Texts(ms)) + buffer == Concat(Framing.Texts(sent))
    ensures ms == sent && buffer == ""
  {
    hide Wire, Framing.Texts, Framing.Decode;
    Framing.StreamDecodes(ms, buffer);
    Framing.StreamDecodes(sent, "");
    assert Concat(Framing.Texts(sent)) + "" == Concat(Framing.Texts(sent));
  }

  // Nothing is left to write, to read, or to take out of the client's buffer.
  predicate Quiescent(v: SessionView, client: ClientState) {
    && v.outgoing == [] && v.tasks == []
    && |client.input.received| == |v.wire| && !Framing.HasLine(client.input.buffer)
  }

  lemma ArrivalParts(v: SessionView, conn: Conn, h: seq<Accounts.Table>)
    requires ConnWell(v, conn, h)
    ensures Conserved(v) && Transported(v, conn.client, conn.polled) && Opening(v.id, v.sent)
  {
    hide ClientWell, Proper, Stamped, Conserved, Single, Transported, Opening, Framing.Framed;
  }

  lemma ArrivedAll(v: SessionView, conn: Conn, h: seq<Accounts.Table>)
    requires ConnWell(v, conn, h) && Quiescent(v, conn.client)
    ensures conn.polled + conn.client.queue == v.sent && conn.client.input.buffer == ""
  {
    hide ConnWell, Opening, Wire, Framing.Texts;
    ArrivalParts(v, conn, h);
    var ms := conn.polled + conn.client.queue;
    assert v.done + [] + [] == v.done;
    assert v.wire == Concat(v.done) + "" == Concat(v.done);
    SentOnWire(v.id, v.sent);
    assert forall i | 0 <= i < |ms| :: ms[i] == v.sent[i];
    DecodesTo(ms, v.sent, conn.client.input.buffer);
  }

  // When the session's queue has drained without a failure and the client has
  // taken every line of every byte, the client has been given every message
  // ever sent to it, in order, and not a byte is left over.
  lemma EverythingArrives(w: World, c: nat)
    requires Reachable(w) && c < |w.conns| == |Sessions(w)|
    requires Quiescent(Sessions(w)[c], w.conns[c].client)
    ensures w.conns[c].polled + w.conns[c].client.queue == Sessions(w)[c].sent
    ensures w.conns[c].client.input.buffer == ""
  {
    hide Reachable, Well, ConnWell;
    ReachableWell(w);
    ConnOf(w, c);
    ArrivedAll(Sessions(w)[c], w.conns[c], w.server.db.history);
  }

  lemma SentOnWire(id: nat, sent: seq<Message>)
    requires Opening(id, sent)
    ensures forall i | 0 <= i < |sent| :: Wire(sent[i])
  {
    hide Wire, Handshake, LoginResult, ResourceUpdate;
  }

  // ------------------------------------------------------------------ disconnects

  predicate Disconnects(e: Event, k: nat) {
    e == ServerEof(k) || e == Queue(k, Fail)
  }

  // The session itself: after its end of file no read is armed, and after a
  // failed write no write is in flight, its queue being as it was.
  function Disconnected(v: SessionView, e: Event): SessionView {
    if e.ServerEof? then v.(reading := false) else v.(failed := true, inFlight := 0)
  }

  lemma FailedAlone(v: SessionView)
    requires Orderly(v) && Enabled(v, Fail)
    ensures WriteQueue.Apply(v, Fail) == v.(failed := true, inFlight := 0)
  {
  }

  // A disconnect callback of session k takes out the entry of its id and no
  // other, and changes nothing else but session k. Where there is an entry, it leads to the latest session of the id:
  // to k itself, or, exactly when 256 sessions were accepted since, to another,
  // later one.
  lemma DisconnectRemoves(w: World, e: Event, k: nat)
    requires Reachable(w) && CanHappen(w, e) && Disconnects(e, k)
    ensures k < |w.server.sessions|
    ensures var s, id := w.server, w.server.sessions[k].id;
            && Next(w, e) == w.(server := s.(filed := s.filed - {id},
                                             sessions := s.sessions[k := Disconnected(s.sessions[k], e)]))
            && (id in s.filed ==> s.filed[id].Some? && k <= s.filed[id].value < |s.sessions|
                                  && (s.filed[id].value - k) % U8 == 0)
            && (id in s.filed && s.filed[id] != Some(k) <==> id in s.filed && k + U8 < |s.sessions|)
  {
    hide Reachable, ConnsWell, Durable, Bindings, Counters, WriteQueue.Apply;
    ReachableWell(w);
    var s, id := w.server, w.server.sessions[k].id;
    if e == Queue(k, Fail) {
      assert Orderly(s.sessions[k]) by { QueueOrderly(w, k); }
      FailedAlone(s.sessions[k]);
    }
    if id in s.filed {
      assert Entry(s, id);
      LatestOfId(s, s.filed[id].value, k);
    }
  }

  lemma QueueOrderly(w: World, k: nat)
    requires Well(w) && k < |w.server.sessions|
    ensures Orderly(w.server.sessions[k])
  {
    hide Well, SentWell, Transported, ClientWell, Orderly, Framing.Framed;
    ConnAt(w, k);
  }

  // Once a session has disconnected while it was the latest of its id, its
  // second disconnect finds nothing to take out.
  lemma SecondDisconnectIdle(w: World, e: Event, k: nat)
    requires Reachable(w) && CanHappen(w, e) && Disconnects(e, k)
    requires k < |w.server.sessions| <= k + U8 && !Live(w.server.sessions[k])
    ensures Next(w, e).server.filed == w.server.filed
  {
    hide Reachable, ConnsWell, Durable, Bindings, Counters, WriteQueue.Apply;
    DisconnectRemoves(w, e, k);
    ReachableWell(w);
    assert w.server.sessions[k].id in w.server.filed ==> Entry(w.server, w.server.sessions[k].id);
  }
}
