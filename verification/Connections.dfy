// What holds of one connection in every reachable state: the messages its
// server session was given, the bytes in between, and its client.
module Connections {
  import opened Prelude
  import opened Protocol
  import opened WriteQueue
  import opened ServerSpec
  import opened ClientSpec
  import opened Accounts
  import Filter
  import Framing
  import Json
  import Text

  // ------------------------------------------------------------ message contents

  function UuidOf(m: Message): string {
    var u := StringAt(m.payload, "uuid");
    if u.Some? then u.value else ""
  }

  function NumberOf(m: Message, key: string, width: int): (n: nat)
    requires width > 0
    ensures n < width
  {
    var n := UnsignedAt(m.payload, key, width);
    if n.Some? then n.value else 0
  }

  function ResourcesOf(m: Message): (r: Resources)
    ensures TypedResources(r)
  {
    Resources(NumberOf(m, "wood", U64), NumberOf(m, "food", U64), NumberOf(m, "iron", U64))
  }

  // The only messages the server sends.
  predicate Proper(m: Message) {
    && Wire(m)
    && (|| m == Handshake(NumberOf(m, "clientId", U8))
        || m == LoginResult(UuidOf(m))
        || m == ResourceUpdate(UuidOf(m), m.sequence, ResourcesOf(m)))
  }

  lemma HandshakeProper(id: nat)
    requires id < U8
    ensures Proper(Handshake(id)) && NumberOf(Handshake(id), "clientId", U8) == id
  {
    var m := Handshake(id);
    assert m.payload.m["clientId"] == Json.Num(id);
    assert Text.Ascii("clientId");
    assert Json.Wire(m.payload);
  }

  lemma LoginResultProper(uuid: string)
    requires Text.Ascii(uuid)
    ensures Proper(LoginResult(uuid)) && UuidOf(LoginResult(uuid)) == uuid
  {
    var m := LoginResult(uuid);
    assert m.payload.m["uuid"] == Json.Str(uuid);
    assert Text.Ascii("uuid");
    assert Json.Wire(m.payload);
  }

  lemma ResourceUpdateOnWire(uuid: string, sequence: nat, r: Resources)
    requires Text.Ascii(uuid) && sequence < U32 && TypedResources(r)
    ensures Wire(ResourceUpdate(uuid, sequence, r))
  {
    var p := ResourceUpdate(uuid, sequence, r).payload.m;
    assert Text.Ascii("uuid") && Text.Ascii("wood") && Text.Ascii("food") && Text.Ascii("iron");
    assert Text.Ascii(RESOURCE_UPDATE);
    forall k | k in p ensures Text.Ascii(k) && Json.Wire(p[k]) {
      assert k in {"uuid", "wood", "food", "iron"};
    }
  }

  lemma ResourceUpdateContents(uuid: string, sequence: nat, r: Resources)
    requires TypedResources(r)
    ensures UuidOf(ResourceUpdate(uuid, sequence, r)) == uuid
    ensures ResourcesOf(ResourceUpdate(uuid, sequence, r)) == r
  {
    var p := ResourceUpdate(uuid, sequence, r).payload.m;
    assert p["uuid"] == Json.Str(uuid) && p["wood"] == Json.Num(r.wood);
    assert p["food"] == Json.Num(r.food) && p["iron"] == Json.Num(r.iron);
  }

  lemma ResourceUpdateProper(uuid: string, sequence: nat, r: Resources)
    requires Text.Ascii(uuid) && sequence < U32 && TypedResources(r)
    ensures var m := ResourceUpdate(uuid, sequence, r);
            Proper(m) && UuidOf(m) == uuid && ResourcesOf(m) == r
  {
    hide Wire, UuidOf, ResourcesOf;
    ResourceUpdateOnWire(uuid, sequence, r);
    ResourceUpdateContents(uuid, sequence, r);
  }

  // The uuid of the last and of the first login result among messages.
  function LastLogin(ms: seq<Message>): string {
    if ms == [] then ""
    else if ms[|ms| - 1].kind == LOGIN_RESULT then UuidOf(ms[|ms| - 1])
    else LastLogin(ms[..|ms| - 1])
  }

  function FirstLogin(ms: seq<Message>): string {
    var logins := Filter.OfKind(LOGIN_RESULT, ms);
    if logins == [] then "" else UuidOf(logins[0])
  }

  // --------------------------------------------------------- what the session sent

  // A resource update shows what a table holds for its uuid.
  ghost predicate Held(m: Message, t: Table) {
    exists u :: u in t && t[u].uuid == UuidOf(m) && t[u].resources == ResourcesOf(m)
  }

  // at[i]: which table of the file's history the i-th message was sent under.
  ghost predicate StampedAt(sent: seq<Message>, h: seq<Table>, at: seq<nat>) {
    && |at| == |sent|
    && (forall i, j | 0 <= i <= j < |at| :: at[i] <= at[j] < |h|)
    && forall i | 0 <= i < |at| :: sent[i].kind == RESOURCE_UPDATE ==> Held(sent[i], h[at[i]])
  }

  ghost predicate Stamped(sent: seq<Message>, h: seq<Table>) {
    exists at :: StampedAt(sent, h, at)
  }

  // A handshake first and only first, and nothing else but the server's own messages.
  predicate Opening(id: nat, sent: seq<Message>) {
    && id < U8 && sent != [] && sent[0] == Handshake(id)
    && (forall i | 0 <= i < |sent| :: Proper(sent[i]))
    && (forall i | 0 < i < |sent| :: sent[i].kind != ASSIGN_CLIENT_ID)
  }

  ghost predicate SentWell(id: nat, uuid: string, sent: seq<Message>, base: nat, h: seq<Table>) {
    && Opening(id, sent)
    && Filter.Numbered(Filter.OfKind(RESOURCE_UPDATE, sent), base)
    && uuid == LastLogin(sent)
    && Stamped(sent, h)
  }

  lemma FirstSent(id: nat, base: nat, h: seq<Table>)
    requires id < U8 && h != []
    ensures SentWell(id, "", [Handshake(id)], base, h)
  {
    HandshakeProper(id);
    var sent := [Handshake(id)];
    assert sent[..0] == [];
    assert Filter.OfKind(RESOURCE_UPDATE, sent) == Filter.OfKind(RESOURCE_UPDATE, []) + [];
    assert StampedAt(sent, h, [0]);
  }

  // The next message for a session filed when the file holds the last table of h.
  ghost predicate Sendable(m: Message, sent: seq<Message>, base: nat, h: seq<Table>) {
    && Proper(m) && m.kind != ASSIGN_CLIENT_ID && h != []
    && (m.kind == RESOURCE_UPDATE ==>
          Held(m, h[|h| - 1])
          && m.sequence == (base + |Filter.OfKind(RESOURCE_UPDATE, sent)| + 1) % U32)
  }

  lemma StampNext(sent: seq<Message>, h: seq<Table>, m: Message)
    requires Stamped(sent, h) && h != [] && (m.kind == RESOURCE_UPDATE ==> Held(m, h[|h| - 1]))
    ensures Stamped(sent + [m], h)
  {
    hide Held;
    var at: seq<nat> :| StampedAt(sent, h, at);
    var more := at + [|h| - 1];
    assert StampedAt(sent + [m], h, more);
  }

  lemma OpeningNext(id: nat, sent: seq<Message>, m: Message)
    requires Opening(id, sent) && Proper(m) && m.kind != ASSIGN_CLIENT_ID
    ensures Opening(id, sent + [m])
  {
    hide Proper, Handshake;
  }

  lemma SendNext(id: nat, uuid: string, sent: seq<Message>, base: nat, h: seq<Table>, m: Message)
    requires SentWell(id, uuid, sent, base, h) && Sendable(m, sent, base, h)
    ensures SentWell(id, if m.kind == LOGIN_RESULT then UuidOf(m) else uuid, sent + [m], base, h)
  {
    hide Proper, Held, Stamped, LastLogin, Opening;
    OpeningNext(id, sent, m);
    StampNext(sent, h, m);
    Filter.Snoc(sent, m, RESOURCE_UPDATE);
    LastLoginSnoc(sent, m);
  }

  lemma LastLoginSnoc(ms: seq<Message>, m: Message)
    ensures LastLogin(ms + [m]) == if m.kind == LOGIN_RESULT then UuidOf(m) else LastLogin(ms)
  {
    assert (ms + [m])[..|ms|] == ms;
  }

  lemma HistoryGrew(id: nat, uuid: string, sent: seq<Message>, base: nat, h: seq<Table>, longer: seq<Table>)
    requires SentWell(id, uuid, sent, base, h) && h <= longer
    ensures SentWell(id, uuid, sent, base, longer)
  {
    hide Proper, Held;
    var at: seq<nat> :| StampedAt(sent, h, at);
    assert StampedAt(sent, longer, at);
  }

  // -------------------------------------------------------------- bytes in between

  // What the client has taken in is a prefix of what the session sent, message
  // by message, and the bytes it holds are the start of the next.
  ghost predicate Transported(v: SessionView, c: ClientState, polled: seq<Message>) {
    && polled + c.queue <= v.sent
    && c.input.received <= v.wire
    && c.input.received == Concat(Framing.Texts(polled + c.queue)) + c.input.buffer
  }

  lemma SessionMovedOn(v: SessionView, next: SessionView, c: ClientState, polled: seq<Message>)
    requires Transported(v, c, polled) && v.sent <= next.sent && v.wire <= next.wire
    ensures Transported(next, c, polled)
  {
  }

  lemma BytesArrive(v: SessionView, c: ClientState, polled: seq<Message>, n: nat)
    requires Transported(v, c, polled) && |c.input.received| + n <= |v.wire|
    ensures var from := |c.input.received|;
            Transported(v, Arrive(c, v.wire[from..from + n]), polled)
  {
    hide Framing.Texts;
    var from := |c.input.received|;
    var chunk := v.wire[from..from + n];
    assert c.input.received + chunk == v.wire[..from + n];
    Assoc(Concat(Framing.Texts(polled + c.queue)), c.input.buffer, chunk);
  }

  lemma PrefixCancel(a: string, b: string, c: string)
    requires a + b <= a + c
    ensures b <= c
  {
    assert forall i | 0 <= i < |b| :: b[i] == (a + b)[|a| + i] && (a + c)[|a| + i] == c[i];
  }

  // Bytes that hold a line and start a stream of sent messages start with the first of them.
  lemma FirstMessageComplete(buffer: string, m: Message, rest: string)
    requires Wire(m) && Framing.HasLine(buffer) && buffer <= Serialize(m) + rest
    ensures |Serialize(m)| <= |buffer| && buffer == Serialize(m) + buffer[|Serialize(m)|..]
  {
    var text := Serialize(m);
    hide Serialize;
    if |buffer| < |text| {
      assert buffer == text[..|buffer|];
      Framing.PartialMessage(m, |buffer|);
      assert false;
    }
    assert buffer[..|text|] == text;
  }

  lemma ConcatTextsAppend(a: seq<Message>, b: seq<Message>)
    ensures Concat(Framing.Texts(a + b)) == Concat(Framing.Texts(a)) + Concat(Framing.Texts(b))
  {
    TextsAppend(a, b);
    ConcatAppend(Framing.Texts(a), Framing.Texts(b));
  }

  lemma BufferStartsNext(v: SessionView, c: ClientState, polled: seq<Message>)
    requires Orderly(v) && Transported(v, c, polled)
    ensures c.input.buffer <= Concat(Framing.Texts(v.sent[|polled + c.queue|..]))
  {
    hide Framing.Texts, Orderly, Concat;
    var taken := polled + c.queue;
    var rest := v.sent[|taken|..];
    WireIsPrefix(v);
    assert v.sent == taken + rest;
    ConcatTextsAppend(taken, rest);
    PrefixCancel(Concat(Framing.Texts(taken)), c.input.buffer, Concat(Framing.Texts(rest)));
  }

  lemma TextsAppend(a: seq<Message>, b: seq<Message>)
    ensures Framing.Texts(a + b) == Framing.Texts(a) + Framing.Texts(b)
  {
    hide Serialize;
  }

  // The next line is exactly the next message sent.
  lemma LineIsNextMessage(v: SessionView, c: ClientState, polled: seq<Message>)
    requires Orderly(v) && Transported(v, c, polled) && Framing.HasLine(c.input.buffer)
    requires forall i | 0 <= i < |v.sent| :: Wire(v.sent[i])
    ensures |polled + c.queue| < |v.sent|
    ensures var m := v.sent[|polled + c.queue|];
            && Parse(Framing.StripCr(Framing.FirstLine(c.input.buffer))) == Some(m)
            && c.input.buffer == Serialize(m) + Framing.AfterLine(c.input.buffer)
  {
    hide Serialize, Parse;
    var rest := v.sent[|polled + c.queue|..];
    BufferStartsNext(v, c, polled);
    assert Concat(Framing.Texts([])) == "";
    assert rest != [];
    var m, buffer := rest[0], c.input.buffer;
    Framing.TextsFirst(rest);
    FirstMessageComplete(buffer, m, Concat(Framing.Texts(rest[1..])));
    Framing.MessageFirst(m, buffer[|Serialize(m)|..]);
  }

  lemma LineTaken(v: SessionView, c: ClientState, polled: seq<Message>)
    requires Orderly(v) && Transported(v, c, polled) && Framing.HasLine(c.input.buffer)
    requires forall i | 0 <= i < |v.sent| :: Wire(v.sent[i])
    ensures Transported(v, TakeLine(c), polled)
  {
    hide Serialize, Parse;
    LineIsNextMessage(v, c, polled);
    var taken := polled + c.queue;
    var m, after := v.sent[|taken|], Framing.AfterLine(c.input.buffer);
    assert polled + (c.queue + [m]) == taken + [m];
    TextsSnoc(taken, m);
    ConcatSnoc(Framing.Texts(taken), Serialize(m));
    Assoc(Concat(Framing.Texts(taken)), Serialize(m), after);
  }

  // ---------------------------------------------------------------------- client

  // The update a client shows after polling ms, the first ones of them still at
  // the login scene: the last one for its uuid that passed the filter since.
  function Visible(ms: seq<Message>, first: nat, uuid: string): Resources {
    if |ms| <= first then NO_RESOURCES
    else
      var before, m := ms[..|ms| - 1], ms[|ms| - 1];
      if m.kind == RESOURCE_UPDATE && UuidOf(m) == uuid && Filter.Accepts(Filter.After(before), m)
      then ResourcesOf(m)
      else Visible(before, first, uuid)
  }

  predicate ShownBy(r: Resources, uuid: string, m: Message) {
    m.kind == RESOURCE_UPDATE && UuidOf(m) == uuid && ResourcesOf(m) == r
  }

  lemma {:induction false} VisibleComesFrom(ms: seq<Message>, first: nat, uuid: string)
    ensures Visible(ms, first, uuid) != NO_RESOURCES ==>
              exists p :: 0 <= p < |ms| && ShownBy(Visible(ms, first, uuid), uuid, ms[p])
  {
    hide UuidOf, ResourcesOf;
    if |ms| > first && Visible(ms, first, uuid) != NO_RESOURCES {
      var before, m := ms[..|ms| - 1], ms[|ms| - 1];
      if ShownBy(Visible(ms, first, uuid), uuid, m) {
        assert ms[|ms| - 1] == m;
      } else {
        VisibleComesFrom(before, first, uuid);
        var p :| 0 <= p < |before| && ShownBy(Visible(before, first, uuid), uuid, before[p]);
        assert ms[p] == before[p];
      }
    }
  }

  lemma VisibleSnoc(ms: seq<Message>, m: Message, first: nat, uuid: string)
    requires first <= |ms|
    ensures Visible(ms + [m], first, uuid)
            == if m.kind == RESOURCE_UPDATE && UuidOf(m) == uuid && Filter.Accepts(Filter.After(ms), m)
               then ResourcesOf(m) else Visible(ms, first, uuid)
  {
    hide UuidOf, ResourcesOf;
    assert (ms + [m])[..|ms|] == ms;
  }

  function LoginsSeen(polled: seq<Message>): nat {
    if Filter.OfKind(LOGIN_RESULT, polled) == [] then 0 else 1
  }

  predicate ClientWell(conn: Conn, id: nat) {
    var c, polled := conn.client, conn.polled;
    && c.alive
    && c.lastSeq == Filter.After(polled)
    && Filter.LastOf(c.lastSeq, ASSIGN_CLIENT_ID) == (if polled == [] then 0 else 1)
    && Filter.LastOf(c.lastSeq, LOGIN_RESULT) == LoginsSeen(polled)
    && (polled != [] ==> c.clientId == id)
    && c.uuid == FirstLogin(polled)
    && (if c.scene == Game then c.uuid != "" && conn.atLogin <= |polled| else conn.atLogin == |polled|)
    && c.resources == Visible(polled, conn.atLogin, c.uuid)
    && conn.passed == Filter.Passed(polled)
  }

  lemma LaunchedWell(id: nat, serial: nat, base: nat)
    ensures ClientWell(Accepted(serial, base), id)
  {
  }

  lemma FirstLoginSnoc(polled: seq<Message>, m: Message)
    ensures LoginsSeen(polled + [m]) == if m.kind == LOGIN_RESULT then 1 else LoginsSeen(polled)
    ensures FirstLogin(polled + [m])
            == if m.kind == LOGIN_RESULT && LoginsSeen(polled) == 0 then UuidOf(m) else FirstLogin(polled)
  {
    Filter.Snoc(polled, m, LOGIN_RESULT);
  }

  // Handling one more message: a handshake comes first and only first.
  lemma PolledWell(conn: Conn, id: nat)
    requires ClientWell(conn, id) && conn.client.queue != [] && id < U8
    requires var m := conn.client.queue[0];
             Proper(m) && (if conn.polled == [] then m == Handshake(id) else m.kind != ASSIGN_CLIENT_ID)
    ensures ClientWell(Polled(conn), id)
  {
    hide Visible, UuidOf, ResourcesOf, NumberOf, Proper;
    var m := conn.client.queue[0];
    Filter.Snoc(conn.polled, m, LOGIN_RESULT);
    FirstLoginSnoc(conn.polled, m);
    if m.kind == ASSIGN_CLIENT_ID {
      HandshakePolled(conn, id);
    } else if m.kind == LOGIN_RESULT {
      LoginPolled(conn, id);
    } else {
      UpdatePolled(conn, id);
    }
  }

  lemma NothingVisible(ms: seq<Message>, uuid: string)
    ensures Visible(ms, |ms|, uuid) == NO_RESOURCES
  {
  }

  lemma HandshakePolled(conn: Conn, id: nat)
    requires ClientWell(conn, id) && conn.client.queue != [] && id < U8
    requires conn.polled == [] && conn.client.queue[0] == Handshake(id)
    ensures var c, m := conn.client, conn.client.queue[0];
            Poll(c) == c.(queue := c.queue[1..], lastSeq := Filter.Note(c.lastSeq, m), clientId := id)
    ensures ClientWell(Polled(conn), id)
  {
    HandshakeProper(id);
    var m := conn.client.queue[0];
    assert [] + [m] == [m];
    Filter.Snoc([], m, LOGIN_RESULT);
    NothingVisible([m], conn.client.uuid);
  }

  // A login result is handled if it is the first, which finds the login scene.
  lemma LoginHandled(conn: Conn, id: nat)
    requires ClientWell(conn, id) && conn.client.queue != []
    requires Proper(conn.client.queue[0]) && conn.client.queue[0].kind == LOGIN_RESULT
    ensures var c, m := conn.client, conn.client.queue[0];
            && Poll(c) == c.(queue := c.queue[1..], lastSeq := Filter.Note(c.lastSeq, m),
                             uuid := if LoginsSeen(conn.polled) == 0 then UuidOf(m) else c.uuid)
            && Filter.LastOf(Filter.Note(c.lastSeq, m), LOGIN_RESULT) == 1
            && (LoginsSeen(conn.polled) == 0 ==> c.scene == Login)
  {
    hide Visible;
    var m := conn.client.queue[0];
    assert m == LoginResult(UuidOf(m));
    assert StringAt(m.payload, "uuid") == Some(UuidOf(m));
  }

  lemma LoginPolled(conn: Conn, id: nat)
    requires ClientWell(conn, id) && conn.client.queue != [] && conn.polled != []
    requires Proper(conn.client.queue[0]) && conn.client.queue[0].kind == LOGIN_RESULT
    ensures ClientWell(Polled(conn), id)
  {
    hide Visible, UuidOf, Proper;
    var m := conn.client.queue[0];
    LoginHandled(conn, id);
    Filter.Snoc(conn.polled, m, LOGIN_RESULT);
    FirstLoginSnoc(conn.polled, m);
    NothingVisible(conn.polled, conn.client.uuid);
    NothingVisible(conn.polled + [m], Poll(conn.client).uuid);
    if conn.client.scene == Game {
      VisibleSnoc(conn.polled, m, conn.atLogin, conn.client.uuid);
    }
  }

  // An update is shown if it passes, in the game, and is for the client's uuid.
  lemma UpdateHandled(c: ClientState, m: Message)
    requires c.queue != [] && m == c.queue[0] && Proper(m) && m.kind == RESOURCE_UPDATE
    ensures Poll(c) == c.(queue := c.queue[1..], lastSeq := Filter.Note(c.lastSeq, m),
                          resources := if Filter.Accepts(c.lastSeq, m) && c.scene == Game && UuidOf(m) == c.uuid
                                       then ResourcesOf(m) else c.resources)
  {
    var r, p := ResourcesOf(m), m.payload.m;
    assert m == ResourceUpdate(UuidOf(m), m.sequence, r);
    assert p["uuid"] == Json.Str(UuidOf(m)) && p["wood"] == Json.Num(r.wood);
    assert p["food"] == Json.Num(r.food) && p["iron"] == Json.Num(r.iron);
  }

  lemma UpdatePolled(conn: Conn, id: nat)
    requires ClientWell(conn, id) && conn.client.queue != [] && conn.polled != []
    requires Proper(conn.client.queue[0])
    requires conn.client.queue[0].kind != LOGIN_RESULT && conn.client.queue[0].kind != ASSIGN_CLIENT_ID
    ensures ClientWell(Polled(conn), id)
  {
    hide Visible, UuidOf, ResourcesOf, Poll;
    var m := conn.client.queue[0];
    assert m.kind == RESOURCE_UPDATE;
    UpdateHandled(conn.client, m);
    Filter.Snoc(conn.polled, m, LOGIN_RESULT);
    FirstLoginSnoc(conn.polled, m);
    NothingVisible(conn.polled, conn.client.uuid);
    NothingVisible(conn.polled + [m], conn.client.uuid);
    if conn.client.scene == Game {
      VisibleSnoc(conn.polled, m, conn.atLogin, conn.client.uuid);
    }
  }

  // -------------------------------------------------------- the whole connection

  ghost predicate ConnWell(v: SessionView, conn: Conn, h: seq<Table>) {
    && Orderly(v)
    && SentWell(v.id, v.uuid, v.sent, conn.base, h)
    && Transported(v, conn.client, conn.polled)
    && ClientWell(conn, v.id)
    && Framing.Framed(v.input) && Framing.Framed(conn.client.input)
    && conn.base < U32 && (conn.serial < U8 ==> conn.base == 0)
  }
}
