// The client as values: the receiving thread, the queue between it and the
// frame loop, the filter, and the two scenes that handle messages.
module ClientSpec {
  import opened Prelude
  import opened Protocol
  import Accounts
  import Filter
  import Framing

  datatype Scene = Login | Game

  datatype ClientState = ClientState(
    input: Framing.Input,             // m_incoming and what has been read through it
    queue: seq<Message>,              // m_recvQueue
    lastSeq: Filter.LastSeq,
    clientId: nat,
    uuid: string,
    scene: Scene,                     // m_scenes.current()
    resources: Accounts.Resources,    // what the player is shown
    alive: bool)                      // no exception has left Update

  function Launched(): ClientState {
    ClientState(Framing.EMPTY, [], map[], 0, "", Login, Accounts.NO_RESOURCES, true)
  }

  // recvLoop: bytes arrive, and each complete line is parsed and queued.
  function Arrive(c: ClientState, chunk: string): ClientState {
    c.(input := Framing.Do(c.input, Framing.Receive(chunk)))
  }

  function TakeLine(c: ClientState): ClientState
    requires Framing.HasLine(c.input.buffer)
  {
    var m := Parse(Framing.StripCr(Framing.FirstLine(c.input.buffer)));
    c.(input := Framing.Do(c.input, Framing.Take), queue := c.queue + (if m.Some? then [m.value] else []))
  }

  // LoginScene::handleMessage; alive becomes false where the source throws.
  function LoginHandle(c: ClientState, m: Message): ClientState {
    if m.kind != LOGIN_RESULT then c
    else
      var uuid := StringAt(m.payload, "uuid");
      if uuid.None? then c.(alive := false) else c.(uuid := uuid.value)
  }

  // GameScene::handleMessage.
  function GameHandle(c: ClientState, m: Message): ClientState {
    if m.kind != RESOURCE_UPDATE then c
    else
      var uuid := StringAt(m.payload, "uuid");
      if uuid.None? then c.(alive := false)
      else if uuid.value != c.uuid then c
      else
        var wood, food, iron := UnsignedAt(m.payload, "wood", U64), UnsignedAt(m.payload, "food", U64),
                                UnsignedAt(m.payload, "iron", U64);
        if wood.Some? && food.Some? && iron.Some?
        then c.(resources := Accounts.Resources(wood.value, food.value, iron.value))
        else c.(alive := false)
  }

  // What Update does with a message that passed the filter.
  function Dispatch(c: ClientState, m: Message): ClientState {
    if m.kind == ASSIGN_CLIENT_ID then
      var id := UnsignedAt(m.payload, "clientId", U8);
      if id.None? then c.(alive := false) else c.(clientId := id.value)
    else if c.scene == Login then LoginHandle(c, m)
    else GameHandle(c, m)
  }

  // One round of Update's loop.
  function Poll(c: ClientState): ClientState
    requires c.queue != []
  {
    var m := c.queue[0];
    var noted := c.(queue := c.queue[1..], lastSeq := Filter.Note(c.lastSeq, m));
    if Filter.Accepts(c.lastSeq, m) then Dispatch(noted, m) else noted
  }

  predicate HasNumber(m: Message, key: string) {
    m.payload.Obj? && key in m.payload.m && m.payload.m[key].Num?
  }

  predicate HasText(m: Message, key: string) {
    m.payload.Obj? && key in m.payload.m && m.payload.m[key].Str?
  }

  // A message leaves the client alive unless it passes the filter, is for the
  // present scene or the handshake, and lacks what it should have.
  lemma ThrowsIff(c: ClientState)
    requires c.queue != [] && c.alive
    ensures var m := c.queue[0];
            Poll(c).alive
            <==> || !Filter.Accepts(c.lastSeq, m)
                 || (m.kind == ASSIGN_CLIENT_ID && HasNumber(m, "clientId"))
                 || (m.kind == LOGIN_RESULT && (c.scene == Game || HasText(m, "uuid")))
                 || (m.kind == RESOURCE_UPDATE
                     && (|| c.scene == Login
                         || (HasText(m, "uuid")
                             && (|| m.payload.m["uuid"].s != c.uuid
                                 || (HasNumber(m, "wood") && HasNumber(m, "food") && HasNumber(m, "iron"))))))
                 || m.kind !in {ASSIGN_CLIENT_ID, LOGIN_RESULT, RESOURCE_UPDATE}
  {
    hide Filter.Note, Filter.Accepts;
  }

  // What a message that passes changes: one thing, to what the message says.
  lemma PollMeans(c: ClientState)
    requires c.queue != [] && c.alive && Poll(c).alive && Filter.Accepts(c.lastSeq, c.queue[0])
    ensures var m, next := c.queue[0], Poll(c).(queue := c.queue, lastSeq := c.lastSeq);
            if m.kind == ASSIGN_CLIENT_ID then next == c.(clientId := m.payload.m["clientId"].n % U8)
            else if m.kind == LOGIN_RESULT && c.scene == Login then next == c.(uuid := m.payload.m["uuid"].s)
            else if m.kind == RESOURCE_UPDATE && c.scene == Game && m.payload.m["uuid"].s == c.uuid then
              next == c.(resources := Accounts.Resources(m.payload.m["wood"].n % U64, m.payload.m["food"].n % U64,
                                                         m.payload.m["iron"].n % U64))
            else next == c
  {
    hide Filter.Note, Filter.Accepts;
    ThrowsIff(c);
  }

  // The rest of Update, once the queue is empty: a known uuid enters the game.
  function EndFrame(c: ClientState): ClientState {
    if c.uuid != "" then c.(scene := Game) else c
  }

  // The loop on the messages queued when it starts; an exception ends it.
  function Drain(c: ClientState): ClientState
    decreases |c.queue|
  {
    if c.queue == [] || !c.alive then c else Drain(Poll(c))
  }

  function Queued(c: ClientState, ms: seq<Message>): ClientState {
    c.(queue := c.queue + ms)
  }

  // The loop while the receive thread goes on: arrivals[i] is what it has queued
  // between the i-th look at the queue and the one before.
  function DrainWith(c: ClientState, arrivals: seq<seq<Message>>): ClientState
    decreases |arrivals|, |c.queue|
  {
    if !c.alive then c
    else
      var got := if arrivals == [] then c else Queued(c, arrivals[0]);
      if got.queue == [] then got
      else DrainWith(Poll(got), if arrivals == [] then [] else arrivals[1..])
  }

  // The whole of Update.
  function Update(c: ClientState, arrivals: seq<seq<Message>>): ClientState {
    var drained := DrainWith(c, arrivals);
    if drained.alive then EndFrame(drained) else drained
  }

  lemma PollQueued(c: ClientState, ms: seq<Message>)
    requires c.queue != []
    ensures Poll(Queued(c, ms)) == Queued(Poll(c), ms)
  {
    assert (c.queue + ms)[1..] == c.queue[1..] + ms;
  }

  lemma {:induction false} DrainNothingNew(c: ClientState)
    ensures DrainWith(c, []) == Drain(c)
    decreases |c.queue|
  {
    hide Poll;
    if c.queue != [] && c.alive {
      PollShorter(c);
      DrainNothingNew(Poll(c));
    }
  }

  lemma PollShorter(c: ClientState)
    requires c.queue != []
    ensures |Poll(c).queue| == |c.queue| - 1
  {
  }

  function Flat(arrivals: seq<seq<Message>>): seq<Message> {
    if arrivals == [] then [] else arrivals[0] + Flat(arrivals[1..])
  }

  lemma DrainStops(c: ClientState, arrivals: seq<seq<Message>>)
    requires c.alive && c.queue != [] && !Poll(c).alive
    ensures Drain(c) == Poll(c) == DrainWith(Poll(c), arrivals)
  {
    hide Poll;
    PollShorter(c);
    assert Drain(Poll(c)) == Poll(c);
  }

  // A loop that nothing throws out of empties the queue and only ever changes
  // what messages change, never the scene.
  lemma {:induction false} DrainEnds(c: ClientState)
    ensures Drain(c).scene == c.scene && Drain(c).input == c.input
    ensures Drain(c).alive ==> Drain(c).queue == []
    decreases |c.queue|
  {
    hide Poll;
    if c.queue != [] && c.alive {
      PollKeeps(c);
      DrainEnds(Poll(c));
    }
  }

  lemma PollKeeps(c: ClientState)
    requires c.queue != []
    ensures Poll(c).scene == c.scene && Poll(c).input == c.input && Poll(c).queue == c.queue[1..]
    ensures Poll(c).lastSeq == Filter.Note(c.lastSeq, c.queue[0])
  {
  }

  // Its filter then has seen exactly the queued messages, in order.
  lemma {:induction false} DrainFilters(c: ClientState, past: seq<Message>)
    requires c.lastSeq == Filter.After(past) && Drain(c).alive
    ensures Drain(c).lastSeq == Filter.After(past + c.queue)
    decreases |c.queue|
  {
    hide Poll, Filter.Note;
    if c.queue == [] || !c.alive {
      assert past + c.queue == past;
    } else {
      PollKeeps(c);
      Filter.Snoc(past, c.queue[0], "");
      DrainFilters(Poll(c), past + [c.queue[0]]);
      assert past + [c.queue[0]] + c.queue[1..] == past + c.queue;
    }
  }

  // The loop finds the queue empty at its n-th look: n - 1 messages were polled
  // and as many had come.
  predicate EmptyAt(c: ClientState, arrivals: seq<seq<Message>>, n: nat) {
    0 < n <= |arrivals| && |c.queue| + |Flat(arrivals[..n])| == n - 1
  }

  lemma FlatFirst(arrivals: seq<seq<Message>>, n: nat)
    requires n < |arrivals|
    ensures Flat(arrivals[..n + 1]) == arrivals[0] + Flat(arrivals[1..][..n])
  {
    assert arrivals[..n + 1][0] == arrivals[0] && arrivals[..n + 1][1..] == arrivals[1..][..n];
  }

  lemma EmptyLater(c: ClientState, arrivals: seq<seq<Message>>, n: nat)
    requires 0 < n < |arrivals| && Queued(c, arrivals[0]).queue != []
    ensures EmptyAt(c, arrivals, n + 1) <==> EmptyAt(Poll(Queued(c, arrivals[0])), arrivals[1..], n)
  {
    hide Poll, Flat;
    PollKeeps(Queued(c, arrivals[0]));
    FlatFirst(arrivals, n);
  }

  // Which arrivals a frame takes note of: those up to the first look that finds
  // the queue empty, or all of them.
  lemma {:induction false} TakesInExactly(c: ClientState, arrivals: seq<seq<Message>>, n: nat)
    requires c.alive && n <= |arrivals| && (n == |arrivals| || EmptyAt(c, arrivals, n))
    requires forall i | 0 < i < n :: !EmptyAt(c, arrivals, i)
    requires DrainWith(c, arrivals).alive
    ensures DrainWith(c, arrivals) == Drain(Queued(c, Flat(arrivals[..n])))
    decreases |arrivals|
  {
    hide Poll;
    if arrivals == [] {
      DrainNothingNew(c);
      assert Queued(c, Flat(arrivals[..0])) == c;
    } else {
      var got, rest := Queued(c, arrivals[0]), arrivals[1..];
      FlatFirst(arrivals, 0);
      assert Flat(rest[..0]) == [];
      if got.queue == [] {
        assert EmptyAt(c, arrivals, 1);
      } else {
        assert !EmptyAt(c, arrivals, 1) && n > 0;
        forall i: nat | 0 < i < |arrivals| ensures EmptyAt(c, arrivals, i + 1) <==> EmptyAt(Poll(got), rest, i) {
          EmptyLater(c, arrivals, i);
        }
        TakesInExactly(Poll(got), rest, n - 1);
        TakenTogether(c, arrivals, n);
      }
    }
  }

  lemma TakenTogether(c: ClientState, arrivals: seq<seq<Message>>, n: nat)
    requires c.alive && 0 < n <= |arrivals| && Queued(c, arrivals[0]).queue != []
    ensures Drain(Queued(c, Flat(arrivals[..n])))
            == Drain(Queued(Poll(Queued(c, arrivals[0])), Flat(arrivals[1..][..n - 1])))
  {
    hide Poll, Flat;
    var got, later := Queued(c, arrivals[0]), Flat(arrivals[1..][..n - 1]);
    FlatFirst(arrivals, n - 1);
    assert c.queue + (arrivals[0] + later) == got.queue + later;
    assert Queued(c, Flat(arrivals[..n])) == Queued(got, later);
    PollQueued(got, later);
  }

  // A frame that nothing throws out of leaves the queue empty, its filter over
  // exactly the queued messages and those arrivals, and its scene the game
  // exactly when the uuid is known or it was there before.
  lemma FrameTakesIn(c: ClientState, arrivals: seq<seq<Message>>, n: nat, past: seq<Message>)
    requires c.alive && n <= |arrivals| && (n == |arrivals| || EmptyAt(c, arrivals, n))
    requires forall i | 0 < i < n :: !EmptyAt(c, arrivals, i)
    requires c.lastSeq == Filter.After(past) && Update(c, arrivals).alive
    ensures var next := Update(c, arrivals);
            && next.queue == [] && next.lastSeq == Filter.After(past + c.queue + Flat(arrivals[..n]))
            && (next.scene == Game <==> next.uuid != "" || c.scene == Game)
  {
    hide DrainWith, Drain, Flat, Filter.After;
    var all := Queued(c, Flat(arrivals[..n]));
    TakesInExactly(c, arrivals, n);
    DrainEnds(all);
    DrainFilters(all, past);
    assert past + (c.queue + Flat(arrivals[..n])) == past + c.queue + Flat(arrivals[..n]);
  }

  // It makes no difference when during a frame a message arrives: the loop does
  // what it does when all that it takes note of is queued from the start.
  lemma {:induction false} ArrivalTimeIrrelevant(c: ClientState, arrivals: seq<seq<Message>>)
    requires c.alive
    ensures exists n :: 0 <= n <= |arrivals| && DrainWith(c, arrivals) == Drain(Queued(c, Flat(arrivals[..n])))
    decreases |arrivals|
  {
    hide Poll;
    if arrivals == [] {
      DrainNothingNew(c);
      assert Queued(c, Flat(arrivals[..0])) == c;
    } else {
      var got, rest := Queued(c, arrivals[0]), arrivals[1..];
      assert arrivals[..1][1..] == [] && Flat(arrivals[..1]) == arrivals[0] + [] == arrivals[0];
      if got.queue == [] {
        assert DrainWith(c, arrivals) == Drain(Queued(c, Flat(arrivals[..1])));
      } else if !Poll(got).alive {
        DrainStops(got, rest);
        assert DrainWith(c, arrivals) == Drain(Queued(c, Flat(arrivals[..1])));
      } else {
        ArrivalTimeIrrelevant(Poll(got), rest);
        var n :| 0 <= n <= |rest| && DrainWith(Poll(got), rest) == Drain(Queued(Poll(got), Flat(rest[..n])));
        var later := Flat(rest[..n]);
        assert arrivals[..n + 1][0] == arrivals[0] && arrivals[..n + 1][1..] == rest[..n];
        assert c.queue + (arrivals[0] + later) == got.queue + later;
        assert Queued(c, Flat(arrivals[..n + 1])) == Queued(got, later);
        PollQueued(got, later);
        assert DrainWith(c, arrivals) == Drain(Queued(c, Flat(arrivals[..n + 1])));
      }
    }
  }

  // ------------------------------------------------------------ one connection

  // A connection from its accept on: the client, and history. serial: the number
  // of the accept in its server process; base: the counter its id had then;
  // polled: the messages taken from the queue, the first atLogin of them at the
  // login scene; passed: those that passed the filter.
  datatype Conn = Conn(client: ClientState, serial: nat, base: nat,
                       polled: seq<Message>, atLogin: nat, passed: seq<Message>)

  function Accepted(serial: nat, base: nat): Conn {
    Conn(Launched(), serial, base, [], 0, [])
  }

  function Polled(conn: Conn): Conn
    requires conn.client.queue != []
  {
    var m := conn.client.queue[0];
    conn.(client := Poll(conn.client),
          polled := conn.polled + [m],
          atLogin := if conn.client.scene == Login then |conn.polled| + 1 else conn.atLogin,
          passed := conn.passed + (if Filter.Accepts(conn.client.lastSeq, m) then [m] else []))
  }
}
