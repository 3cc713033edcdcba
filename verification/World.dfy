// The whole system as a transition system: one server process after another,
// every session they ever accepted, and the client at the other end of each.
module Worlds {
  import opened Prelude
  import opened WriteQueue
  import opened ServerSpec
  import opened ClientSpec
  import Accounts
  import Framing
  import Ticks
  import Text
  import Uuid

  // past: the sessions of server processes that have ended.
  datatype World = World(server: ServerState, past: seq<SessionView>, conns: seq<Conn>)

  // Session c is the server end of connection c.
  function Sessions(w: World): seq<SessionView> {
    w.past + w.server.sessions
  }

  datatype Event =
    | Connect
    | ServerRead(k: nat, chunk: string)
    | ServerLine(k: nat, a: nat, b: nat, rehash: seq<string>)
    | ServerEof(k: nat)
    | Queue(k: nat, q: Step)
    | TickAll(order: seq<nat>)
    | Halt(order: seq<nat>, leftover: Accounts.File)
    | Restart(users: seq<string>)
    | ClientRead(c: nat, n: nat)
    | ClientLine(c: nat)
    | ClientPoll(c: nat)
    | ClientFrame(c: nat)

  ghost predicate Distinct(order: seq<nat>) {
    forall i, j | 0 <= i < j < |order| :: order[i] != order[j]
  }

  // When an event can happen. Drawn uuids are new, and orders list what they order.
  ghost predicate CanHappen(w: World, e: Event) {
    var s := w.server;
    match e
    case Connect => !s.ended
    case ServerRead(k, chunk) =>
      !s.ended && k < |s.sessions| && s.sessions[k].reading && !Framing.HasLine(s.sessions[k].input.buffer)
    case ServerLine(k, a, b, rehash) =>
      && !s.ended && WellFormed(s) && k < |s.sessions|
      && s.sessions[k].reading && Framing.HasLine(s.sessions[k].input.buffer)
      && a < U64 && b < U64 && Accounts.Fresh(s.db.accounts, Uuid.Format(a, b))
      && Accounts.Coherent(OnLine(s, k, Uuid.Format(a, b), rehash).db)
    case ServerEof(k) =>
      !s.ended && k < |s.sessions| && s.sessions[k].reading && !Framing.HasLine(s.sessions[k].input.buffer)
    case Queue(k, q) =>
      !s.ended && k < |s.sessions| && !q.Post? && Enabled(s.sessions[k], q)
    case TickAll(order) =>
      !s.ended && WellFormed(s) && Ticks.Listing(order, s.filed.Keys)
    case Halt(order, _) =>
      !s.ended && WellFormed(s) && Distinct(order) && forall id | id in order :: id in s.filed
    case Restart(users) =>
      s.ended && Accounts.Load(s.db.disk).Some? && Accounts.IsOrder(users, Accounts.Load(s.db.disk).value.Keys)
    case ClientRead(c, n) =>
      && c < |w.conns| && c < |Sessions(w)| && w.conns[c].client.alive
      && 0 < n <= |Sessions(w)[c].wire| - |w.conns[c].client.input.received|
    case ClientLine(c) =>
      c < |w.conns| && w.conns[c].client.alive && Framing.HasLine(w.conns[c].client.input.buffer)
    case ClientPoll(c) =>
      c < |w.conns| && w.conns[c].client.alive && w.conns[c].client.queue != []
    case ClientFrame(c) =>
      c < |w.conns| && w.conns[c].client.alive && w.conns[c].client.queue == []
  }

  function WithClient(w: World, c: nat, client: ClientState): World
    requires c < |w.conns|
  {
    w.(conns := w.conns[c := w.conns[c].(client := client)])
  }

  // A crash between callbacks, or inside a tick after the sessions in order;
  // the temp file is left in any state.
  function Crashed(s: ServerState, leftover: Accounts.File): ServerState {
    s.(ended := true, db := s.db.(disk := s.db.disk.(temp := leftover)))
  }

  function Next(w: World, e: Event): World
    requires CanHappen(w, e)
  {
    var s := w.server;
    match e
    case Connect =>
      w.(server := OnAccept(s),
        conns := w.conns + [Accepted(|s.sessions|, Counter(s.lastSeq, s.nextId))])
    case ServerRead(k, chunk) => w.(server := ReadSome(s, k, chunk))
    case ServerLine(k, a, b, rehash) => w.(server := OnLine(s, k, Uuid.Format(a, b), rehash))
    case ServerEof(k) => w.(server := OnReadError(s, k))
    case Queue(k, q) => w.(server := OnQueue(s, k, q))
    case TickAll(order) => w.(server := Tick(s, order))
    case Halt(order, leftover) => w.(server := Crashed(Tick(s, order), leftover))
    case Restart(users) =>
      var db := Accounts.Boot(s.db.disk, users, s.db.history).value;
      World(Started(db), Sessions(w), w.conns)
    case ClientRead(c, n) =>
      var client, wire := w.conns[c].client, Sessions(w)[c].wire;
      var from := |client.input.received|;
      WithClient(w, c, Arrive(client, wire[from..from + n]))
    case ClientLine(c) => WithClient(w, c, TakeLine(w.conns[c].client))
    case ClientPoll(c) => w.(conns := w.conns[c := Polled(w.conns[c])])
    case ClientFrame(c) => WithClient(w, c, EndFrame(w.conns[c].client))
  }

  // ------------------------------------------------------------------------- runs

  ghost predicate WireUuids(t: Accounts.Table) {
    forall u | u in t :: Text.Ascii(t[u].uuid)
  }

  // A first process has loaded a file whose non-empty uuids are distinct.
  ghost predicate Init(w: World) {
    && w.past == [] && w.conns == []
    && w.server == Started(w.server.db)
    && Accounts.Sound(w.server.db) && |w.server.db.history| == 1
    && WireUuids(w.server.db.accounts)
  }

  ghost predicate Behavior(ws: seq<World>, es: seq<Event>) {
    && |ws| == |es| + 1
    && Init(ws[0])
    && forall i | 0 <= i < |es| :: CanHappen(ws[i], es[i]) && ws[i + 1] == Next(ws[i], es[i])
  }

  ghost predicate Reachable(w: World) {
    exists ws, es :: Behavior(ws, es) && ws[|ws| - 1] == w
  }
}
