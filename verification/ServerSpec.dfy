// The server as values: every callback of the io_context is one function from
// state to state. Choices of the environment are parameters.
module ServerSpec {
  import opened Prelude
  import opened Protocol
  import opened WriteQueue
  import Json
  import Accounts
  import Framing

  // filed: m_sessions, from client id to the index of a session ever accepted;
  // None is the null pointer operator[] inserts. ended: the process is over,
  // by an uncaught exception, a null dereference or a crash.
  datatype ServerState = ServerState(
    nextId: nat,
    filed: map<nat, Option<nat>>,
    sessions: seq<SessionView>,
    lastSeq: map<nat, map<string, nat>>,
    db: Accounts.Db,
    ended: bool)

  function Started(db: Accounts.Db): ServerState {
    ServerState(1, map[], [], map[], db, false)
  }

  ghost predicate WellFormed(st: ServerState) {
    && Accounts.Coherent(st.db)
    && forall id | id in st.filed :: st.filed[id].Some? ==> st.filed[id].value < |st.sessions|
  }

  // -------------------------------------------------------------------- messages

  function Handshake(id: nat): Message {
    Message(ASSIGN_CLIENT_ID, 1, Json.Obj(map["clientId" := Json.Num(id)]))
  }

  function LoginResult(uuid: string): Message {
    Message(LOGIN_RESULT, 1, Json.Obj(map["uuid" := Json.Str(uuid)]))
  }

  function ResourceUpdate(uuid: string, sequence: nat, r: Accounts.Resources): Message {
    Message(RESOURCE_UPDATE, sequence,
            Json.Obj(map["uuid" := Json.Str(uuid), "wood" := Json.Num(r.wood),
                         "food" := Json.Num(r.food), "iron" := Json.Num(r.iron)]))
  }

  // ------------------------------------------------------------------- callbacks

  // session->send on the k-th session.
  function SendTo(st: ServerState, k: nat, m: Message): ServerState
    requires k < |st.sessions|
  {
    st.(sessions := st.sessions[k := Apply(st.sessions[k], Post(m))])
  }

  // onAccept without an error: the next id, wrapping at 256, and the handshake.
  function OnAccept(st: ServerState): ServerState {
    var id := st.nextId;
    var v := Apply(Opened(id), Post(Handshake(id))).(reading := true);
    st.(nextId := (id + 1) % U8,
        filed := st.filed[id := Some(|st.sessions|)],
        sessions := st.sessions + [v])
  }

  function OnDisconnect(st: ServerState, id: nat): ServerState {
    st.(filed := st.filed - {id})
  }

  // m_lastSeqByType[id]["ResourceUpdate"], 0 when never used.
  function Counter(lastSeq: map<nat, map<string, nat>>, id: nat): nat {
    if id in lastSeq && RESOURCE_UPDATE in lastSeq[id] then lastSeq[id][RESOURCE_UPDATE] else 0
  }

  function Bump(lastSeq: map<nat, map<string, nat>>, id: nat): map<nat, map<string, nat>> {
    var inner := if id in lastSeq then lastSeq[id] else map[];
    lastSeq[id := inner[RESOURCE_UPDATE := (Counter(lastSeq, id) + 1) % U32]]
  }

  function Plus10(r: Accounts.Resources): Accounts.Resources {
    Accounts.Resources((r.wood + 10) % U64, (r.food + 10) % U64, (r.iron + 10) % U64)
  }

  // The tick loop's body for one entry of m_sessions.
  function TickOne(st: ServerState, id: nat): ServerState
    requires WellFormed(st) && id in st.filed
  {
    if st.filed[id].None? then st.(ended := true)
    else
      var k := st.filed[id].value;
      var uuid := st.sessions[k].uuid;
      if uuid == "" then st
      else
        var pool := Accounts.GetResources(st.db, uuid);
        if pool.None? then st.(ended := true)
        else
          var grown := Plus10(pool.value);
          var lastSeq := Bump(st.lastSeq, id);
          var db := Accounts.UpdateResources(st.db, uuid, grown).value;
          SendTo(st.(lastSeq := lastSeq, db := db), k, ResourceUpdate(uuid, Counter(lastSeq, id), grown))
  }

  lemma TickOneWellFormed(st: ServerState, id: nat)
    requires WellFormed(st) && id in st.filed
    ensures WellFormed(TickOne(st, id))
    ensures TickOne(st, id).filed == st.filed && |TickOne(st, id).sessions| == |st.sessions|
    ensures forall k | 0 <= k < |st.sessions| :: TickOne(st, id).sessions[k].uuid == st.sessions[k].uuid
  {
    hide Protocol.Serialize, ResourceUpdate, Bump, Counter, Plus10, Accounts.Saved;
    if st.filed[id].Some? && st.sessions[st.filed[id].value].uuid != "" {
      UpdateCoherent(st.db, st.sessions[st.filed[id].value].uuid);
    }
  }

  lemma UpdateCoherent(db: Accounts.Db, uuid: string)
    requires Accounts.Coherent(db)
    ensures forall r :: Accounts.UpdateResources(db, uuid, r).Some? ==>
                          Accounts.Coherent(Accounts.UpdateResources(db, uuid, r).value)
  {
    forall r | Accounts.UpdateResources(db, uuid, r).Some?
      ensures Accounts.Coherent(Accounts.UpdateResources(db, uuid, r).value)
    {
      assert Accounts.UpdateResources(db, uuid, r).value.accounts.Keys == db.accounts.Keys;
    }
  }

  // onResourceTick over the entries in iteration order; an exception ends it.
  function Tick(st: ServerState, order: seq<nat>): ServerState
    requires WellFormed(st) && forall id | id in order :: id in st.filed
    decreases |order|
  {
    if order == [] || st.ended then st
    else
      TickOneWellFormed(st, order[0]);
      Tick(TickOne(st, order[0]), order[1..])
  }

  // What the login handler does to the database, and the uuid it ends up with;
  // None when it returns before binding a session or throws.
  function Authenticate(db: Accounts.Db, payload: Json.Json, uuid: string, rehash: seq<string>)
    : Option<(Accounts.Db, string)>
  {
    var user, pass := StringAt(payload, "id"), StringAt(payload, "password");
    if user.None? || pass.None? then None
    else if user.value in db.accounts then
      var known := Accounts.GetUser(db.accounts, user.value, pass.value);
      if known.None? then None else Some((db, known.value))
    else Some((Accounts.AddUser(db, user.value, pass.value, uuid, rehash).value, uuid))
  }

  // The end of the handler: getSession inserts a null entry for an unknown id,
  // and setUUID through a null entry ends the process.
  function Bind(st: ServerState, id: nat, uuid: string): ServerState
    requires id in st.filed && st.filed[id].Some? ==> st.filed[id].value < |st.sessions|
  {
    if id !in st.filed || st.filed[id].None? then st.(filed := st.filed[id := None], ended := true)
    else
      var k := st.filed[id].value;
      SendTo(st.(sessions := st.sessions[k := st.sessions[k].(uuid := uuid)]), k, LoginResult(uuid))
  }

  // The LoginRequest handler.
  function OnLogin(st: ServerState, id: nat, payload: Json.Json, drawn: string, rehash: seq<string>): ServerState
    requires WellFormed(st)
  {
    var auth := Authenticate(st.db, payload, drawn, rehash);
    if auth.None? then st else Bind(st.(db := auth.value.0), id, auth.value.1)
  }

  function OnMessage(st: ServerState, id: nat, m: Message, drawn: string, rehash: seq<string>): ServerState
    requires WellFormed(st)
  {
    if m.kind == LOGIN_REQUEST then OnLogin(st, id, m.payload, drawn, rehash) else st
  }

  // ------------------------------------------------- completions of one session

  function ReadSome(st: ServerState, k: nat, chunk: string): ServerState
    requires k < |st.sessions|
  {
    var v := st.sessions[k];
    st.(sessions := st.sessions[k := v.(input := Framing.Do(v.input, Framing.Receive(chunk)))])
  }

  // The read completes with a line, which is parsed and handed to the server.
  function OnLine(st: ServerState, k: nat, drawn: string, rehash: seq<string>): ServerState
    requires WellFormed(st) && k < |st.sessions| && Framing.HasLine(st.sessions[k].input.buffer)
  {
    var v := st.sessions[k];
    var line := Framing.StripCr(Framing.FirstLine(v.input.buffer));
    var taken := st.(sessions := st.sessions[k := v.(input := Framing.Do(v.input, Framing.Take))]);
    var m := Parse(line);
    if m.None? then taken else OnMessage(taken, v.id, m.value, drawn, rehash)
  }

  // The read completes with an error: no further read is armed.
  function OnReadError(st: ServerState, k: nat): ServerState
    requires k < |st.sessions|
  {
    var v := st.sessions[k];
    OnDisconnect(st.(sessions := st.sessions[k := v.(reading := false)]), v.id)
  }

  // A strand task, a write's progress or its completion; a failed write disconnects.
  function OnQueue(st: ServerState, k: nat, q: Step): ServerState
    requires k < |st.sessions| && Enabled(st.sessions[k], q)
  {
    var v := st.sessions[k];
    var next := st.(sessions := st.sessions[k := Apply(v, q)]);
    if q.Fail? then OnDisconnect(next, v.id) else next
  }
}
