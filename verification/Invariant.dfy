// The invariant of the whole system, and that one iteration of the tick keeps it.
module Invariant {
  import opened Prelude
  import opened Protocol
  import opened WriteQueue
  import opened ServerSpec
  import opened ClientSpec
  import opened Accounts
  import opened Connections
  import opened Ticks
  import opened Worlds
  import Filter
  import Framing

  // --------------------------------------------------------------- the invariant

  // Each entry of the file's history grants nothing or one tick to each account.
  predicate Grows(a: Table, b: Table) {
    forall u | u in a && u in b ::
      b[u].resources == a[u].resources || b[u].resources == Plus10(a[u].resources)
  }

  predicate Growing(h: seq<Table>) {
    forall i | 0 < i < |h| :: Grows(h[i - 1], h[i])
  }

  ghost predicate Durable(db: Db) {
    Sound(db) && WireUuids(db.accounts) && Growing(db.history)
  }

  // Ids go round.
  predicate Ids(s: ServerState) {
    && s.nextId == (|s.sessions| + 1) % U8
    && forall k | 0 <= k < |s.sessions| :: s.sessions[k].id == (k + 1) % U8
  }

  // Neither side has run its disconnect callback.
  predicate Live(v: SessionView) {
    v.reading && !v.failed
  }

  // No later session has been accepted under the same id.
  predicate Latest(s: ServerState, k: nat) {
    k < |s.sessions| <= k + U8
  }

  // An entry of m_sessions leads to the latest session of its id, which is
  // live, or is the null entry that ended the process.
  predicate Entry(s: ServerState, id: nat) {
    id in s.filed ==>
      if s.filed[id].None? then s.ended
      else
        var k := s.filed[id].value;
        Latest(s, k) && s.sessions[k].id == id && Live(s.sessions[k])
  }

  // The first 256 sessions stay filed until they disconnect.
  predicate FirstFiled(s: ServerState) {
    |s.sessions| <= U8 ==>
      forall k | 0 <= k < |s.sessions| && Live(s.sessions[k]) ::
        s.sessions[k].id in s.filed && s.filed[s.sessions[k].id] == Some(k)
  }

  predicate Filing(s: ServerState) {
    Ids(s) && (forall id | id in s.filed :: Entry(s, id)) && FirstFiled(s)
  }

  lemma LatestOfId(s: ServerState, latest: nat, k: nat)
    requires Ids(s) && Latest(s, latest) && k < |s.sessions| && s.sessions[k].id == s.sessions[latest].id
    ensures k <= latest && (latest - k) % U8 == 0 && (latest == k <==> |s.sessions| <= k + U8)
  {
    SameResidue(latest, k);
  }

  lemma SameResidue(i: int, j: int)
    requires (i + 1) % U8 == (j + 1) % U8
    ensures (i - j) % U8 == 0
  {
    assert i - j == U8 * ((i + 1) / U8 - (j + 1) / U8);
    Multiple((i + 1) / U8 - (j + 1) / U8);
  }

  lemma Multiple(q: int)
    ensures (U8 * q) % U8 == 0
  {
  }

  // A session is bound to nothing or to a uuid of the table.
  ghost predicate Bindings(s: ServerState) {
    forall k | 0 <= k < |s.sessions| && s.sessions[k].uuid != "" :: Known(s.db.accounts, s.sessions[k].uuid)
  }

  function Updates(v: SessionView): nat {
    |Filter.OfKind(RESOURCE_UPDATE, v.sent)|
  }

  // What the next session of the k-th session's id starts from: what one
  // accepted since has started from, or the counter as it is.
  function HandedOn(s: ServerState, mine: seq<Conn>, k: nat): nat
    requires k < |s.sessions| == |mine|
  {
    if Latest(s, k) then Counter(s.lastSeq, s.sessions[k].id) else mine[k + U8].base
  }

  // It is what the session itself started from plus what it was sent, whether
  // it is still filed or not.
  ghost predicate CounterOf(s: ServerState, mine: seq<Conn>, k: nat) {
    k < |s.sessions| == |mine| && HandedOn(s, mine, k) == (mine[k].base + Updates(s.sessions[k])) % U32
  }

  // Only ids that were handed out have a counter.
  ghost predicate Issued(s: ServerState) {
    |s.sessions| < U8 ==> forall id | id in s.lastSeq :: 0 < id <= |s.sessions|
  }

  // The counters are 32-bit words.
  ghost predicate Words(lastSeq: map<nat, map<string, nat>>) {
    forall id | id in lastSeq :: Counter(lastSeq, id) < U32
  }

  ghost predicate Counters(s: ServerState, mine: seq<Conn>) {
    && |mine| == |s.sessions|
    && (forall k | 0 <= k < |mine| :: mine[k].serial == k)
    && Issued(s) && Words(s.lastSeq)
    && forall k | 0 <= k < |s.sessions| :: CounterOf(s, mine, k)
  }

  ghost predicate ConnsWell(ss: seq<SessionView>, conns: seq<Conn>, h: seq<Table>) {
    && |ss| == |conns|
    && forall c | 0 <= c < |conns| :: ConnWell(ss[c], conns[c], h)
  }

  ghost predicate ServerWell(s: ServerState, mine: seq<Conn>) {
    Durable(s.db) && Filing(s) && Bindings(s) && Counters(s, mine)
  }

  // The connections of the present server process.
  function Mine(w: World): seq<Conn> {
    if |w.past| <= |w.conns| then w.conns[|w.past|..] else []
  }

  ghost predicate Well(w: World) {
    && ConnsWell(Sessions(w), w.conns, w.server.db.history)
    && ServerWell(w.server, Mine(w))
  }

  lemma WellIsFormed(s: ServerState, mine: seq<Conn>)
    requires ServerWell(s, mine)
    ensures WellFormed(s) && (!s.ended ==> TickSafe(s))
  {
  }

  // ------------------------------------------------------ one connection moves on

  lemma MoveOne(ss: seq<SessionView>, conns: seq<Conn>, h: seq<Table>, longer: seq<Table>, c: nat, v: SessionView)
    requires ConnsWell(ss, conns, h) && c < |ss| && h <= longer
    requires ConnWell(v, conns[c], longer)
    ensures ConnsWell(ss[c := v], conns, longer)
  {
    hide SentWell, Transported, ClientWell, Orderly, Framing.Framed;
    forall i | 0 <= i < |conns|
      ensures ConnWell(ss[c := v][i], conns[i], longer)
    {
      if i != c {
        HistoryGrew(ss[i].id, ss[i].uuid, ss[i].sent, conns[i].base, h, longer);
      }
    }
  }

  lemma MoveClient(ss: seq<SessionView>, conns: seq<Conn>, h: seq<Table>, c: nat, conn: Conn)
    requires ConnsWell(ss, conns, h) && c < |conns|
    requires conn.serial == conns[c].serial && conn.base == conns[c].base
    requires ConnWell(ss[c], conn, h)
    ensures ConnsWell(ss, conns[c := conn], h)
  {
    hide ConnWell;
  }

  // A step that sends nothing: reads, strand tasks, write progress, completions.
  lemma Quiet(v: SessionView, next: SessionView, conn: Conn, h: seq<Table>)
    requires ConnWell(v, conn, h)
    requires Orderly(next) && v.wire <= next.wire && Framing.Framed(next.input)
    requires next.id == v.id && next.uuid == v.uuid && next.sent == v.sent
    ensures ConnWell(next, conn, h)
  {
    hide SentWell, ClientWell, Orderly, Framing.Framed;
    SessionMovedOn(v, next, conn.client, conn.polled);
  }

  // A send, with the session bound to a uuid at the same time by a login.
  lemma Sends(v: SessionView, uuid: string, m: Message, conn: Conn, h: seq<Table>, longer: seq<Table>)
    requires ConnWell(v, conn, h) && h <= longer
    requires Sendable(m, v.sent, conn.base, longer)
    requires uuid == if m.kind == LOGIN_RESULT then UuidOf(m) else v.uuid
    ensures ConnWell(WriteQueue.Apply(v.(uuid := uuid), Post(m)), conn, longer)
  {
    hide Serialize, SentWell, ClientWell, Sendable, Framing.Framed;
    HistoryGrew(v.id, v.uuid, v.sent, conn.base, h, longer);
    SendNext(v.id, v.uuid, v.sent, conn.base, longer, m);
    PostOrderly(v.(uuid := uuid), m);
    SessionMovedOn(v, WriteQueue.Apply(v.(uuid := uuid), Post(m)), conn.client, conn.polled);
  }

  // ---------------------------------------------------------------- one tick entry

  lemma CounterBump(lastSeq: map<nat, map<string, nat>>, id: nat, other: nat)
    ensures Counter(Bump(lastSeq, id), other)
            == if other == id then (Counter(lastSeq, id) + 1) % U32 else Counter(lastSeq, other)
  {
  }

  lemma NextNumber(base: nat, n: nat)
    ensures ((base + n) % U32 + 1) % U32 == (base + n + 1) % U32
  {
  }

  lemma GrowingSnoc(h: seq<Table>, t: Table)
    requires Growing(h) && h != [] && Grows(h[|h| - 1], t)
    ensures Growing(h + [t])
  {
    hide Grows;
  }

  // The account's row with one tick's grant.
  function GrantTo(db: Db, u: string): Db
    requires u in db.accounts
  {
    var row := db.accounts[u];
    Saved(db.(accounts := db.accounts[u := row.(resources := Plus10(row.resources))]))
  }

  lemma GrantDurable(db: Db, u: string)
    requires Durable(db) && u in db.accounts && db.accounts[u].uuid != ""
    ensures Durable(GrantTo(db, u))
  {
    hide Saved, Sound;
    var row, next := db.accounts[u], GrantTo(db, u);
    SoundParts(db);
    OwnerRow(db, u, Plus10(row.resources));
    UpdateResourcesSound(db, row.uuid, Plus10(row.resources));
    GrantParts(db, u);
    GrowingSnoc(db.history, next.accounts);
  }

  lemma GrantParts(db: Db, u: string)
    requires u in db.accounts
    ensures var row, next := db.accounts[u], GrantTo(db, u);
            && next.accounts == db.accounts[u := row.(resources := Plus10(row.resources))]
            && next.history == db.history + [next.accounts]
            && Grows(db.accounts, next.accounts)
            && KnownKept(db.accounts, next.accounts)
  {
    var next := GrantTo(db, u);
    forall uuid | Known(db.accounts, uuid) ensures Known(next.accounts, uuid) {
      var v :| v in db.accounts && db.accounts[v].uuid == uuid;
      assert v in next.accounts && next.accounts[v].uuid == uuid;
    }
  }

  lemma SoundParts(db: Db)
    requires Sound(db)
    ensures UniqueUuids(db.accounts) && Typed(db.accounts) && Coherent(db)
    ensures db.history != [] && db.history[|db.history| - 1] == db.accounts
  {
  }

  // The message and the state of one loop iteration that grants to u.
  function TickMessage(s: ServerState, id: nat, u: string): Message
    requires u in s.db.accounts
  {
    ResourceUpdate(s.db.accounts[u].uuid, Counter(Bump(s.lastSeq, id), id), Plus10(s.db.accounts[u].resources))
  }

  ghost predicate GrantsTo(s: ServerState, id: nat, u: string) {
    && WellFormed(s) && !s.ended && id in s.filed && s.filed[id].Some?
    && u in s.db.accounts && s.db.accounts[u].uuid == Bound(s, id) != ""
  }

  lemma TickOneSession(s: ServerState, id: nat, u: string)
    requires GrantsTo(s, id, u) && UniqueUuids(s.db.accounts)
    ensures var k := s.filed[id].value;
            TickOne(s, id) == s.(
              lastSeq := Bump(s.lastSeq, id),
              db := GrantTo(s.db, u),
              sessions := s.sessions[k := WriteQueue.Apply(s.sessions[k], Post(TickMessage(s, id, u)))])
  {
    hide Serialize, Plus10, ResourceUpdate;
    OwnerRow(s.db, u, Plus10(s.db.accounts[u].resources));
  }

  lemma TickMessageProper(s: ServerState, id: nat, u: string)
    requires Durable(s.db) && u in s.db.accounts && id in s.filed
    ensures var m := TickMessage(s, id, u);
            && Proper(m) && m.kind == RESOURCE_UPDATE
            && m.sequence == (Counter(s.lastSeq, id) + 1) % U32
            && UuidOf(m) == s.db.accounts[u].uuid && ResourcesOf(m) == Plus10(s.db.accounts[u].resources)
  {
    hide Sound, Wire, UuidOf, ResourcesOf, Proper;
    var row := s.db.accounts[u];
    CounterBump(s.lastSeq, id, id);
    ResourceUpdateProper(row.uuid, Counter(Bump(s.lastSeq, id), id), Plus10(row.resources));
  }

  lemma HeldByOwner(m: Message, t: Table, u: string)
    requires u in t && t[u].uuid == UuidOf(m) && t[u].resources == ResourcesOf(m)
    ensures Held(m, t)
  {
  }

  lemma TickSendable(s: ServerState, mine: seq<Conn>, id: nat, u: string)
    requires Durable(s.db) && Filing(s) && Counters(s, mine) && GrantsTo(s, id, u)
    ensures var k := s.filed[id].value;
            Sendable(TickMessage(s, id, u), s.sessions[k].sent, mine[k].base, GrantTo(s.db, u).history)
  {
    hide Durable, TickMessage, GrantTo, Proper, Held, WellFormed, Filing;
    var k, m, next := s.filed[id].value, TickMessage(s, id, u), GrantTo(s.db, u);
    FiledIsLatest(s, id, k);
    assert CounterOf(s, mine, k);
    TickMessageProper(s, id, u);
    NextNumber(mine[k].base, Updates(s.sessions[k]));
    GrantParts(s.db, u);
    HeldByOwner(m, next.accounts, u);
  }

  // Nothing about which session is where, and in which condition, changes.
  predicate SameFrame(s: ServerState, next: ServerState) {
    && next.nextId == s.nextId && next.filed == s.filed && next.ended == s.ended
    && |next.sessions| == |s.sessions|
    && forall k | 0 <= k < |s.sessions| ::
         && next.sessions[k].id == s.sessions[k].id
         && next.sessions[k].reading == s.sessions[k].reading
         && next.sessions[k].failed == s.sessions[k].failed
  }

  lemma FilingKept(s: ServerState, next: ServerState)
    requires Filing(s) && SameFrame(s, next)
    ensures Filing(next)
  {
  }

  ghost predicate KnownKept(a: Table, b: Table) {
    forall uuid :: Known(a, uuid) ==> Known(b, uuid)
  }

  lemma BindingsKept(s: ServerState, next: ServerState)
    requires Bindings(s) && |next.sessions| == |s.sessions| && KnownKept(s.db.accounts, next.db.accounts)
    requires forall k | 0 <= k < |s.sessions| ::
               next.sessions[k].uuid == s.sessions[k].uuid || Known(next.db.accounts, next.sessions[k].uuid)
    ensures Bindings(next)
  {
    hide Known;
  }

  lemma WordsBump(lastSeq: map<nat, map<string, nat>>, id: nat)
    requires Words(lastSeq)
    ensures Words(Bump(lastSeq, id))
  {
    hide Counter, Bump;
    forall i | i in Bump(lastSeq, id) ensures Counter(Bump(lastSeq, id), i) < U32 {
      CounterBump(lastSeq, id, i);
      BumpKeys(lastSeq, id);
    }
  }

  lemma BumpKeys(lastSeq: map<nat, map<string, nat>>, id: nat)
    ensures Bump(lastSeq, id).Keys == lastSeq.Keys + {id}
  {
  }

  lemma CounterTick(s: ServerState, mine: seq<Conn>, id: nat, k: nat, m: Message, next: ServerState)
    requires Latest(s, k) && CounterOf(s, mine, k) && s.sessions[k].id == id
    requires m.kind == RESOURCE_UPDATE && next.lastSeq == Bump(s.lastSeq, id)
    requires |next.sessions| == |s.sessions| && next.sessions[k].id == id
    requires next.sessions[k].sent == s.sessions[k].sent + [m]
    ensures CounterOf(next, mine, k)
  {
    hide Counter, Bump;
    CounterBump(s.lastSeq, id, id);
    Filter.Snoc(s.sessions[k].sent, m, RESOURCE_UPDATE);
    NextNumber(mine[k].base, Updates(s.sessions[k]));
  }

  // A session whose id's counter and whose messages are as before.
  lemma CounterSame(s: ServerState, mine: seq<Conn>, k: nat, next: ServerState)
    requires CounterOf(s, mine, k) && |next.sessions| == |s.sessions|
    requires next.sessions[k].id == s.sessions[k].id && next.sessions[k].sent == s.sessions[k].sent
    requires Latest(s, k) ==> Counter(next.lastSeq, s.sessions[k].id) == Counter(s.lastSeq, s.sessions[k].id)
    ensures CounterOf(next, mine, k)
  {
  }

  // The latest sessions have different ids.
  lemma LatestDiffer(s: ServerState, i: nat, j: nat)
    requires Ids(s) && Latest(s, i) && Latest(s, j) && i != j
    ensures s.sessions[i].id != s.sessions[j].id
  {
  }

  lemma FiledIsLatest(s: ServerState, id: nat, k: nat)
    requires Filing(s) && id in s.filed && s.filed[id] == Some(k)
    ensures Latest(s, k) && s.sessions[k].id == id && Ids(s)
  {
  }

  lemma IssuedTick(s: ServerState, id: nat, k: nat, next: ServerState)
    requires Filing(s) && Issued(s) && id in s.filed && s.filed[id] == Some(k)
    requires next.lastSeq == Bump(s.lastSeq, id) && |next.sessions| == |s.sessions|
    ensures Issued(next)
  {
    assert next.lastSeq.Keys == s.lastSeq.Keys + {id};
  }

  lemma CountersTick(s: ServerState, mine: seq<Conn>, id: nat, k: nat, m: Message, next: ServerState)
    requires Filing(s) && Counters(s, mine) && id in s.filed && s.filed[id] == Some(k) && SameFrame(s, next)
    requires m.kind == RESOURCE_UPDATE && next.lastSeq == Bump(s.lastSeq, id)
    requires k < |s.sessions| && next.sessions[k].sent == s.sessions[k].sent + [m]
    requires forall i | 0 <= i < |s.sessions| && i != k :: next.sessions[i].sent == s.sessions[i].sent
    ensures Counters(next, mine)
  {
    hide CounterOf, Counter, Bump, Filing, Issued, Words, Latest, Ids;
    WordsBump(s.lastSeq, id);
    FiledIsLatest(s, id, k);
    CounterTick(s, mine, id, k, m, next);
    forall i | 0 <= i < |s.sessions| && i != k ensures CounterOf(next, mine, i) {
      if Latest(s, i) {
        LatestDiffer(s, i, k);
        CounterBump(s.lastSeq, id, s.sessions[i].id);
      }
      CounterSame(s, mine, i, next);
    }
    IssuedTick(s, id, k, next);
  }

  lemma TickServerWell(s: ServerState, mine: seq<Conn>, id: nat, u: string)
    requires ServerWell(s, mine) && GrantsTo(s, id, u)
    ensures ServerWell(TickOne(s, id), mine)
  {
    hide TickOne, Serialize, Durable, GrantTo, TickMessage, Filing, Bindings, Counters, Known, Bump, WellFormed;
    var k, m, next := s.filed[id].value, TickMessage(s, id, u), TickOne(s, id);
    assert UniqueUuids(s.db.accounts) by { DurableParts(s.db); }
    TickOneSession(s, id, u);
    GrantDurable(s.db, u);
    GrantParts(s.db, u);
    assert m.kind == RESOURCE_UPDATE by { TickMessageProper(s, id, u); }
    FilingKept(s, next);
    BindingsKept(s, next);
    CountersTick(s, mine, id, k, m, next);
  }

  lemma DurableParts(db: Db)
    requires Durable(db)
    ensures UniqueUuids(db.accounts) && Typed(db.accounts) && Coherent(db)
    ensures db.history != [] && db.history[|db.history| - 1] == db.accounts
  {
  }

  lemma PastUpdate<T>(past: seq<T>, mine: seq<T>, k: nat, v: T)
    requires k < |mine|
    ensures past + mine[k := v] == (past + mine)[|past| + k := v]
  {
  }

  lemma TickConnsWell(w: World, id: nat, u: string)
    requires Well(w) && GrantsTo(w.server, id, u)
    ensures ConnsWell(Sessions(w.(server := TickOne(w.server, id))), w.conns, TickOne(w.server, id).db.history)
    ensures w.server.db.history <= TickOne(w.server, id).db.history
  {
    hide TickOne, Serialize, ConnWell, Durable, GrantTo, TickMessage, Filing, Bindings, Counters, Known, Sendable,
         UuidOf, WellFormed, Bump;
    var s := w.server;
    var mine := Mine(w);
    var k, m, next := s.filed[id].value, TickMessage(s, id, u), TickOne(s, id);
    assert UniqueUuids(s.db.accounts) by { DurableParts(s.db); }
    TickOneSession(s, id, u);
    GrantParts(s.db, u);
    FiledInRange(s, mine, id);
    TickSendable(s, mine, id, u);
    assert m.kind == RESOURCE_UPDATE by { TickMessageProper(s, id, u); }
    assert Sessions(w)[|w.past| + k] == s.sessions[k] && w.conns[|w.past| + k] == mine[k];
    Sends(s.sessions[k], s.sessions[k].uuid, m, mine[k], s.db.history, next.db.history);
    MoveOne(Sessions(w), w.conns, s.db.history, next.db.history, |w.past| + k, next.sessions[k]);
    PastUpdate(w.past, s.sessions, k, next.sessions[k]);
  }

  lemma FiledInRange(s: ServerState, mine: seq<Conn>, id: nat)
    requires Filing(s) && Counters(s, mine) && id in s.filed && s.filed[id].Some?
    ensures s.filed[id].value < |s.sessions| == |mine|
  {
    assert Entry(s, id);
  }

  lemma TickOneWell(w: World, id: nat)
    requires Well(w) && !w.server.ended && id in w.server.filed
    ensures WellFormed(w.server)
    ensures Well(w.(server := TickOne(w.server, id)))
    ensures !TickOne(w.server, id).ended && TickOne(w.server, id).filed == w.server.filed
    ensures w.server.db.history <= TickOne(w.server, id).db.history
  {
    hide TickOne, ConnWell, Sound;
    var s := w.server;
    WellIsFormed(s, Mine(w));
    if Bound(s, id) == "" {
      TickOneIdle(s, id);
    } else {
      var u :| u in s.db.accounts && s.db.accounts[u].uuid == Bound(s, id);
      SoundParts(s.db);
      TickOneSession(s, id, u);
      TickServerWell(s, Mine(w), id, u);
      TickConnsWell(w, id, u);
    }
  }
}
