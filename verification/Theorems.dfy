// What the invariant gives: the guarantees of the whole system, over every
// reachable state and every run.
module Theorems {
  import opened Prelude
  import opened Protocol
  import opened WriteQueue
  import opened ServerSpec
  import opened ClientSpec
  import opened Accounts
  import opened Connections
  import opened Worlds
  import opened Invariant
  import opened Preservation
  import CatchingUp
  import Filter
  import Framing
  import Json
  import Uuid

  // ------------------------------------------------------------------- delivery

  // The updates a client's filter let through, against those its session sent.
  // Everything polled is a prefix of everything sent. With base the counter the
  // id had at the accept, the filter passes one window of the updates: it drops
  // none exactly when the id's counter was fresh and fewer than 2^32 came.
  lemma Delivery(w: World, c: nat)
    requires Reachable(w) && c < |w.conns|
    ensures |Sessions(w)| == |w.conns|
    ensures var v, conn := Sessions(w)[c], w.conns[c];
            var got := Filter.OfKind(RESOURCE_UPDATE, conn.polled);
            && conn.polled + conn.client.queue <= v.sent
            && got <= Filter.OfKind(RESOURCE_UPDATE, v.sent)
            && Filter.Window(got, Filter.OfKind(RESOURCE_UPDATE, conn.passed), conn.base)
            && (Filter.OfKind(RESOURCE_UPDATE, conn.passed) == got
                <==> got == [] || (conn.base == 0 && |got| < U32))
  {
    hide Reachable, Well, Visible, Orderly, Opening, Stamped;
    ReachableWell(w);
    ConnOf(w, c);
    var v, conn := Sessions(w)[c], w.conns[c];
    assert conn.polled <= conn.polled + conn.client.queue;
    WindowOf(v.sent, conn.polled, conn.base);
  }

  lemma WindowOf(sent: seq<Message>, polled: seq<Message>, base: nat)
    requires polled <= sent && base < U32 && Filter.Numbered(Filter.OfKind(RESOURCE_UPDATE, sent), base)
    ensures var got := Filter.OfKind(RESOURCE_UPDATE, polled);
            var passed := Filter.OfKind(RESOURCE_UPDATE, Filter.Passed(polled));
            && got <= Filter.OfKind(RESOURCE_UPDATE, sent)
            && Filter.Window(got, passed, base)
            && (passed == got <==> got == [] || (base == 0 && |got| < U32))
  {
    var rest := sent[|polled|..];
    assert sent == polled + rest;
    Filter.OfKindAppend(RESOURCE_UPDATE, polled, rest);
    NumberedPrefix(Filter.OfKind(RESOURCE_UPDATE, polled), Filter.OfKind(RESOURCE_UPDATE, rest), base);
    Filter.NumberedPass(polled, RESOURCE_UPDATE, base);
    WholeWindow(Filter.OfKind(RESOURCE_UPDATE, polled), Filter.OfKind(RESOURCE_UPDATE, Filter.Passed(polled)), base);
  }

  // A session among the first 256 of its server process has a fresh id: its
  // client's filter drops no update before the 2^32-th.
  lemma FreshIdDelivery(w: World, c: nat)
    requires Reachable(w) && c < |w.conns| && w.conns[c].serial < U8
    requires |Filter.OfKind(RESOURCE_UPDATE, w.conns[c].polled)| < U32
    ensures |Sessions(w)| == |w.conns|
    ensures Filter.OfKind(RESOURCE_UPDATE, w.conns[c].passed)
            == Filter.OfKind(RESOURCE_UPDATE, w.conns[c].polled)
            <= Filter.OfKind(RESOURCE_UPDATE, Sessions(w)[c].sent)
  {
    hide Reachable, Well;
    Delivery(w, c);
    ReachableWell(w);
    ConnOf(w, c);
  }

  lemma NumberedPrefix(a: seq<Message>, b: seq<Message>, base: nat)
    requires Filter.Numbered(a + b, base)
    ensures Filter.Numbered(a, base)
  {
    assert forall i | 0 <= i < |a| :: a[i] == (a + b)[i];
  }

  lemma WholeWindow(all: seq<Message>, passed: seq<Message>, base: nat)
    requires Filter.Window(all, passed, base) && base < U32
    ensures passed == all <==> all == [] || (base == 0 && |all| < U32)
  {
    if base == 0 {
      assert Filter.Skipped(base) == 0;
      assert |passed| == if |all| < U32 then |all| else U32 - 1;
    } else {
      assert Filter.Skipped(base) == U32 - base;
    }
  }

  // ---------------------------------------------------------- durable before visible

  // Every update a session was given, and so every one queued, on the wire or
  // in its client, shows what the file has held; and the file is what memory holds.
  lemma DurableBeforeVisible(w: World, c: nat, i: nat)
    requires Reachable(w) && c < |w.conns| == |Sessions(w)| && i < |Sessions(w)[c].sent|
    requires Sessions(w)[c].sent[i].kind == RESOURCE_UPDATE
    ensures Load(w.server.db.disk) == Some(w.server.db.accounts)
    ensures exists j :: 0 <= j < |w.server.db.history| && Held(Sessions(w)[c].sent[i], w.server.db.history[j])
  {
    hide Reachable, ClientWell, Orderly, Proper, Held, Transported;
    ReachableWell(w);
    ConnOf(w, c);
    var h := w.server.db.history;
    var at: seq<nat> :| StampedAt(Sessions(w)[c].sent, h, at);
    assert at[i] < |h|;
  }

  // Another tick would not wrap around 2^64.
  predicate Room(r: Resources) {
    r.wood + 10 < U64 && r.food + 10 < U64 && r.iron + 10 < U64
  }

  // The grant a tick made to the account of a uuid, if it made one, did not wrap.
  predicate GrantFits(a: Table, b: Table, uuid: string) {
    forall u | u in a && u in b && a[u].uuid == uuid && b[u].resources != a[u].resources :: Room(a[u].resources)
  }

  // No grant ever made to the account of a uuid wrapped.
  predicate NoOverflow(h: seq<Table>, uuid: string) {
    forall i | 0 < i < |h| :: GrantFits(h[i - 1], h[i], uuid)
  }

  predicate AtMost(a: Resources, b: Resources) {
    a.wood <= b.wood && a.food <= b.food && a.iron <= b.iron
  }

  lemma GrowsUp(a: Table, b: Table, u: string)
    requires Grows(a, b) && Kept(a, b) && u in a && GrantFits(a, b, a[u].uuid)
    ensures u in b && AtMost(a[u].resources, b[u].resources)
  {
  }

  lemma {:induction false} HistoryUp(h: seq<Table>, i: nat, j: nat, u: string)
    requires Chain(h) && Growing(h) && i <= j < |h| && u in h[i] && NoOverflow(h, h[i][u].uuid)
    ensures u in h[j] && h[j][u].uuid == h[i][u].uuid && AtMost(h[i][u].resources, h[j][u].resources)
    decreases j
  {
    hide Grows, GrantFits;
    if i < j {
      HistoryUp(h, i, j - 1, u);
      assert Grows(h[j - 1], h[j]) && Kept(h[j - 1], h[j]) && GrantFits(h[j - 1], h[j], h[i][u].uuid);
      GrowsUp(h[j - 1], h[j], u);
    }
  }

  // An account's resources never decrease from one entry of the file's history
  // to the next exactly when every grant made to it had room.
  lemma NeverShrinksIff(h: seq<Table>, u: string)
    requires Chain(h) && Growing(h) && h != [] && UniqueUuids(h[|h| - 1])
    requires u in h[|h| - 1] && h[|h| - 1][u].uuid != ""
    ensures NoOverflow(h, h[|h| - 1][u].uuid)
            <==> forall i | 0 < i < |h| && u in h[i - 1] ::
                   u in h[i] && AtMost(h[i - 1][u].resources, h[i][u].resources)
  {
    hide Grows, Kept, GrantFits, AtMost;
    forall i | 0 < i < |h|
      ensures GrantFits(h[i - 1], h[i], h[|h| - 1][u].uuid)
              <==> u in h[i - 1] ==> u in h[i] && AtMost(h[i - 1][u].resources, h[i][u].resources)
    {
      ChainKept(h, i - 1, |h| - 1);
      assert Grows(h[i - 1], h[i]) && Kept(h[i - 1], h[i]);
      ShrinksIff(h[i - 1], h[i], h[|h| - 1], u);
    }
  }

  // In every reachable state this decides it for the account file.
  lemma FileNeverShrinksIff(w: World, u: string)
    requires Reachable(w) && u in w.server.db.accounts && w.server.db.accounts[u].uuid != ""
    ensures var h := w.server.db.history;
            NoOverflow(h, w.server.db.accounts[u].uuid)
            <==> forall i | 0 < i < |h| && u in h[i - 1] ::
                   u in h[i] && AtMost(h[i - 1][u].resources, h[i][u].resources)
  {
    hide Reachable, Well, Growing, Chain, UniqueUuids, NoOverflow, AtMost;
    ReachableWell(w);
    FileOf(w);
    NeverShrinksIff(w.server.db.history, u);
  }

  lemma ShrinksIff(a: Table, b: Table, last: Table, u: string)
    requires Grows(a, b) && Kept(a, b) && Kept(a, last) && UniqueUuids(last) && u in last && last[u].uuid != ""
    ensures GrantFits(a, b, last[u].uuid) <==> u in a ==> u in b && AtMost(a[u].resources, b[u].resources)
  {
  }

  // A later table holds at least as much for the same uuid.
  lemma HeldUp(h: seq<Table>, i: nat, j: nat, m: Message, n: Message)
    requires Chain(h) && Growing(h) && NoOverflow(h, UuidOf(m)) && i <= j < |h| && UniqueUuids(h[|h| - 1])
    requires Held(m, h[i]) && Held(n, h[j]) && UuidOf(m) == UuidOf(n) != ""
    ensures AtMost(ResourcesOf(m), ResourcesOf(n))
  {
    hide Growing, NoOverflow, UuidOf, ResourcesOf;
    var u :| u in h[i] && h[i][u].uuid == UuidOf(m) && h[i][u].resources == ResourcesOf(m);
    var v :| v in h[j] && h[j][v].uuid == UuidOf(n) && h[j][v].resources == ResourcesOf(n);
    ChainKept(h, i, |h| - 1);
    ChainKept(h, j, |h| - 1);
    assert u == v;
    HistoryUp(h, i, j, u);
  }

  // The last table holds at least what any earlier one held for a message's uuid.
  lemma StillHeld(h: seq<Table>, j: nat, m: Message)
    requires Chain(h) && Growing(h) && NoOverflow(h, UuidOf(m)) && j < |h| && Held(m, h[j])
    ensures var t := h[|h| - 1];
            exists u :: u in t && t[u].uuid == UuidOf(m) && AtMost(ResourcesOf(m), t[u].resources)
  {
    hide Growing, NoOverflow, UuidOf, ResourcesOf, Chain;
    var u :| u in h[j] && h[j][u].uuid == UuidOf(m) && h[j][u].resources == ResourcesOf(m);
    ChainKept(h, j, |h| - 1);
    HistoryUp(h, j, |h| - 1, u);
  }

  // Unless a grant to the account concerned wrapped, nothing sent, and nothing a
  // client shows, exceeds what the file holds now for that uuid.
  lemma NeverAheadOfFile(w: World, c: nat, i: nat)
    requires Reachable(w) && c < |w.conns| == |Sessions(w)| && i < |Sessions(w)[c].sent|
    requires Sessions(w)[c].sent[i].kind == RESOURCE_UPDATE
    requires NoOverflow(w.server.db.history, UuidOf(Sessions(w)[c].sent[i]))
    ensures var m, t := Sessions(w)[c].sent[i], w.server.db.accounts;
            exists u :: u in t && t[u].uuid == UuidOf(m) && AtMost(ResourcesOf(m), t[u].resources)
  {
    hide Reachable, ConnsWell, Filing, Bindings, Counters, NoOverflow, UuidOf, ResourcesOf, Growing, Chain, Held;
    DurableBeforeVisible(w, c, i);
    ReachableWell(w);
    DurableParts(w.server.db);
    var m, h := Sessions(w)[c].sent[i], w.server.db.history;
    var j :| 0 <= j < |h| && Held(m, h[j]);
    StillHeld(h, j, m);
  }

  lemma ShownNeverAheadOfFile(w: World, c: nat)
    requires Reachable(w) && c < |w.conns| && NoOverflow(w.server.db.history, w.conns[c].client.uuid)
    requires w.conns[c].client.resources != NO_RESOURCES
    ensures var client, t := w.conns[c].client, w.server.db.accounts;
            && client.uuid != ""
            && exists u :: u in t && t[u].uuid == client.uuid && AtMost(client.resources, t[u].resources)
  {
    hide Reachable, Well, SentWell, Orderly, NoOverflow, UuidOf, ResourcesOf;
    ReachableWell(w);
    ConnOf(w, c);
    var client, polled := w.conns[c].client, w.conns[c].polled;
    VisibleComesFrom(polled, w.conns[c].atLogin, client.uuid);
    var p :| 0 <= p < |polled| && ShownBy(client.resources, client.uuid, polled[p]);
    assert (polled + client.queue)[p] == polled[p] == Sessions(w)[c].sent[p];
    NeverAheadOfFile(w, c, p);
  }

  // ------------------------------------------------------- what a client is shown

  // What a client shows is exactly the last update for its own uuid that passed
  // its filter since it entered the game.
  lemma ShowsLatestOwnUpdate(w: World, c: nat)
    requires Reachable(w) && c < |w.conns|
    ensures var conn := w.conns[c];
            && conn.client.resources == Visible(conn.polled, conn.atLogin, conn.client.uuid)
            && conn.passed == Filter.Passed(conn.polled)
            && (if conn.client.scene == Game then conn.atLogin <= |conn.polled| else conn.atLogin == |conn.polled|)
  {
    hide Reachable, Well, SentWell, Transported, Orderly;
    ReachableWell(w);
    ConnOf(w, c);
  }

  lemma PollUuid(conn: Conn, id: nat)
    requires ClientWell(conn, id) && conn.client.queue != [] && conn.client.uuid != "" && Proper(conn.client.queue[0])
    ensures Poll(conn.client).uuid == conn.client.uuid
  {
    hide Visible, Proper, UuidOf;
    if conn.client.queue[0].kind == LOGIN_RESULT {
      LoginHandled(conn, id);
    }
  }

  lemma PollResources(c: ClientState)
    requires c.queue != []
    ensures Poll(c).resources == c.resources
            || (c.scene == Game && ShownBy(Poll(c).resources, c.uuid, c.queue[0]))
  {
  }

  // A newly shown update was sent under a table at least as late as the one shown before.
  lemma LaterShown(v: SessionView, h: seq<Table>, before: Message, after: Message, p: nat, q: nat)
    requires Stamped(v.sent, h) && p <= q < |v.sent| && v.sent[p] == before && v.sent[q] == after
    requires before.kind == after.kind == RESOURCE_UPDATE && UuidOf(before) == UuidOf(after) != ""
    requires Chain(h) && Growing(h) && NoOverflow(h, UuidOf(before)) && h != [] && UniqueUuids(h[|h| - 1])
    ensures AtMost(ResourcesOf(before), ResourcesOf(after))
  {
    hide Growing, NoOverflow, UuidOf, ResourcesOf, Held, Chain, UniqueUuids;
    var at: seq<nat> :| StampedAt(v.sent, h, at);
    HeldUp(h, at[p], at[q], before, after);
  }

  // One poll shows nothing less than before.
  lemma PollShowsMore(v: SessionView, conn: Conn, h: seq<Table>)
    requires ConnWell(v, conn, h) && conn.client.queue != []
    requires Chain(h) && Growing(h) && NoOverflow(h, conn.client.uuid) && h != [] && UniqueUuids(h[|h| - 1])
    ensures var c := conn.client;
            AtMost(c.resources, Poll(c).resources) && (c.uuid != "" ==> Poll(c).uuid == c.uuid)
  {
    hide Proper, Poll, NoOverflow, Growing, Chain, UniqueUuids, UuidOf, ResourcesOf, Orderly, Stamped, Visible;
    var c, polled, q := conn.client, conn.polled, |conn.polled|;
    var m := c.queue[0];
    assert (polled + c.queue)[q] == m == v.sent[q];
    PollResources(c);
    if c.uuid != "" {
      PollUuid(conn, v.id);
    }
    if Poll(c).resources != c.resources && c.resources != NO_RESOURCES {
      VisibleComesFrom(polled, conn.atLogin, c.uuid);
      var p :| 0 <= p < |polled| && ShownBy(c.resources, c.uuid, polled[p]);
      assert (polled + c.queue)[p] == polled[p] == v.sent[p];
      LaterShown(v, h, polled[p], m, p, q);
    }
  }

  // Every event leaves the client at the end of connection c as it is, or is
  // one of that client's own.
  lemma OnlyOwnEvents(w: World, e: Event, c: nat)
    requires CanHappen(w, e) && c < |w.conns|
    ensures c < |Next(w, e).conns|
    ensures var before, after := w.conns[c].client, Next(w, e).conns[c].client;
            || after == before
            || (after.resources == before.resources && after.uuid == before.uuid)
            || (e == ClientPoll(c) && after == Poll(before))
  {
    hide Tick, OnLine, OnAccept, OnQueue, Boot, Poll;
  }

  lemma EventShowsMore(w: World, e: Event, c: nat)
    requires Well(w) && CanHappen(w, e) && c < |w.conns|
    requires NoOverflow(w.server.db.history, w.conns[c].client.uuid)
    ensures c < |Next(w, e).conns|
    ensures var before, after := w.conns[c].client, Next(w, e).conns[c].client;
            AtMost(before.resources, after.resources) && (before.uuid != "" ==> after.uuid == before.uuid)
  {
    hide Filing, Bindings, Counters, ConnsWell, ConnWell, Poll, NoOverflow, Next, Growing, Chain, UniqueUuids;
    OnlyOwnEvents(w, e, c);
    if e == ClientPoll(c) {
      assert ConnsWell(Sessions(w), w.conns, w.server.db.history);
      ConnOf(w, c);
      DurableParts(w.server.db);
      PollShowsMore(Sessions(w)[c], w.conns[c], w.server.db.history);
    }
  }

  lemma StepAt(ws: seq<World>, es: seq<Event>, k: nat)
    requires Behavior(ws, es) && k + 1 < |ws|
    ensures k < |es| && Well(ws[k]) && CanHappen(ws[k], es[k]) && ws[k + 1] == Next(ws[k], es[k])
  {
    hide Well, CanHappen, Next, Init;
    BehaviorWell(ws, es, k);
  }

  lemma OverflowPrefix(h: seq<Table>, longer: seq<Table>, uuid: string)
    requires NoOverflow(longer, uuid) && h <= longer
    ensures NoOverflow(h, uuid)
  {
    hide GrantFits;
    assert forall k | 0 <= k < |h| :: h[k] == longer[k];
  }

  // A client that knows no uuid shows nothing.
  lemma NothingShown(w: World, c: nat)
    requires Well(w) && c < |w.conns| && w.conns[c].client.uuid == ""
    ensures w.conns[c].client.resources == NO_RESOURCES
  {
    hide Well, SentWell, Transported, Orderly, UuidOf, ResourcesOf;
    ConnOf(w, c);
  }

  // Over a whole run what a client shows never decreases, unless a grant to its
  // own account wrapped, and a uuid once known never changes.
  lemma {:induction false} ShownNeverDecreases(ws: seq<World>, es: seq<Event>, i: nat, j: nat, c: nat)
    requires Behavior(ws, es) && i <= j < |ws| && c < |ws[i].conns|
    requires NoOverflow(ws[j].server.db.history, ws[i].conns[c].client.uuid)
    ensures c < |ws[j].conns|
    ensures AtMost(ws[i].conns[c].client.resources, ws[j].conns[c].client.resources)
    ensures ws[i].conns[c].client.uuid != "" ==> ws[j].conns[c].client.uuid == ws[i].conns[c].client.uuid
    decreases j
  {
    hide Behavior, Well, CanHappen, Next, NoOverflow;
    if i < j {
      StepAt(ws, es, j - 1);
      var w, e, uuid := ws[j - 1], es[j - 1], ws[i].conns[c].client.uuid;
      EventWell(w, e);
      OverflowPrefix(w.server.db.history, ws[j].server.db.history, uuid);
      ShownNeverDecreases(ws, es, i, j - 1, c);
      if uuid == "" {
        BehaviorWell(ws, es, i);
        NothingShown(ws[i], c);
        ConnsStay(w, e);
      } else {
        EventShowsMore(w, e, c);
      }
    }
  }

  lemma ConnsStay(w: World, e: Event)
    requires CanHappen(w, e)
    ensures |w.conns| <= |Next(w, e).conns|
  {
    hide Tick, OnLine, OnAccept, OnQueue, Boot, Poll;
  }

  // ------------------------------------------------------------- account identity

  lemma {:induction false} HistoryGrowsOver(ws: seq<World>, es: seq<Event>, i: nat, j: nat)
    requires Behavior(ws, es) && i <= j < |ws|
    ensures ws[i].server.db.history <= ws[j].server.db.history
    decreases j
  {
    hide Behavior, Well, CanHappen, Next;
    if i < j {
      HistoryGrowsOver(ws, es, i, j - 1);
      StepAt(ws, es, j - 1);
      EventWell(ws[j - 1], es[j - 1]);
    }
  }

  lemma FileOf(w: World)
    requires Well(w)
    ensures var db := w.server.db;
            && UniqueUuids(db.accounts) && Load(db.disk) == Some(db.accounts)
            && db.history != [] && db.history[|db.history| - 1] == db.accounts
            && Chain(db.history) && Growing(db.history)
  {
    hide ConnsWell, Filing, Bindings, Counters;
  }

  // Over every run, restarts included, a registered user keeps password and
  // uuid; non-empty uuids stay distinct; and the file always holds the table.
  lemma AccountsArePermanent(ws: seq<World>, es: seq<Event>, i: nat, j: nat, user: string)
    requires Behavior(ws, es) && i <= j < |ws| && user in ws[i].server.db.accounts
    ensures var before, after := ws[i].server.db.accounts, ws[j].server.db.accounts;
            && user in after && after[user].password == before[user].password
            && after[user].uuid == before[user].uuid
            && UniqueUuids(after) && Load(ws[j].server.db.disk) == Some(after)
  {
    hide Behavior, Well, UniqueUuids, Load, Chain;
    HistoryGrowsOver(ws, es, i, j);
    BehaviorWell(ws, es, i);
    BehaviorWell(ws, es, j);
    FileOf(ws[i]);
    FileOf(ws[j]);
    var h := ws[j].server.db.history;
    ChainKept(h, |ws[i].server.db.history| - 1, |h| - 1);
  }

  // A login with the registered password is answered with the registered uuid,
  // which the session is bound to; one with another password changes nothing at all.
  lemma LoginAnswers(s: ServerState, id: nat, user: string, pass: string, payload: Json.Json, drawn: string,
                     rehash: seq<string>)
    requires WellFormed(s) && id in s.filed && s.filed[id].Some? && user in s.db.accounts
    requires StringAt(payload, "id") == Some(user) && StringAt(payload, "password") == Some(pass)
    ensures var next, k := OnLogin(s, id, payload, drawn, rehash), s.filed[id].value;
            if s.db.accounts[user].password != pass then next == s
            else
              && next.db == s.db && next.filed == s.filed && !next.ended == !s.ended
              && next.sessions[k].uuid == s.db.accounts[user].uuid
              && next.sessions[k].sent == s.sessions[k].sent + [LoginResult(s.db.accounts[user].uuid)]
              && forall i | 0 <= i < |s.sessions| && i != k :: next.sessions[i] == s.sessions[i]
  {
    hide Serialize, LoginResult;
  }

  // Over every run, restarts included: whenever a name that was registered at
  // any earlier time logs in, and the login is not refused, it had its password
  // of that time, and the session it binds is posted its uuid of that time.
  lemma LoginsAgree(ws: seq<World>, es: seq<Event>, i: nat, j: nat, user: string)
    requires Behavior(ws, es) && i <= j < |es| && user in ws[i].server.db.accounts
    requires es[j].ServerLine? && CanHappen(ws[j], es[j])
    requires ValidLogin(ws[j].server, es[j].k, Uuid.Format(es[j].a, es[j].b), es[j].rehash)
    requires StringAt(NextMessage(ws[j].server, es[j].k).value.payload, "id") == Some(user)
    ensures var account, s, next := ws[i].server.db.accounts[user], ws[j].server, ws[j + 1].server;
            var id := s.sessions[es[j].k].id;
            && StringAt(NextMessage(s, es[j].k).value.payload, "password") == Some(account.password)
            && |next.sessions| == |s.sessions|
            && (id in s.filed ==>
                  && s.filed[id].Some? && s.filed[id].value < |s.sessions|
                  && var b := s.filed[id].value;
                     && next.sessions[b].uuid == account.uuid
                     && next.sessions[b].sent == s.sessions[b].sent + [LoginResult(account.uuid)])
  {
    hide Behavior, CanHappen, Next, OnLine, NextMessage, LoginResult, UniqueUuids, Load;
    var e := es[j];
    RunReaches(ws, es, j);
    AccountsArePermanent(ws, es, i, j, user);
    StepAt(ws, es, j);
    LoginReaches(ws[j], e.k, e.a, e.b, e.rehash);
  }

  lemma RunReaches(ws: seq<World>, es: seq<Event>, i: nat)
    requires Behavior(ws, es) && i <= |es|
    ensures |ws| == |es| + 1 && Reachable(ws[i])
  {
    hide CanHappen, Next, Init;
    assert Behavior(ws[..i + 1], es[..i]);
  }

  // A login under a new name registers it with the drawn uuid, replies with that
  // uuid and binds the session to it; the file then holds the account.
  lemma RegistrationAnswers(s: ServerState, id: nat, user: string, pass: string, payload: Json.Json, drawn: string,
                            rehash: seq<string>)
    requires WellFormed(s) && id in s.filed && s.filed[id].Some? && user !in s.db.accounts
    requires Sound(s.db) && Fresh(s.db.accounts, drawn) && IsOrder(rehash, s.db.accounts.Keys + {user})
    requires StringAt(payload, "id") == Some(user) && StringAt(payload, "password") == Some(pass)
    ensures var next, k := OnLogin(s, id, payload, drawn, rehash), s.filed[id].value;
            && next.db.accounts == s.db.accounts[user := Account(pass, drawn, NO_RESOURCES, map[])]
            && Sound(next.db) && Load(next.db.disk) == Some(next.db.accounts)
            && next.filed == s.filed && !next.ended == !s.ended
            && next.sessions[k].uuid == drawn
            && next.sessions[k].sent == s.sessions[k].sent + [LoginResult(drawn)]
            && forall i | 0 <= i < |s.sessions| && i != k :: next.sessions[i] == s.sessions[i]
  {
    hide Serialize, LoginResult, Sound, Load;
    AddUserSound(s.db, user, pass, drawn, rehash);
    SoundFile(AddUser(s.db, user, pass, drawn, rehash).value);
  }

  lemma SoundFile(db: Db)
    requires Sound(db)
    ensures Load(db.disk) == Some(db.accounts)
  {
  }

  // A login request is without any effect exactly when it lacks a field or has
  // a registered name with another password.
  lemma LoginRefusedIff(s: ServerState, id: nat, payload: Json.Json, drawn: string, rehash: seq<string>)
    requires WellFormed(s) && !s.ended
    ensures var user, pass := StringAt(payload, "id"), StringAt(payload, "password");
            OnLogin(s, id, payload, drawn, rehash) == s
            <==> user.None? || pass.None?
                 || (user.value in s.db.accounts && s.db.accounts[user.value].password != pass.value)
  {
    hide Serialize, LoginResult;
    var auth := Authenticate(s.db, payload, drawn, rehash);
    if auth.Some? && id in s.filed && s.filed[id].Some? {
      var k, next := s.filed[id].value, OnLogin(s, id, payload, drawn, rehash);
      assert |next.sessions[k].sent| == |s.sessions[k].sent| + 1;
    }
  }

  // A restart after a crash, at any moment, brings back the table as it was.
  lemma RestartRestores(w: World, users: seq<string>)
    requires Reachable(w) && CanHappen(w, Restart(users))
    ensures Next(w, Restart(users)).server.db.accounts == w.server.db.accounts
    ensures !Next(w, Restart(users)).server.ended
    ensures var next := Next(w, Restart(users));
            && next.conns == w.conns && Sessions(next) == Sessions(w) && next.server.sessions == []
            && next.server.nextId == 1 && next.server.filed == map[] && next.server.lastSeq == map[]
  {
    hide Reachable, ConnsWell, Filing, Bindings, Counters;
    ReachableWell(w);
  }

  // -------------------------------------------------------------- client identity

  lemma {:induction false} FirstLoginKept(a: seq<Message>, b: seq<Message>)
    requires LoginsSeen(a) == 1
    ensures FirstLogin(a + b) == FirstLogin(a)
  {
    Filter.OfKindAppend(LOGIN_RESULT, a, b);
  }

  lemma {:induction false} LastLoginAmong(ms: seq<Message>, uuid: string)
    requires forall m | m in Filter.OfKind(LOGIN_RESULT, ms) :: UuidOf(m) == uuid
    ensures LastLogin(ms) == if Filter.OfKind(LOGIN_RESULT, ms) == [] then "" else uuid
  {
    hide UuidOf;
    if ms != [] {
      var before, m := ms[..|ms| - 1], ms[|ms| - 1];
      assert forall x | x in Filter.OfKind(LOGIN_RESULT, before) :: x in Filter.OfKind(LOGIN_RESULT, ms);
      if m.kind == LOGIN_RESULT {
        assert m in Filter.OfKind(LOGIN_RESULT, ms);
      } else {
        LastLoginAmong(before, uuid);
      }
    }
  }

  // A client's uuid is empty until it has handled a login result, and then the
  // uuid of the first one sent on its session; its id is its session's. It is the
  // uuid the session is bound to exactly when the last result names the same one
  // as the first, and so when all do.
  lemma ClientIdentity(w: World, c: nat)
    requires Reachable(w) && c < |w.conns|
    ensures |Sessions(w)| == |w.conns|
    ensures var v, conn := Sessions(w)[c], w.conns[c];
            && conn.client.uuid == (if LoginsSeen(conn.polled) == 0 then "" else FirstLogin(v.sent))
            && (conn.polled != [] ==> conn.client.clientId == v.id)
            && v.uuid == LastLogin(v.sent)
            && (LoginsSeen(conn.polled) == 1 ==>
                  (conn.client.uuid == v.uuid <==> FirstLogin(v.sent) == LastLogin(v.sent)))
            && (LoginsSeen(conn.polled) == 1
                && (forall m | m in Filter.OfKind(LOGIN_RESULT, v.sent) :: UuidOf(m) == FirstLogin(v.sent))
                ==> conn.client.uuid == v.uuid)
  {
    hide Reachable, Well, ConnWell, UuidOf;
    ReachableWell(w);
    ConnOf(w, c);
    var v, conn := Sessions(w)[c], w.conns[c];
    IdentityParts(v, conn, w.server.db.history);
    var rest := v.sent[|conn.polled|..];
    assert v.sent == conn.polled + rest;
    if LoginsSeen(conn.polled) == 1 {
      FirstLoginKept(conn.polled, rest);
      Filter.OfKindAppend(LOGIN_RESULT, conn.polled, rest);
      if forall m | m in Filter.OfKind(LOGIN_RESULT, v.sent) :: UuidOf(m) == FirstLogin(v.sent) {
        LastLoginAmong(v.sent, FirstLogin(v.sent));
      }
    }
  }

  lemma IdentityParts(v: SessionView, conn: Conn, h: seq<Table>)
    requires ConnWell(v, conn, h)
    ensures conn.polled <= v.sent && v.uuid == LastLogin(v.sent) && conn.client.uuid == FirstLogin(conn.polled)
    ensures conn.polled != [] ==> conn.client.clientId == v.id
  {
    hide Orderly, Proper, Stamped, Visible, UuidOf, Filter.OfKind;
  }

  lemma ScenesGoOn(w: World, e: Event, c: nat)
    requires CanHappen(w, e) && c < |w.conns|
    ensures c < |Next(w, e).conns|
    ensures var before, after := w.conns[c].client, Next(w, e).conns[c].client;
            || after.scene == before.scene
            || (e == ClientFrame(c) && before.uuid != "" && before.queue == [] && after.scene == Game)
  {
    hide Tick, OnLine, OnAccept, OnQueue, Boot, Poll, TakeLine;
    if e == ClientLine(c) || e == ClientPoll(c) {
      CatchingUp.ScenesStay(w.conns[c].client);
    }
  }

  // A client is at the game scene only with a uuid, and once there it stays.
  lemma {:induction false} GameIsForGood(ws: seq<World>, es: seq<Event>, i: nat, j: nat, c: nat)
    requires Behavior(ws, es) && i <= j < |ws| && c < |ws[i].conns|
    ensures c < |ws[j].conns|
    ensures ws[i].conns[c].client.scene == Game ==> ws[j].conns[c].client.scene == Game
    ensures ws[j].conns[c].client.scene == Game ==> ws[j].conns[c].client.uuid != ""
    decreases j
  {
    hide Behavior, Well, CanHappen, Next;
    if i < j {
      StepAt(ws, es, j - 1);
      GameIsForGood(ws, es, i, j - 1, c);
      ScenesGoOn(ws[j - 1], es[j - 1], c);
    }
    BehaviorWell(ws, es, j);
    if ws[j].conns[c].client.scene == Game {
      GameHasUuid(ws[j], c);
    }
  }

  lemma GameHasUuid(w: World, c: nat)
    requires Well(w) && c < |w.conns| && w.conns[c].client.scene == Game
    ensures w.conns[c].client.uuid != ""
  {
    hide Well, SentWell, Transported, Orderly;
    ConnOf(w, c);
  }

  // No client ever fails on a message of the server.
  lemma ClientsNeverThrow(w: World, c: nat)
    requires Reachable(w) && c < |w.conns|
    ensures w.conns[c].client.alive
  {
    hide Reachable, Well, SentWell, Transported, Orderly;
    ReachableWell(w);
    ConnOf(w, c);
  }

  // --------------------------------------------------------- when the server ends

  // The message session k is about to handle, if its line is one.
  function NextMessage(s: ServerState, k: nat): Option<Message>
    requires k < |s.sessions| && Framing.HasLine(s.sessions[k].input.buffer)
  {
    Parse(Framing.StripCr(Framing.FirstLine(s.sessions[k].input.buffer)))
  }

  // The line session k is about to handle is a login that is not refused.
  predicate ValidLogin(s: ServerState, k: nat, drawn: string, rehash: seq<string>)
    requires k < |s.sessions| && Framing.HasLine(s.sessions[k].input.buffer)
  {
    var m := NextMessage(s, k);
    m.Some? && m.value.kind == LOGIN_REQUEST && Authenticate(s.db, m.value.payload, drawn, rehash).Some?
  }

  // No session is filed under the id of the one that logs in: getSession makes
  // a null entry.
  predicate NullLogin(s: ServerState, k: nat, drawn: string, rehash: seq<string>)
    requires k < |s.sessions| && Framing.HasLine(s.sessions[k].input.buffer)
  {
    ValidLogin(s, k, drawn, rehash) && (s.sessions[k].id !in s.filed || s.filed[s.sessions[k].id].None?)
  }

  // In a reachable state no tick ever throws or meets a null session; besides a
  // crash, the process only ends by a login on a session nobody is filed under.
  lemma EndsOnlyByNullLogin(w: World, e: Event)
    requires Reachable(w) && !w.server.ended && CanHappen(w, e)
    ensures Next(w, e).server.ended
            <==> e.Halt? || (e.ServerLine? && NullLogin(w.server, e.k, Uuid.Format(e.a, e.b), e.rehash))
  {
    hide Reachable, Well;
    ReachableWell(w);
    match e
    case TickAll(order) => TickWell(w, order);
    case ServerLine(k, a, b, rehash) => LineEnds(w.server, k, Uuid.Format(a, b), rehash);
    case _ =>
  }

  lemma LineEnds(s: ServerState, k: nat, drawn: string, rehash: seq<string>)
    requires WellFormed(s) && !s.ended && k < |s.sessions| && Framing.HasLine(s.sessions[k].input.buffer)
    ensures OnLine(s, k, drawn, rehash).ended <==> NullLogin(s, k, drawn, rehash)
  {
    hide Parse, Authenticate, Serialize, LoginResult;
  }

  // What a session is after a login bound it and the reply was posted.
  function Answered(v: SessionView, uuid: string): SessionView {
    WriteQueue.Apply(v.(uuid := uuid), Post(LoginResult(uuid)))
  }

  // What a valid login on session k does to the sessions, its own line apart.
  lemma LoginBinds(s: ServerState, k: nat, drawn: string, rehash: seq<string>)
    requires WellFormed(s) && k < |s.sessions| && Framing.HasLine(s.sessions[k].input.buffer)
    requires ValidLogin(s, k, drawn, rehash)
    requires s.sessions[k].id in s.filed && s.filed[s.sessions[k].id].Some?
    ensures var v, j := s.sessions[k], s.filed[s.sessions[k].id].value;
            var taken := s.sessions[k := v.(input := Framing.Do(v.input, Framing.Take))];
            var uuid := Authenticate(s.db, NextMessage(s, k).value.payload, drawn, rehash).value.1;
            OnLine(s, k, drawn, rehash).sessions == taken[j := Answered(taken[j], uuid)]
  {
    hide Parse, Authenticate, Serialize, LoginResult;
  }

  // A valid login read from session k binds and answers the latest session of
  // its id, as long as that is filed: that is k itself exactly when no 256
  // sessions have been accepted since. With none filed the process ends.
  lemma LoginReaches(w: World, k: nat, a: nat, b: nat, rehash: seq<string>)
    requires Reachable(w) && CanHappen(w, ServerLine(k, a, b, rehash))
    requires ValidLogin(w.server, k, Uuid.Format(a, b), rehash)
    ensures var s, next := w.server, Next(w, ServerLine(k, a, b, rehash)).server;
            var id, uuid := s.sessions[k].id,
                            Authenticate(s.db, NextMessage(s, k).value.payload, Uuid.Format(a, b), rehash).value.1;
            && |next.sessions| == |s.sessions|
            && (next.ended <==> id !in s.filed)
            && (id in s.filed ==>
                  && s.filed[id].Some? && k <= s.filed[id].value < |s.sessions|
                  && var j := s.filed[id].value;
                     next.sessions[j].uuid == uuid && next.sessions[j].sent == s.sessions[j].sent + [LoginResult(uuid)])
            && (next.sessions[k].sent == s.sessions[k].sent + [LoginResult(uuid)]
                <==> id in s.filed && |s.sessions| <= k + U8)
            && (|s.sessions| > k + U8 || id !in s.filed ==>
                  next.sessions[k].uuid == s.sessions[k].uuid && next.sessions[k].sent == s.sessions[k].sent)
  {
    hide Reachable, Well, OnLine, Authenticate, NextMessage, Serialize, LoginResult, WellFormed;
    var s, id, drawn := w.server, w.server.sessions[k].id, Uuid.Format(a, b);
    ReachableWell(w);
    WellFormedOf(w);
    EndsOnlyByNullLogin(w, ServerLine(k, a, b, rehash));
    EntryOf(w, id);
    if id in s.filed {
      LoginBinds(s, k, drawn, rehash);
      LatestOfId(s, s.filed[id].value, k);
    } else {
      NullLoginSends(s, k, drawn, rehash);
    }
  }

  lemma EntryOf(w: World, id: nat)
    requires Well(w) && !w.server.ended
    ensures Ids(w.server) && (id in w.server.filed ==> w.server.filed[id].Some? && Entry(w.server, id))
  {
    hide ConnsWell, Durable, Bindings, Counters;
  }

  lemma NullLoginSends(s: ServerState, k: nat, drawn: string, rehash: seq<string>)
    requires WellFormed(s) && k < |s.sessions| && Framing.HasLine(s.sessions[k].input.buffer)
    requires s.sessions[k].id !in s.filed
    ensures var v := s.sessions[k];
            OnLine(s, k, drawn, rehash).sessions
            == s.sessions[k := v.(input := Framing.Do(v.input, Framing.Take))]
  {
    hide Parse, Authenticate, Serialize, LoginResult;
  }

  // Filed or not: a valid login leaves every account as it was, and adds the one
  // it names if that is new.
  lemma LoginAccounts(w: World, k: nat, a: nat, b: nat, rehash: seq<string>)
    requires Reachable(w) && CanHappen(w, ServerLine(k, a, b, rehash)) && !Refused(w.server, k)
    ensures var t, p := w.server.db.accounts, NextMessage(w.server, k).value.payload;
            var user, pass := StringAt(p, "id").value, StringAt(p, "password").value;
            Next(w, ServerLine(k, a, b, rehash)).server.db.accounts
            == if user in t then t else t[user := Account(pass, Uuid.Format(a, b), NO_RESOURCES, map[])]
  {
    hide Reachable, Well, Parse, Serialize, LoginResult, Uuid.Format;
    ReachableWell(w);
    WellFormedOf(w);
  }

  // A line a session sends is refused when it is no message, or of another type
  // than a login, or lacks a field, or has a registered name with another password.
  predicate Refused(s: ServerState, k: nat)
    requires k < |s.sessions| && Framing.HasLine(s.sessions[k].input.buffer)
  {
    var m := NextMessage(s, k);
    || m.None? || m.value.kind != LOGIN_REQUEST
    || StringAt(m.value.payload, "id").None? || StringAt(m.value.payload, "password").None?
    || (var user := StringAt(m.value.payload, "id").value;
        user in s.db.accounts && s.db.accounts[user].password != StringAt(m.value.payload, "password").value)
  }

  lemma RefusedOrValid(s: ServerState, k: nat, drawn: string, rehash: seq<string>)
    requires k < |s.sessions| && Framing.HasLine(s.sessions[k].input.buffer)
    ensures Refused(s, k) <==> !ValidLogin(s, k, drawn, rehash)
  {
    hide NextMessage;
  }

  // Session k without its first line.
  function LineGone(s: ServerState, k: nat): ServerState
    requires k < |s.sessions| && Framing.HasLine(s.sessions[k].input.buffer)
  {
    var v := s.sessions[k];
    var line, rest := Framing.FirstLine(v.input.buffer), Framing.AfterLine(v.input.buffer);
    s.(sessions := s.sessions[k := v.(input := Framing.Input(rest, v.input.received, v.input.lines + [line]))])
  }

  // In a reachable state a line has no effect but that it is gone if and only
  // if it is refused. Whatever the line, every session goes on being read, or
  // not, as before, and no entry is taken out.
  lemma LineIgnoredIff(w: World, k: nat, a: nat, b: nat, rehash: seq<string>)
    requires Reachable(w) && CanHappen(w, ServerLine(k, a, b, rehash))
    ensures var s, next := w.server, Next(w, ServerLine(k, a, b, rehash));
            && next.past == w.past && next.conns == w.conns
            && (next.server == LineGone(s, k) <==> Refused(s, k))
            && |next.server.sessions| == |s.sessions|
            && (forall i | 0 <= i < |s.sessions| :: next.server.sessions[i].reading == s.sessions[i].reading)
            && forall id | id in s.filed :: id in next.server.filed && next.server.filed[id] == s.filed[id]
  {
    hide Reachable, Well, OnLine, Authenticate, NextMessage, Serialize, LoginResult, WellFormed;
    var s, drawn := w.server, Uuid.Format(a, b);
    ReachableWell(w);
    WellFormedOf(w);
    RefusedOrValid(s, k, drawn, rehash);
    if Refused(s, k) {
      RefusedLine(s, k, drawn, rehash);
    } else {
      LoginReaches(w, k, a, b, rehash);
      EntryOf(w, s.sessions[k].id);
      ValidLine(s, k, drawn, rehash);
    }
  }

  lemma RefusedLine(s: ServerState, k: nat, drawn: string, rehash: seq<string>)
    requires WellFormed(s) && k < |s.sessions| && Framing.HasLine(s.sessions[k].input.buffer) && Refused(s, k)
    ensures OnLine(s, k, drawn, rehash) == LineGone(s, k)
  {
    hide Parse;
  }

  lemma ValidLine(s: ServerState, k: nat, drawn: string, rehash: seq<string>)
    requires WellFormed(s) && k < |s.sessions| && Framing.HasLine(s.sessions[k].input.buffer)
    requires ValidLogin(s, k, drawn, rehash)
    requires s.sessions[k].id in s.filed ==> s.filed[s.sessions[k].id].Some?
    ensures var next := OnLine(s, k, drawn, rehash);
            && |next.sessions| == |s.sessions|
            && (forall i | 0 <= i < |s.sessions| :: next.sessions[i].reading == s.sessions[i].reading)
            && (forall id | id in s.filed :: id in next.filed && next.filed[id] == s.filed[id])
            && (s.sessions[k].id in s.filed ==>
                  var j := s.filed[s.sessions[k].id].value; |next.sessions[j].sent| == |s.sessions[j].sent| + 1)
  {
    hide Parse, Authenticate, Serialize, LoginResult;
  }

  // While no id has come round again, a session handles no such login before a
  // disconnect callback of its own has run; a reading session that has not
  // failed is the one filed under its id.
  lemma FirstSessionsAreSafe(w: World, k: nat, a: nat, b: nat, rehash: seq<string>)
    requires Reachable(w) && |w.server.sessions| <= U8
    requires CanHappen(w, ServerLine(k, a, b, rehash)) && !w.server.sessions[k].failed
    ensures var id := w.server.sessions[k].id; id in w.server.filed && w.server.filed[id] == Some(k)
    ensures !Next(w, ServerLine(k, a, b, rehash)).server.ended
  {
    hide Reachable, ConnsWell, Durable, Bindings, Counters, OnLine, NullLogin;
    ReachableWell(w);
    assert Live(w.server.sessions[k]);
    assert !NullLogin(w.server, k, Uuid.Format(a, b), rehash) by {
      FiledNotNull(w.server, k, Uuid.Format(a, b), rehash);
    }
    EndsOnlyByNullLogin(w, ServerLine(k, a, b, rehash));
  }

  lemma FiledNotNull(s: ServerState, k: nat, drawn: string, rehash: seq<string>)
    requires k < |s.sessions| && Framing.HasLine(s.sessions[k].input.buffer)
    requires s.sessions[k].id in s.filed && s.filed[s.sessions[k].id].Some?
    ensures !NullLogin(s, k, drawn, rehash)
  {
  }

  // ---------------------------------------------------------------- id allocation

  // The n-th accept of a process gets id (n + 1) mod 256, so any 256 consecutive
  // accepts get distinct ids, and the first to share one are 256 apart.
  lemma IdsGoRound(w: World, i: nat, j: nat)
    requires Reachable(w) && i < j < |w.server.sessions|
    ensures w.server.sessions[i].id == (i + 1) % U8 && w.server.nextId == (|w.server.sessions| + 1) % U8
    ensures w.server.sessions[i].id == w.server.sessions[j].id <==> (j - i) % U8 == 0
  {
    hide Reachable, ConnsWell, Durable, Bindings, Counters, Entry;
    ReachableWell(w);
    SameId(i, j);
  }

  lemma SameId(i: nat, j: nat)
    requires i < j
    ensures (i + 1) % U8 == (j + 1) % U8 <==> (j - i) % U8 == 0
  {
    var q, r := (i + 1) / U8, (i + 1) % U8;
    var q', r' := (j + 1) / U8, (j + 1) % U8;
    assert j - i == U8 * (q' - q) + (r' - r);
    if (j - i) % U8 == 0 {
      var d := (j - i) / U8;
      assert j + 1 == U8 * (q + d) + r;
    }
  }

  // The accept after 256 others reuses the id of the session 256 before it. It
  // takes over the entry, if there still is one, and inherits what that session
  // itself inherited plus every update it was sent, disconnected or not.
  lemma ReusedIdInherits(w: World)
    requires Reachable(w) && CanHappen(w, Connect) && |w.server.sessions| >= U8
    ensures var s, prior, next := w.server, |w.server.sessions| - U8, Next(w, Connect);
            var id := s.sessions[prior].id;
            && |w.conns| == |w.past| + |s.sessions| && |next.conns| == |w.conns| + 1
            && s.nextId == id && next.server.filed == s.filed[id := Some(|s.sessions|)]
            && next.conns[|w.conns|].base == (w.conns[|w.past| + prior].base + Updates(s.sessions[prior])) % U32
  {
    hide Reachable, ServerWell, ConnsWell, Serialize, Counter, Updates;
    ReachableWell(w);
    WellSizes(w);
    PriorCounter(w.server, Mine(w));
  }

  lemma PriorCounter(s: ServerState, mine: seq<Conn>)
    requires ServerWell(s, mine) && |s.sessions| >= U8
    ensures var prior := |s.sessions| - U8;
            && prior < |mine| && s.nextId == s.sessions[prior].id
            && Counter(s.lastSeq, s.nextId) == (mine[prior].base + Updates(s.sessions[prior])) % U32
  {
    hide Durable, Bindings, Entry, Counter, Updates;
    SameId(|s.sessions| - U8, |s.sessions|);
    assert CounterOf(s, mine, |s.sessions| - U8);
  }

  lemma WellSizes(w: World)
    requires Well(w)
    ensures |w.conns| == |w.past| + |w.server.sessions| && |Mine(w)| == |w.server.sessions|
    ensures forall k | 0 <= k < |Mine(w)| :: Mine(w)[k] == w.conns[|w.past| + k]
    ensures ServerWell(w.server, Mine(w))
  {
    hide ConnWell, ServerWell;
  }

  // The first update of a session carries one more than the counter it inherited.
  lemma FirstNumberAfterBase(w: World, c: nat)
    requires Reachable(w) && c < |w.conns| == |Sessions(w)|
    requires Filter.OfKind(RESOURCE_UPDATE, Sessions(w)[c].sent) != []
    ensures Filter.OfKind(RESOURCE_UPDATE, Sessions(w)[c].sent)[0].sequence == (w.conns[c].base + 1) % U32
  {
    hide Reachable, Well, Orderly, Transported, ClientWell, Proper, Stamped;
    ReachableWell(w);
    ConnOf(w, c);
  }

  // It stays so: of two sessions of one process that share an id one round
  // apart, the later started from what the earlier started from plus every
  // update the earlier was ever sent, and its first update goes on from there.
  lemma RoundToRound(w: World, k: nat)
    requires Reachable(w) && k + U8 < |w.server.sessions|
    ensures |w.conns| == |w.past| + |w.server.sessions|
    ensures var from := w.conns[|w.past| + k].base + Updates(w.server.sessions[k]);
            var updates := Filter.OfKind(RESOURCE_UPDATE, w.server.sessions[k + U8].sent);
            && w.conns[|w.past| + k + U8].base == from % U32
            && (updates != [] ==> updates[0].sequence == (from + 1) % U32)
  {
    hide Reachable, ConnsWell, Durable, Bindings, Filing, Updates;
    ReachableWell(w);
    WellSizes(w);
    assert CounterOf(w.server, Mine(w), k);
    assert Sessions(w)[|w.past| + k + U8] == w.server.sessions[k + U8];
    if Filter.OfKind(RESOURCE_UPDATE, w.server.sessions[k + U8].sent) != [] {
      FirstNumberAfterBase(w, |w.past| + k + U8);
    }
  }

  // ---------------------------------------------------------------------- wires

  // In every reachable state every session has at most one write in flight, and
  // its wire is a prefix of the texts of everything it was given to send.
  lemma WiresAreOrderly(w: World, c: nat)
    requires Reachable(w) && c < |Sessions(w)|
    ensures Orderly(Sessions(w)[c]) && Sessions(w)[c].inFlight <= 1
    ensures Sessions(w)[c].wire <= Concat(Framing.Texts(Sessions(w)[c].sent))
  {
    hide Reachable, Well, SentWell, Transported, ClientWell;
    ReachableWell(w);
    assert |Sessions(w)| == |w.conns| by { SessionsMatch(w); }
    ConnOf(w, c);
    WireIsPrefix(Sessions(w)[c]);
  }

  lemma SessionsMatch(w: World)
    requires Well(w)
    ensures |Sessions(w)| == |w.conns|
  {
    hide ConnWell;
  }
}
