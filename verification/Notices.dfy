// What a tick posts: to every session that is filed and logged in exactly one
// resource update, and to no other session anything.
module Notices {
  import opened Prelude
  import opened Protocol
  import opened WriteQueue
  import opened ServerSpec
  import opened Accounts
  import opened Ticks
  import opened Worlds
  import opened Invariant
  import opened Preservation

  // Each entry leads to a session that carries the entry's id.
  predicate OwnIds(st: ServerState) {
    forall id | id in st.filed && st.filed[id].Some? ::
      st.filed[id].value < |st.sessions| && st.sessions[st.filed[id].value].id == id
  }

  // A state a tick can go through from end to end.
  ghost predicate Sane(st: ServerState) {
    TickSafe(st) && !st.ended && UniqueUuids(st.db.accounts) && Typed(st.db.accounts) && OwnIds(st)
  }

  // One loop iteration on the session filed under id.
  lemma PostsOne(st: ServerState, id: nat, k: nat, u: string)
    requires Sane(st) && id in st.filed && st.filed[id] == Some(k) && k < |st.sessions|
    requires u in st.db.accounts && st.db.accounts[u].uuid == st.sessions[k].uuid != ""
    ensures var number := (Counter(st.lastSeq, id) + 1) % U32;
            TickOne(st, id).sessions
            == st.sessions[k := WriteQueue.Apply(st.sessions[k], Post(
                 ResourceUpdate(st.sessions[k].uuid, number, Repeat10(st.db.accounts[u].resources, 1))))]
  {
    hide Serialize, ResourceUpdate, TickOne, Typed, UniqueUuids, OwnIds, Counter, Bump;
    assert GrantsTo(st, id, u);
    TickOneSession(st, id, u);
    CounterBump(st.lastSeq, id, id);
    RepeatOnce(st.db.accounts[u].resources, 0);
  }

  // It leaves every other session and every other id's counter alone.
  lemma PostsToNoOther(st: ServerState, id: nat, k: nat, other: nat)
    requires Sane(st) && id in st.filed && k < |st.sessions| && other != id
    requires st.filed[id] != Some(k) || st.sessions[k].uuid == ""
    ensures WellFormed(TickOne(st, id)) && |TickOne(st, id).sessions| == |st.sessions|
    ensures TickOne(st, id).sessions[k] == st.sessions[k]
    ensures Counter(TickOne(st, id).lastSeq, other) == Counter(st.lastSeq, other)
  {
    hide Serialize, ResourceUpdate, TickOne, Typed, UniqueUuids, OwnIds, Counter, Bump;
    TickOneWellFormed(st, id);
    if Bound(st, id) == "" {
      TickOneIdle(st, id);
    } else {
      var u :| u in st.db.accounts && st.db.accounts[u].uuid == Bound(st, id);
      assert GrantsTo(st, id, u);
      TickOneSession(st, id, u);
      CounterBump(st.lastSeq, id, other);
    }
  }

  lemma StaysSane(st: ServerState, id: nat)
    requires Sane(st) && id in st.filed
    ensures Sane(TickOne(st, id)) && TickOne(st, id).filed == st.filed
    ensures |TickOne(st, id).sessions| == |st.sessions|
    ensures forall k | 0 <= k < |st.sessions| :: TickOne(st, id).sessions[k].uuid == st.sessions[k].uuid
    ensures forall i :: Bound(TickOne(st, id), i) == Bound(st, i)
    ensures TickOne(st, id).db.accounts == Granted(st.db.accounts, Bound(st, id), 1)
  {
    hide TickOne, Typed, UniqueUuids, Granted, Known;
    TickOneWellFormed(st, id);
    TickOneGrants(st, id);
    TickOneSafe(st, id);
    TickBound(st, id);
    TickOneIds(st, id);
  }

  lemma TickOneIds(st: ServerState, id: nat)
    requires WellFormed(st) && id in st.filed
    ensures |TickOne(st, id).sessions| == |st.sessions|
    ensures forall k | 0 <= k < |st.sessions| :: TickOne(st, id).sessions[k].id == st.sessions[k].id
  {
    hide Serialize;
  }

  // A session that no visited entry leads to, or that is not logged in, is sent nothing.
  lemma {:induction false} TickSilent(st: ServerState, order: seq<nat>, k: nat)
    requires Sane(st) && k < |st.sessions| && forall id | id in order :: id in st.filed
    requires st.sessions[k].uuid == "" || forall id | id in order :: st.filed[id] != Some(k)
    ensures |Tick(st, order).sessions| == |st.sessions| && Tick(st, order).sessions[k] == st.sessions[k]
    decreases |order|
  {
    hide Sane, TickOne;
    assert WellFormed(st) by { SaneParts(st); }
    if order != [] && !st.ended {
      var id := order[0];
      assert id in order;
      PostsToNoOther(st, id, k, id + 1);
      StaysSane(st, id);
      TickSilent(TickOne(st, id), order[1..], k);
    }
  }

  lemma SaneParts(st: ServerState)
    requires Sane(st)
    ensures WellFormed(st) && !st.ended
    ensures forall i, j | i in st.filed && j in st.filed && st.filed[i].Some? && st.filed[i] == st.filed[j] :: i == j
  {
  }

  // The session under the i-th visited entry is sent one update: for its own
  // uuid, with the next number of its id, and with the account's resources as
  // they are once it and the sessions of the same account before it had their grant.
  lemma {:induction false} TickPosts(st: ServerState, order: seq<nat>, i: nat, k: nat, u: string)
    requires Sane(st) && (forall id | id in order :: id in st.filed)
    requires forall a, b | 0 <= a < b < |order| :: order[a] != order[b]
    requires i < |order| && order[i] in st.filed && st.filed[order[i]] == Some(k) && k < |st.sessions|
    requires u in st.db.accounts && st.db.accounts[u].uuid == st.sessions[k].uuid != ""
    ensures WellFormed(st) && |Tick(st, order).sessions| == |st.sessions|
    ensures var uuid, number := st.sessions[k].uuid, (Counter(st.lastSeq, order[i]) + 1) % U32;
            Tick(st, order).sessions[k]
            == WriteQueue.Apply(st.sessions[k], Post(ResourceUpdate(uuid, number,
                 Repeat10(st.db.accounts[u].resources, CountIn(st, order[..i + 1], uuid)))))
    decreases |order|
  {
    hide Sane, TickOne, Serialize, ResourceUpdate, Repeat10, Counter, WriteQueue.Apply, Granted, Bound, WellFormed;
    SaneParts(st);
    var id, rest, mid, uuid := order[0], order[1..], TickOne(st, order[0]), st.sessions[k].uuid;
    assert id in order;
    StaysSane(st, id);
    assert order[..i + 1][1..] == rest[..i];
    if i == 0 {
      PostsOne(st, id, k, u);
      TickSilent(mid, rest, k);
      BoundHere(st, id, k);
      assert CountIn(st, order[..1], uuid) == 1 + CountIn(st, [], uuid);
    } else {
      PostsToNoOther(st, id, k, order[i]);
      GrantedRow(st, id, u, CountIn(st, rest[..i], uuid));
      TickPosts(mid, rest, i - 1, k, u);
      CountInSame(st, mid, rest[..i], uuid);
    }
  }

  lemma BoundHere(st: ServerState, id: nat, k: nat)
    requires id in st.filed && st.filed[id] == Some(k) && k < |st.sessions|
    ensures Bound(st, id) == st.sessions[k].uuid
  {
  }

  lemma GrantedRow(st: ServerState, id: nat, u: string, n: nat)
    requires u in st.db.accounts && st.db.accounts[u].uuid != ""
    ensures var t, g := st.db.accounts, Granted(st.db.accounts, Bound(st, id), 1);
            && u in g && g[u].uuid == t[u].uuid
            && Repeat10(g[u].resources, n)
               == Repeat10(t[u].resources, (if Bound(st, id) == t[u].uuid then 1 else 0) + n)
  {
    var r := st.db.accounts[u].resources;
    RepeatOnce(r, 0);
    RepeatOnce(r, n);
  }

  lemma WellIsSane(w: World)
    requires Well(w) && !w.server.ended
    ensures Sane(w.server)
  {
    hide ConnsWell, Counters, CounterOf, Live;
    WellIsFormed(w.server, Mine(w));
    DurableParts(w.server.db);
  }

  // In every reachable state: a tick sends every session filed and logged in
  // its one update, and every other session, of this process or a past one, nothing.
  lemma TickNotifies(w: World, order: seq<nat>, k: nat)
    requires Reachable(w) && CanHappen(w, TickAll(order)) && k < |w.server.sessions|
    ensures var s, next := w.server, Next(w, TickAll(order));
            var v := s.sessions[k];
            && |next.server.sessions| == |s.sessions| && next.past == w.past && next.conns == w.conns
            && next.server.filed == s.filed && !next.server.ended
            && if v.id in s.filed && s.filed[v.id] == Some(k) && v.uuid != "" then
                 exists i, u :: 0 <= i < |order| && order[i] == v.id
                   && u in s.db.accounts && s.db.accounts[u].uuid == v.uuid
                   && next.server.sessions[k] == WriteQueue.Apply(v, Post(ResourceUpdate(
                        v.uuid, (Counter(s.lastSeq, v.id) + 1) % U32,
                        Repeat10(s.db.accounts[u].resources, CountIn(s, order[..i + 1], v.uuid)))))
               else next.server.sessions[k] == v
  {
    hide Reachable, Well, Sane, Tick, Serialize, ResourceUpdate, Repeat10, Counter, WriteQueue.Apply, CountIn;
    ReachableWell(w);
    WellIsSane(w);
    TickWell(w, order);
    var s := w.server;
    var v := s.sessions[k];
    if v.id in s.filed && s.filed[v.id] == Some(k) && v.uuid != "" {
      var i :| 0 <= i < |order| && order[i] == v.id;
      var u := OwnerOf(s, v.id);
      BoundHere(s, v.id, k);
      TickPosts(s, order, i, k, u);
    } else {
      FiledUnderItsId(s, k);
      TickSilent(s, order, k);
    }
  }

  lemma FiledUnderItsId(st: ServerState, k: nat)
    requires Sane(st) && k < |st.sessions|
    ensures forall id | id in st.filed && st.filed[id] == Some(k) :: id == st.sessions[k].id
  {
  }

  lemma OwnerOf(st: ServerState, id: nat) returns (u: string)
    requires Sane(st) && id in st.filed && Bound(st, id) != ""
    ensures u in st.db.accounts && st.db.accounts[u].uuid == Bound(st, id)
  {
    u :| u in st.db.accounts && st.db.accounts[u].uuid == Bound(st, id);
  }
}
