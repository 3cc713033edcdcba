// The resource tick as a whole: what it grants, that the iteration orders of
// both hash tables do not matter, and when it can run to its end.
module Ticks {
  import opened Prelude
  import opened Protocol
  import opened WriteQueue
  import opened Accounts
  import opened ServerSpec

  ghost predicate Known(t: Table, uuid: string) {
    exists u :: u in t && t[u].uuid == uuid
  }

  // The uuid of the session filed under an id; empty when there is none.
  function Bound(st: ServerState, id: nat): string {
    if id in st.filed && st.filed[id].Some? && st.filed[id].value < |st.sessions|
    then st.sessions[st.filed[id].value].uuid
    else ""
  }

  // No null entry, and no session bound to a uuid the table does not have.
  ghost predicate TickSafe(st: ServerState) {
    && WellFormed(st)
    && forall id | id in st.filed ::
         st.filed[id].Some? && (Bound(st, id) == "" || Known(st.db.accounts, Bound(st, id)))
  }

  ghost predicate Listing(order: seq<nat>, ids: set<nat>) {
    && (forall i, j | 0 <= i < j < |order| :: order[i] != order[j])
    && (forall id :: id in order <==> id in ids)
  }

  // ------------------------------------------------------------ one loop iteration

  function Granted(t: Table, uuid: string, n: nat): Table {
    map u | u in t ::
      if uuid != "" && t[u].uuid == uuid then t[u].(resources := Repeat10(t[u].resources, n)) else t[u]
  }

  function Repeat10(r: Resources, n: nat): Resources {
    Resources((r.wood + 10 * n) % U64, (r.food + 10 * n) % U64, (r.iron + 10 * n) % U64)
  }

  lemma RepeatOnce(r: Resources, n: nat)
    ensures Repeat10(r, 1) == Plus10(r)
    ensures Repeat10(Plus10(r), n) == Repeat10(r, n + 1)
  {
    AddMod(r.wood, n);
    AddMod(r.food, n);
    AddMod(r.iron, n);
  }

  lemma AddMod(x: nat, n: nat)
    ensures ((x + 10) % U64 + 10 * n) % U64 == (x + 10 * (n + 1)) % U64
  {
    var q, r := (x + 10) / U64, (x + 10) % U64;
    assert x + 10 * (n + 1) == U64 * q + (r + 10 * n);
    ModShift(q, r + 10 * n);
  }

  lemma ModShift(q: int, y: int)
    ensures (U64 * q + y) % U64 == y % U64
  {
    var a := y / U64;
    assert U64 * q + y == U64 * (q + a) + y % U64;
  }

  lemma RepeatNext(r: Resources, n: nat)
    ensures Plus10(Repeat10(r, n)) == Repeat10(r, n + 1)
  {
    NextMod(r.wood + 10 * n);
    NextMod(r.food + 10 * n);
    NextMod(r.iron + 10 * n);
  }

  lemma NextMod(x: nat)
    ensures (x % U64 + 10) % U64 == (x + 10) % U64
  {
    assert x + 10 == U64 * (x / U64) + (x % U64 + 10);
    ModShift(x / U64, x % U64 + 10);
  }

  lemma TickOneDb(st: ServerState, id: nat, u: string)
    requires WellFormed(st) && id in st.filed && UniqueUuids(st.db.accounts)
    requires u in st.db.accounts && st.db.accounts[u].uuid == Bound(st, id) != ""
    ensures var row := st.db.accounts[u];
            TickOne(st, id).db
            == Saved(st.db.(accounts := st.db.accounts[u := row.(resources := Plus10(row.resources))]))
    ensures !TickOne(st, id).ended || st.ended
  {
    hide Protocol.Serialize;
    OwnerRow(st.db, u, Plus10(st.db.accounts[u].resources));
  }

  lemma TickOneIdle(st: ServerState, id: nat)
    requires WellFormed(st) && id in st.filed && st.filed[id].Some? && Bound(st, id) == ""
    ensures TickOne(st, id) == st
  {
  }

  // An entry whose session is logged in adds 10 of everything to its account
  // and to no other.
  lemma TickOneGrants(st: ServerState, id: nat)
    requires TickSafe(st) && !st.ended && id in st.filed && UniqueUuids(st.db.accounts)
    ensures !TickOne(st, id).ended
    ensures TickOne(st, id).db.accounts == Granted(st.db.accounts, Bound(st, id), 1)
  {
    hide TickOne;
    var t, uuid := st.db.accounts, Bound(st, id);
    if uuid == "" {
      TickOneIdle(st, id);
      assert Granted(t, uuid, 1) == t;
    } else {
      var u :| u in t && t[u].uuid == uuid;
      TickOneDb(st, id, u);
      RepeatOnce(t[u].resources, 0);
      assert t[u := t[u].(resources := Plus10(t[u].resources))] == Granted(t, uuid, 1);
    }
  }

  lemma GrantedKeeps(t: Table, uuid: string, n: nat)
    requires Typed(t) && UniqueUuids(t)
    ensures Typed(Granted(t, uuid, n)) && UniqueUuids(Granted(t, uuid, n))
    ensures forall other :: Known(t, other) ==> Known(Granted(t, uuid, n), other)
  {
    var g := Granted(t, uuid, n);
    forall other | Known(t, other) ensures Known(g, other) {
      var u :| u in t && t[u].uuid == other;
      assert u in g && g[u].uuid == other;
    }
  }

  lemma TickOneSafe(st: ServerState, id: nat)
    requires TickSafe(st) && !st.ended && id in st.filed && UniqueUuids(st.db.accounts) && Typed(st.db.accounts)
    ensures TickSafe(TickOne(st, id))
    ensures Typed(TickOne(st, id).db.accounts) && UniqueUuids(TickOne(st, id).db.accounts)
  {
    hide TickOne, Granted;
    TickOneWellFormed(st, id);
    TickOneGrants(st, id);
    GrantedKeeps(st.db.accounts, Bound(st, id), 1);
    var next := TickOne(st, id);
    TickBound(st, id);
    assert forall i | i in next.filed :: Bound(next, i) == Bound(st, i);
  }

  lemma TickBound(st: ServerState, id: nat)
    requires WellFormed(st) && id in st.filed
    ensures forall i :: Bound(TickOne(st, id), i) == Bound(st, i)
  {
    hide TickOne;
    TickOneWellFormed(st, id);
  }

  // ---------------------------------------------------------------- the whole loop

  function CountIn(st: ServerState, order: seq<nat>, uuid: string): nat {
    if order == [] then 0
    else (if Bound(st, order[0]) == uuid then 1 else 0) + CountIn(st, order[1..], uuid)
  }

  lemma {:induction false} CountInSame(st: ServerState, next: ServerState, order: seq<nat>, uuid: string)
    requires forall id | id in order :: Bound(st, id) == Bound(next, id)
    ensures CountIn(st, order, uuid) == CountIn(next, order, uuid)
  {
    if order != [] {
      assert order[0] in order;
      CountInSame(st, next, order[1..], uuid);
    }
  }

  // The table after the tick has gone through order.
  ghost predicate GrantedPer(before: Table, st: ServerState, order: seq<nat>, after: Table) {
    && after.Keys == before.Keys
    && forall u | u in before ::
         after[u] == (if before[u].uuid == "" then before[u]
                      else before[u].(resources := Repeat10(before[u].resources, CountIn(st, order, before[u].uuid))))
  }

  lemma GrantedPerNone(st: ServerState)
    requires Typed(st.db.accounts)
    ensures GrantedPer(st.db.accounts, st, [], st.db.accounts)
  {
    var t := st.db.accounts;
    forall u | u in t ensures Repeat10(t[u].resources, 0) == t[u].resources {
      assert TypedResources(t[u].resources);
    }
  }

  lemma GrantedPerStep(t: Table, st: ServerState, next: ServerState, order: seq<nat>, after: Table)
    requires order != [] && forall id :: Bound(next, id) == Bound(st, id)
    requires GrantedPer(Granted(t, Bound(st, order[0]), 1), next, order[1..], after)
    ensures GrantedPer(t, st, order, after)
  {
    var uuid, rest := Bound(st, order[0]), order[1..];
    forall u | u in t && t[u].uuid != ""
      ensures after[u] == t[u].(resources := Repeat10(t[u].resources, CountIn(st, order, t[u].uuid)))
    {
      CountInSame(st, next, rest, t[u].uuid);
      RepeatOnce(t[u].resources, CountIn(st, rest, t[u].uuid));
    }
  }

  lemma {:induction false} TickGrants(st: ServerState, order: seq<nat>)
    requires TickSafe(st) && !st.ended && UniqueUuids(st.db.accounts) && Typed(st.db.accounts)
    requires forall id | id in order :: id in st.filed
    ensures !Tick(st, order).ended
    ensures GrantedPer(st.db.accounts, st, order, Tick(st, order).db.accounts)
    decreases |order|
  {
    hide TickOne, GrantedPer, Granted;
    if order == [] {
      GrantedPerNone(st);
    } else {
      var id, rest := order[0], order[1..];
      assert id in order;
      TickOneWellFormed(st, id);
      TickOneGrants(st, id);
      TickOneSafe(st, id);
      TickBound(st, id);
      var mid := TickOne(st, id);
      TickGrants(mid, rest);
      GrantedPerStep(st.db.accounts, st, mid, order, Tick(mid, rest).db.accounts);
    }
  }

  // --------------------------------------------------------- any iteration order

  function Holders(st: ServerState, uuid: string): set<nat> {
    set id | id in st.filed && Bound(st, id) == uuid
  }

  lemma {:induction false} CountInIsSize(st: ServerState, order: seq<nat>, uuid: string)
    requires forall i, j | 0 <= i < j < |order| :: order[i] != order[j]
    ensures CountIn(st, order, uuid) == |set id | id in order && Bound(st, id) == uuid|
  {
    hide Bound;
    var s := set id | id in order && Bound(st, id) == uuid;
    if order == [] {
      assert s == {};
    } else {
      var rest := order[1..];
      CountInIsSize(st, rest, uuid);
      var r := set id | id in rest && Bound(st, id) == uuid;
      assert order[0] !in r;
      assert s == r + (if Bound(st, order[0]) == uuid then {order[0]} else {});
    }
  }

  // After a tick every account has grown by 10 for each session bound to it,
  // whatever the order of the sessions; accounts without a session, and
  // everything but resources, are as before.
  lemma TickPerAccount(st: ServerState, order: seq<nat>, user: string)
    requires TickSafe(st) && !st.ended && UniqueUuids(st.db.accounts) && Typed(st.db.accounts)
    requires Listing(order, st.filed.Keys) && user in st.db.accounts
    ensures var t, after := st.db.accounts, Tick(st, order).db.accounts;
            && after.Keys == t.Keys
            && after[user] == (if t[user].uuid == "" then t[user]
                               else t[user].(resources := Repeat10(t[user].resources, |Holders(st, t[user].uuid)|)))
  {
    hide Repeat10, TickSafe, Typed, UniqueUuids, CountIn, Bound;
    TickGrants(st, order);
    var uuid := st.db.accounts[user].uuid;
    CountInIsSize(st, order, uuid);
    assert Holders(st, uuid) == set id | id in order && Bound(st, id) == uuid;
  }

  lemma TickOrderIrrelevant(st: ServerState, order: seq<nat>, other: seq<nat>, users: seq<string>)
    requires TickSafe(st) && !st.ended && UniqueUuids(st.db.accounts) && Typed(st.db.accounts)
    requires Listing(order, st.filed.Keys) && Listing(other, st.filed.Keys)
    requires IsOrder(users, st.db.accounts.Keys)
    ensures var turned := st.(db := st.db.(order := users));
            Tick(st, order).db.accounts == Tick(turned, other).db.accounts
  {
    hide Tick, Repeat10, Typed, UniqueUuids, Holders, CountIn;
    var turned := st.(db := st.db.(order := users));
    TurnedSafe(st, users);
    assert forall id :: Bound(turned, id) == Bound(st, id);
    var a, b := Tick(st, order).db.accounts, Tick(turned, other).db.accounts;
    TickGrants(st, order);
    TickGrants(turned, other);
    forall u | u in st.db.accounts ensures a[u] == b[u] {
      TickPerAccount(st, order, u);
      TickPerAccount(turned, other, u);
      TurnedHolders(st, users, st.db.accounts[u].uuid);
    }
    TablesEqual(st.db.accounts, a, b);
  }

  lemma TurnedHolders(st: ServerState, users: seq<string>, uuid: string)
    ensures Holders(st.(db := st.db.(order := users)), uuid) == Holders(st, uuid)
  {
    var turned := st.(db := st.db.(order := users));
    assert forall id :: Bound(turned, id) == Bound(st, id);
  }

  lemma TablesEqual(t: Table, a: Table, b: Table)
    requires a.Keys == b.Keys == t.Keys && forall u | u in t :: a[u] == b[u]
    ensures a == b
  {
  }

  lemma TurnedSafe(st: ServerState, users: seq<string>)
    requires TickSafe(st) && IsOrder(users, st.db.accounts.Keys)
    ensures TickSafe(st.(db := st.db.(order := users)))
  {
    var turned := st.(db := st.db.(order := users));
    forall id | id in turned.filed
      ensures turned.filed[id].Some? && (Bound(turned, id) == "" || Known(turned.db.accounts, Bound(turned, id)))
    {
      assert Bound(turned, id) == Bound(st, id);
    }
  }

  // ----------------------------------------------------------------- exact condition

  // A tick goes through exactly when no entry it visits is null or names an
  // unknown uuid: the loop ends the process in every other case.
  lemma {:induction false} TickEndsIff(st: ServerState, order: seq<nat>)
    requires WellFormed(st) && !st.ended && UniqueUuids(st.db.accounts) && Typed(st.db.accounts)
    requires Listing(order, st.filed.Keys)
    ensures Tick(st, order).ended <==> !TickSafe(st)
  {
    if TickSafe(st) {
      TickGrants(st, order);
    } else {
      var id :| id in st.filed
                && !(st.filed[id].Some? && (Bound(st, id) == "" || Known(st.db.accounts, Bound(st, id))));
      TickStopsAt(st, order, id);
    }
  }

  lemma {:induction false} TickStopsAt(st: ServerState, order: seq<nat>, bad: nat)
    requires WellFormed(st) && bad in order && forall id | id in order :: id in st.filed
    requires st.filed[bad].None? || (Bound(st, bad) != "" && !Known(st.db.accounts, Bound(st, bad)))
    ensures Tick(st, order).ended
    decreases |order|
  {
    hide Protocol.Serialize;
    TickOneWellFormed(st, order[0]);
    var mid := TickOne(st, order[0]);
    if order[0] == bad {
      assert st.filed[bad].None? || GetResources(st.db, Bound(st, bad)).None?;
    } else if !st.ended && !mid.ended {
      TickOneUuids(st, order[0]);
      TickBound(st, order[0]);
      TickStopsAt(mid, order[1..], bad);
    }
  }

  // At the first entry that is null or names an unknown uuid the loop stops:
  // the entries before it had their grants, and nothing else has happened.
  lemma {:induction false} TickFailsAt(st: ServerState, before: seq<nat>, bad: nat, after: seq<nat>)
    requires WellFormed(st) && !st.ended && forall id | id in before + [bad] + after :: id in st.filed
    requires !Tick(st, before).ended
    requires st.filed[bad].None? || (Bound(st, bad) != "" && !Known(st.db.accounts, Bound(st, bad)))
    ensures Tick(st, before + [bad] + after) == Tick(st, before).(ended := true)
    decreases |before|
  {
    hide TickOne, Bound, Known;
    var order := before + [bad] + after;
    assert bad in order && order[0] in order;
    TickOneWellFormed(st, order[0]);
    if before == [] {
      assert order[0] == bad;
      FailsHere(st, bad);
    } else {
      var mid := TickOne(st, order[0]);
      assert order[1..] == before[1..] + [bad] + after;
      TickBound(st, order[0]);
      TickOneUuids(st, order[0]);
      TickFailsAt(mid, before[1..], bad, after);
    }
  }

  lemma FailsHere(st: ServerState, bad: nat)
    requires WellFormed(st) && bad in st.filed
    requires st.filed[bad].None? || (Bound(st, bad) != "" && !Known(st.db.accounts, Bound(st, bad)))
    ensures TickOne(st, bad) == st.(ended := true)
  {
    hide Protocol.Serialize;
  }

  // A tick neither adds nor removes a uuid.
  lemma TickOneUuids(st: ServerState, id: nat)
    requires WellFormed(st) && id in st.filed
    ensures forall uuid :: Known(TickOne(st, id).db.accounts, uuid) ==> Known(st.db.accounts, uuid)
  {
    hide Protocol.Serialize;
    var t, next := st.db.accounts, TickOne(st, id).db.accounts;
    assert forall u | u in next :: u in t && next[u].uuid == t[u].uuid;
    forall uuid | Known(next, uuid) ensures Known(t, uuid) {
      var u :| u in next && next[u].uuid == uuid;
      assert u in t && t[u].uuid == uuid;
    }
  }
}
