// The client's per-type sequence filter: which of any sequence of messages
// pass, and that no other choice could pass more.
module Filter {
  import opened Prelude
  import opened Protocol

  // lastSeqByType.
  type LastSeq = map<string, nat>

  function LastOf(last: LastSeq, kind: string): nat {
    if kind in last then last[kind] else 0
  }

  // lastSeq + 1 is 32-bit arithmetic: above 2^32 - 1 it wraps to 0.
  predicate Accepts(last: LastSeq, m: Message) {
    m.sequence > LastOf(last, m.kind) && m.sequence == (LastOf(last, m.kind) + 1) % U32
  }

  // operator[] leaves an entry for the type even when the message is dropped.
  function Note(last: LastSeq, m: Message): LastSeq {
    last[m.kind := if Accepts(last, m) then m.sequence else LastOf(last, m.kind)]
  }

  // The filter after a sequence of messages, and the messages that passed it.
  function After(ms: seq<Message>): LastSeq {
    if ms == [] then map[] else Note(After(ms[..|ms| - 1]), ms[|ms| - 1])
  }

  function Passed(ms: seq<Message>): seq<Message> {
    if ms == [] then []
    else
      var before, m := ms[..|ms| - 1], ms[|ms| - 1];
      Passed(before) + (if Accepts(After(before), m) then [m] else [])
  }

  function OfKind(kind: string, ms: seq<Message>): seq<Message> {
    if ms == [] then []
    else
      var m := ms[|ms| - 1];
      OfKind(kind, ms[..|ms| - 1]) + (if m.kind == kind then [m] else [])
  }

  function Sequences(ms: seq<Message>): (ss: seq<nat>)
    ensures |ss| == |ms| && forall i | 0 <= i < |ms| :: ss[i] == ms[i].sequence
  {
    seq(|ms|, i requires 0 <= i < |ms| => ms[i].sequence)
  }

  lemma Snoc(ms: seq<Message>, m: Message, kind: string)
    ensures After(ms + [m]) == Note(After(ms), m)
    ensures Passed(ms + [m]) == Passed(ms) + (if Accepts(After(ms), m) then [m] else [])
    ensures OfKind(kind, ms + [m]) == OfKind(kind, ms) + (if m.kind == kind then [m] else [])
  {
    assert (ms + [m])[..|ms|] == ms;
  }

  lemma {:induction false} OfKindAppend(kind: string, a: seq<Message>, b: seq<Message>)
    ensures OfKind(kind, a + b) == OfKind(kind, a) + OfKind(kind, b)
  {
    if b == [] {
      assert a + b == a;
    } else {
      var front, m := b[..|b| - 1], b[|b| - 1];
      assert a + b == a + front + [m] && b == front + [m];
      OfKindAppend(kind, a, front);
      Snoc(a + front, m, kind);
    }
  }

  lemma {:induction false} OfKindMembers(kind: string, ms: seq<Message>)
    ensures forall m :: m in OfKind(kind, ms) <==> m in ms && m.kind == kind
  {
    if ms != [] {
      OfKindMembers(kind, ms[..|ms| - 1]);
      assert ms == ms[..|ms| - 1] + [ms[|ms| - 1]];
    }
  }

  // ------------------------------------------------------------ one type at a time

  // The last number of the run 1, 2, 3, ... picked up so far.
  function Greedy(ss: seq<nat>): nat {
    if ss == [] then 0
    else
      var g, s := Greedy(ss[..|ss| - 1]), ss[|ss| - 1];
      if s > g && s == (g + 1) % U32 then s else g
  }

  // Messages of other types do not influence a type's entry.
  lemma {:induction false} OneTypeAtATime(ms: seq<Message>, kind: string)
    ensures LastOf(After(ms), kind) == Greedy(Sequences(OfKind(kind, ms)))
  {
    if ms != [] {
      var before, m := ms[..|ms| - 1], ms[|ms| - 1];
      OneTypeAtATime(before, kind);
      if m.kind == kind {
        var ss, ss' := Sequences(OfKind(kind, before)), Sequences(OfKind(kind, ms));
        assert ss'[..|ss'| - 1] == ss;
      } else {
        assert OfKind(kind, ms) == OfKind(kind, before);
      }
    }
  }

  // ------------------------------------------------------------------- optimality

  // 1, 2, ..., |at| is a subsequence of ss, found at the positions at.
  predicate Counts(at: seq<nat>, ss: seq<nat>) {
    && (forall i, j | 0 <= i < j < |at| :: at[i] < at[j])
    && (forall i | 0 <= i < |at| :: at[i] < |ss| && ss[at[i]] == i + 1)
  }

  predicate Words(ss: seq<nat>) {
    forall i | 0 <= i < |ss| :: ss[i] < U32
  }

  lemma {:induction false} GreedyReached(ss: seq<nat>) returns (at: seq<nat>)
    requires Words(ss)
    ensures |at| == Greedy(ss) && Counts(at, ss)
  {
    if ss == [] {
      at := [];
    } else {
      var before := ss[..|ss| - 1];
      at := GreedyReached(before);
      if Greedy(ss) != Greedy(before) {
        at := at + [|ss| - 1];
      }
    }
  }

  lemma {:induction false} GreedyBounds(ss: seq<nat>, at: seq<nat>)
    requires Words(ss) && Counts(at, ss)
    ensures |at| <= Greedy(ss) < U32
  {
    if ss != [] {
      var before := ss[..|ss| - 1];
      if at != [] && at[|at| - 1] == |ss| - 1 {
        var shorter := at[..|at| - 1];
        assert forall i | 0 <= i < |shorter| :: at[i] < at[|at| - 1];
        GreedyBounds(before, shorter);
        assert ss[|ss| - 1] == |at|;
      } else {
        assert forall i | 0 <= i < |at| :: at[i] <= at[|at| - 1];
        GreedyBounds(before, at);
      }
    }
  }

  // lastSeq of a type is the largest k for which 1, 2, ..., k is a subsequence
  // of the sequence numbers of that type, however other types are interleaved.
  lemma LastIsLongestCount(ms: seq<Message>, kind: string, k: nat)
    requires forall m | m in ms :: m.sequence < U32
    ensures k <= LastOf(After(ms), kind)
            <==> exists at :: |at| == k && Counts(at, Sequences(OfKind(kind, ms)))
  {
    var ss := Sequences(OfKind(kind, ms));
    OneTypeAtATime(ms, kind);
    OfKindMembers(kind, ms);
    assert Words(ss) by {
      forall i | 0 <= i < |ss| ensures ss[i] < U32 {
        assert OfKind(kind, ms)[i] in OfKind(kind, ms);
      }
    }
    if k <= Greedy(ss) {
      var at := GreedyReached(ss);
      assert Counts(at[..k], ss);
    }
    forall at | |at| == k && Counts(at, ss) ensures k <= Greedy(ss) {
      GreedyBounds(ss, at);
    }
  }

  // Once 2^32 - 1 has passed, nothing of that type ever passes again: the
  // wrapped value of lastSeq + 1 is not above lastSeq.
  lemma {:induction false} WrappedNeverAccepted(ms: seq<Message>, more: seq<Message>, kind: string)
    requires LastOf(After(ms), kind) == U32 - 1
    ensures LastOf(After(ms + more), kind) == U32 - 1
    ensures OfKind(kind, Passed(ms + more)) == OfKind(kind, Passed(ms))
    decreases |more|
  {
    if more == [] {
      assert ms + more == ms;
    } else {
      var front, m := more[..|more| - 1], more[|more| - 1];
      assert ms + more == (ms + front) + [m];
      WrappedNeverAccepted(ms, front, kind);
      Snoc(ms + front, m, kind);
      Snoc(Passed(ms + front), m, kind);
      assert Passed(ms + front) + [] == Passed(ms + front);
    }
  }

  // --------------------------------------------------- consecutively numbered runs

  // The i-th message carries base + i + 1 in 32-bit arithmetic.
  predicate Numbered(ms: seq<Message>, base: nat) {
    forall i | 0 <= i < |ms| :: ms[i].sequence == (base + i + 1) % U32
  }

  // How many numbers come before the first 1.
  function Skipped(base: nat): nat {
    (U32 - base % U32) % U32
  }

  // How many of n consecutive numbers the filter lets through.
  function Through(n: nat, base: nat): nat {
    var late := n - Skipped(base);
    if late < 0 then 0 else if late < U32 then late else U32 - 1
  }

  lemma SequenceAt(base: nat, d: nat)
    ensures (base + Skipped(base) + d) % U32 == d % U32
  {
    var q := base / U32;
    if base % U32 == 0 {
      assert base + Skipped(base) + d == U32 * q + d;
    } else {
      assert base + Skipped(base) + d == U32 * (q + 1) + d;
    }
  }

  lemma NotYetOne(base: nat, i: nat)
    requires i < Skipped(base)
    ensures (base + i + 1) % U32 != 1
  {
    var q, r := base / U32, base % U32;
    assert base + i + 1 == U32 * q + (r + i + 1);
    if r + i + 1 < U32 {
      assert (base + i + 1) % U32 == r + i + 1;
    } else {
      assert base + i + 1 == U32 * (q + 1);
    }
  }

  // One more number: it passes exactly when Through says so.
  lemma OneMore(n: nat, base: nat)
    ensures var s, g := (base + n + 1) % U32, Through(n, base);
            Through(n + 1, base) == if s > g && s == (g + 1) % U32 then g + 1 else g
  {
    if n < Skipped(base) {
      NotYetOne(base, n);
    } else {
      SequenceAt(base, n - Skipped(base) + 1);
    }
  }

  lemma PassedSnoc(ms: seq<Message>, m: Message, kind: string)
    ensures OfKind(kind, Passed(ms + [m]))
            == OfKind(kind, Passed(ms)) + (if m.kind == kind && Accepts(After(ms), m) then [m] else [])
  {
    Snoc(ms, m, kind);
    if Accepts(After(ms), m) {
      Snoc(Passed(ms), m, kind);
    } else {
      assert Passed(ms) + [] == Passed(ms);
    }
  }

  // passed is what the filter lets through of consecutively numbered messages:
  // it skips those before the first 1, passes the next 2^32 - 1, and none after.
  predicate Window(all: seq<Message>, passed: seq<Message>, base: nat) {
    var from, n := Skipped(base), Through(|all|, base);
    if n == 0 then passed == [] else from + n <= |all| && passed == all[from..from + n]
  }

  lemma WindowStep(all: seq<Message>, passed: seq<Message>, m: Message, base: nat)
    requires Window(all, passed, base) && m.sequence == (base + |all| + 1) % U32
    ensures var g := Through(|all|, base);
            var accepted := m.sequence > g && m.sequence == (g + 1) % U32;
            && Window(all + [m], passed + (if accepted then [m] else []), base)
            && Through(|all| + 1, base) == if accepted then m.sequence else g
  {
    OneMore(|all|, base);
    var from, g := Skipped(base), Through(|all|, base);
    if m.sequence > g && m.sequence == (g + 1) % U32 {
      assert from + g == |all|;
    }
  }

  // The filter's state after ms, when the messages of one type are numbered from base.
  predicate LetsThrough(ms: seq<Message>, kind: string, base: nat) {
    && LastOf(After(ms), kind) == Through(|OfKind(kind, ms)|, base)
    && Window(OfKind(kind, ms), OfKind(kind, Passed(ms)), base)
  }

  lemma OtherKindStep(ms: seq<Message>, m: Message, kind: string, base: nat)
    requires LetsThrough(ms, kind, base) && m.kind != kind
    ensures LetsThrough(ms + [m], kind, base)
  {
    hide Window, Through;
    Snoc(ms, m, kind);
    PassedSnoc(ms, m, kind);
    assert OfKind(kind, ms + [m]) == OfKind(kind, ms);
    assert OfKind(kind, Passed(ms + [m])) == OfKind(kind, Passed(ms));
  }

  lemma SameKindStep(ms: seq<Message>, m: Message, kind: string, base: nat)
    requires LetsThrough(ms, kind, base) && m.kind == kind
    requires m.sequence == (base + |OfKind(kind, ms)| + 1) % U32
    ensures LetsThrough(ms + [m], kind, base)
  {
    hide Window, Through, OfKind, Passed;
    Snoc(ms, m, kind);
    PassedSnoc(ms, m, kind);
    WindowStep(OfKind(kind, ms), OfKind(kind, Passed(ms)), m, base);
  }

  lemma {:induction false} NumberedPass(ms: seq<Message>, kind: string, base: nat)
    requires Numbered(OfKind(kind, ms), base)
    ensures LetsThrough(ms, kind, base)
  {
    if ms != [] {
      var before, m := ms[..|ms| - 1], ms[|ms| - 1];
      var all := OfKind(kind, before);
      assert ms == before + [m];
      Snoc(before, m, kind);
      assert Numbered(all, base) by {
        assert forall i | 0 <= i < |all| :: all[i] == OfKind(kind, ms)[i];
      }
      NumberedPass(before, kind, base);
      if m.kind == kind {
        assert OfKind(kind, ms)[|all|] == m;
        SameKindStep(before, m, kind, base);
      } else {
        OtherKindStep(before, m, kind, base);
      }
    }
  }

  // The filter comes to its last number exactly when the first 1 and all the
  // 2^32 - 2 numbers after it have come.
  lemma RunsOutIff(ms: seq<Message>, kind: string, base: nat)
    requires Numbered(OfKind(kind, ms), base)
    ensures LastOf(After(ms), kind) == U32 - 1 <==> |OfKind(kind, ms)| >= Skipped(base) + U32 - 1
  {
    NumberedPass(ms, kind, base);
  }
}
