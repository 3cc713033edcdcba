// One server session as values: the strand's posted tasks, the outgoing queue
// with its single write, the bytes handed to the socket, and the read buffer.
module WriteQueue {
  import opened Prelude
  import opened Framing
  import Protocol

  datatype SessionView = SessionView(
    id: nat,                     // m_clientId
    uuid: string,                // m_uuid
    input: Input,                // m_incoming and what has been read through it
    reading: bool,               // a read is armed
    tasks: seq<string>,          // texts posted to the strand and not yet run
    outgoing: seq<string>,       // m_outgoing
    inFlight: nat,               // writes started and not completed
    written: nat,                // bytes of the front text the socket has taken
    failed: bool,                // a write has completed with an error
    wire: string,                // every byte the socket has taken
    sent: seq<Protocol.Message>, // history: every message passed to send
    done: seq<string>)           // history: texts whose write completed without error

  function Opened(id: nat): SessionView {
    SessionView(id, "", EMPTY, false, [], [], 0, 0, false, "", [], [])
  }

  datatype Step = Post(m: Protocol.Message) | RunTask | Accept(n: nat) | Done | Fail

  // async_write on the front of the queue.
  function StartWrite(v: SessionView): SessionView {
    v.(inFlight := v.inFlight + 1, written := 0)
  }

  predicate Enabled(v: SessionView, q: Step) {
    match q
    case Post(_) => true
    case RunTask => v.tasks != []
    case Accept(n) => v.inFlight > 0 && v.outgoing != [] && 0 < n <= |v.outgoing[0]| - v.written
    case Done => v.inFlight > 0 && v.outgoing != [] && v.written == |v.outgoing[0]|
    case Fail => v.inFlight > 0
  }

  function Apply(v: SessionView, q: Step): SessionView
    requires Enabled(v, q)
  {
    match q
    case Post(m) => v.(tasks := v.tasks + [Protocol.Serialize(m)], sent := v.sent + [m])
    case RunTask =>
      var queued := v.(tasks := v.tasks[1..], outgoing := v.outgoing + [v.tasks[0]]);
      if v.outgoing == [] then StartWrite(queued) else queued
    case Accept(n) =>
      v.(wire := v.wire + v.outgoing[0][v.written..v.written + n], written := v.written + n)
    case Done =>
      var popped := v.(outgoing := v.outgoing[1..], inFlight := v.inFlight - 1, written := 0,
                       done := v.done + [v.outgoing[0]]);
      if popped.outgoing != [] then StartWrite(popped) else popped
    case Fail => v.(inFlight := v.inFlight - 1, failed := true)
  }

  function Begun(v: SessionView): string {
    if v.outgoing != [] && v.written <= |v.outgoing[0]| then v.outgoing[0][..v.written] else ""
  }

  // At most one write at a time; until a failure, one exactly when the queue is
  // not empty.
  predicate Single(v: SessionView) {
    && v.inFlight == (if v.failed || v.outgoing == [] then 0 else 1)
    && (v.failed ==> v.outgoing != [])
    && v.written <= (if v.outgoing == [] then 0 else |v.outgoing[0]|)
  }

  // Everything sent is completed, queued or posted, in this order, and the wire
  // holds the completed texts and the begun part of the next.
  predicate Conserved(v: SessionView) {
    && Texts(v.sent) == v.done + v.outgoing + v.tasks
    && v.wire == Concat(v.done) + Begun(v)
  }

  predicate Orderly(v: SessionView) {
    Single(v) && Conserved(v)
  }

  lemma OpenedOrderly(id: nat)
    ensures Orderly(Opened(id))
  {
  }

  lemma TextsSnoc(ms: seq<Protocol.Message>, m: Protocol.Message)
    ensures Texts(ms + [m]) == Texts(ms) + [Protocol.Serialize(m)]
  {
    hide Protocol.Serialize;
  }

  lemma PostOrderly(v: SessionView, m: Protocol.Message)
    requires Orderly(v)
    ensures Orderly(Apply(v, Post(m)))
  {
    TextsSnoc(v.sent, m);
    var text := Protocol.Serialize(m);
    assert v.done + v.outgoing + v.tasks + [text] == v.done + v.outgoing + (v.tasks + [text]);
  }

  lemma Shift(a: seq<string>, b: seq<string>, c: seq<string>)
    requires c != []
    ensures a + b + c == a + (b + [c[0]]) + c[1..]
  {
  }

  lemma RunTaskOrderly(v: SessionView)
    requires Orderly(v) && v.tasks != []
    ensures Orderly(Apply(v, RunTask))
  {
    Shift(v.done, v.outgoing, v.tasks);
    if v.outgoing == [] {
      assert Apply(v, RunTask).outgoing == [v.tasks[0]];
      assert Begun(Apply(v, RunTask)) == "";
    } else {
      assert Apply(v, RunTask).outgoing[0] == v.outgoing[0];
    }
  }

  lemma AcceptOrderly(v: SessionView, n: nat)
    requires Orderly(v) && Enabled(v, Accept(n))
    ensures Orderly(Apply(v, Accept(n)))
  {
    var front := v.outgoing[0];
    Assoc(Concat(v.done), front[..v.written], front[v.written..v.written + n]);
    assert front[..v.written] + front[v.written..v.written + n] == front[..v.written + n];
  }

  lemma DoneOrderly(v: SessionView)
    requires Orderly(v) && Enabled(v, Done)
    ensures Orderly(Apply(v, Done))
  {
    var front := v.outgoing[0];
    assert front[..|front|] == front;
    ConcatSnoc(v.done, front);
    assert v.done + v.outgoing == v.done + [front] + v.outgoing[1..];
    assert Begun(Apply(v, Done)) == "";
  }

  lemma StepOrderly(v: SessionView, q: Step)
    requires Orderly(v) && Enabled(v, q)
    ensures Orderly(Apply(v, q))
  {
    match q
    case Post(m) => PostOrderly(v, m);
    case RunTask => RunTaskOrderly(v);
    case Accept(n) => AcceptOrderly(v, n);
    case Done => DoneOrderly(v);
    case Fail =>
  }

  lemma BegunIsPrefix(v: SessionView)
    requires Single(v)
    ensures Begun(v) <= Concat(v.outgoing + v.tasks)
  {
    if v.outgoing != [] {
      var rest := v.outgoing + v.tasks;
      assert rest[0] == v.outgoing[0];
    }
  }

  lemma PrefixUnder(a: string, b: string, c: string)
    requires b <= c
    ensures a + b <= a + c
  {
  }

  lemma ConcatPrefix(done: seq<string>, rest: seq<string>, begun: string)
    requires begun <= Concat(rest)
    ensures Concat(done) + begun <= Concat(done + rest)
  {
    ConcatAppend(done, rest);
    PrefixUnder(Concat(done), begun, Concat(rest));
  }

  lemma WirePrefixOf(v: SessionView, texts: seq<string>)
    requires Single(v) && texts == v.done + v.outgoing + v.tasks && v.wire == Concat(v.done) + Begun(v)
    ensures v.wire <= Concat(texts)
  {
    BegunIsPrefix(v);
    ConcatPrefix(v.done, v.outgoing + v.tasks, Begun(v));
    assert texts == v.done + (v.outgoing + v.tasks);
  }

  // The wire is a prefix of the texts of everything sent, in send order.
  lemma WireIsPrefix(v: SessionView)
    requires Orderly(v)
    ensures v.wire <= Concat(Texts(v.sent))
  {
    WirePrefixOf(v, Texts(v.sent));
  }

  // The wire never loses or changes a byte; after a failed write it never gains one.
  lemma WireGrows(v: SessionView, q: Step)
    requires Orderly(v) && Enabled(v, q)
    ensures v.wire <= Apply(v, q).wire && v.sent <= Apply(v, q).sent
    ensures v.failed ==> Apply(v, q).failed && Apply(v, q).wire == v.wire
  {
  }

  // ------------------------------------------------------------------- draining

  predicate Draining(q: Step) {
    q.RunTask? || q.Accept? || q.Done?
  }

  // What is left to do: to move every posted text to the queue, hand its bytes
  // to the socket, and complete its write.
  function Work(v: SessionView): int {
    2 * |v.tasks| + |Concat(v.tasks)| + |v.outgoing| + |Concat(v.outgoing)| - v.written
  }

  lemma WorkDecreases(v: SessionView, q: Step)
    requires Orderly(v) && Enabled(v, q) && Draining(q)
    ensures 0 <= Work(Apply(v, q)) < Work(v)
    ensures Apply(v, q).failed == v.failed && Apply(v, q).sent == v.sent
  {
    StepOrderly(v, q);
    if q.RunTask? {
      ConcatSnoc(v.outgoing, v.tasks[0]);
    }
  }

  lemma Stuck(v: SessionView)
    requires Orderly(v) && !v.failed
    requires !Enabled(v, RunTask) && !Enabled(v, Done) && !Enabled(v, Accept(1))
    ensures v.outgoing == [] && v.tasks == [] && v.wire == Concat(Texts(v.sent))
  {
    assert v.done + [] + [] == v.done;
  }

  predicate CanRun(v: SessionView, qs: seq<Step>)
    decreases |qs|
  {
    qs == [] || (Enabled(v, qs[0]) && CanRun(Apply(v, qs[0]), qs[1..]))
  }

  function After(v: SessionView, qs: seq<Step>): SessionView
    requires CanRun(v, qs)
    decreases |qs|
  {
    if qs == [] then v else After(Apply(v, qs[0]), qs[1..])
  }

  // Over any run the queue stays orderly, the wire only grows, and after a
  // failed write it never gains another byte.
  lemma {:induction false} RunOrderly(v: SessionView, qs: seq<Step>)
    requires Orderly(v) && CanRun(v, qs)
    ensures var w := After(v, qs);
            && Orderly(w) && v.wire <= w.wire <= Concat(Texts(w.sent))
            && (v.failed ==> w.failed && w.wire == v.wire)
    decreases |qs|
  {
    hide Orderly, Apply, Enabled;
    if qs == [] {
      WireIsPrefix(v);
    } else {
      StepOrderly(v, qs[0]);
      WireGrows(v, qs[0]);
      RunOrderly(Apply(v, qs[0]), qs[1..]);
    }
  }

  lemma WorkNotNegative(v: SessionView)
    requires Orderly(v)
    ensures 0 <= Work(v)
  {
    if v.outgoing != [] {
      assert |Concat(v.outgoing)| >= |v.outgoing[0]|;
    }
  }

  // With nothing new sent and no failure, the queue takes at most Work(v) steps,
  // and it only comes to rest with every text written and nothing left over.
  lemma {:induction false} QueueDrains(v: SessionView, qs: seq<Step>)
    requires Orderly(v) && !v.failed && CanRun(v, qs) && forall q | q in qs :: Draining(q)
    ensures |qs| <= Work(v) - Work(After(v, qs)) && 0 <= Work(After(v, qs))
    ensures var w := After(v, qs);
            (forall q | Draining(q) :: !Enabled(w, q)) ==>
              w.outgoing == [] && w.tasks == [] && w.wire == Concat(Texts(v.sent))
    decreases |qs|
  {
    hide Orderly, Apply, Work;
    if qs == [] {
      WorkNotNegative(v);
      if forall q | Draining(q) :: !Enabled(v, q) {
        assert Draining(RunTask) && Draining(Done) && Draining(Accept(1));
        Stuck(v);
      }
    } else {
      assert qs[0] in qs;
      WorkDecreases(v, qs[0]);
      StepOrderly(v, qs[0]);
      QueueDrains(Apply(v, qs[0]), qs[1..]);
    }
  }
}
