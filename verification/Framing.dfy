// Newline framing: what std::getline after read_until takes out of a stream
// buffer, and why the way the stream was cut into reads does not matter.
module Framing {
  import opened Prelude
  import Protocol

  predicate HasLine(s: string) {
    '\n' in s
  }

  // Position of the first newline.
  function LineEnd(s: string): (i: nat)
    requires HasLine(s)
    ensures i < |s| && s[i] == '\n'
    ensures forall k | 0 <= k < |s| && s[k] == '\n' :: i <= k
  {
    if s[0] == '\n' then 0 else 1 + LineEnd(s[1..])
  }

  function FirstLine(s: string): string
    requires HasLine(s)
  {
    s[..LineEnd(s)]
  }

  function AfterLine(s: string): string
    requires HasLine(s)
  {
    s[LineEnd(s) + 1..]
  }

  // The newline-terminated lines of a stream, and the bytes after the last one.
  function Lines(s: string): seq<string>
    decreases |s|
  {
    if HasLine(s) then [FirstLine(s)] + Lines(AfterLine(s)) else []
  }

  function Tail(s: string): string
    decreases |s|
  {
    if HasLine(s) then Tail(AfterLine(s)) else s
  }

  function StripCr(line: string): string {
    if line != [] && line[|line| - 1] == '\r' then line[..|line| - 1] else line
  }

  // The messages among the lines; a line that does not parse is skipped.
  function Decode(lines: seq<string>): seq<Protocol.Message> {
    if lines == [] then []
    else
      var m := Protocol.Parse(StripCr(lines[0]));
      (if m.Some? then [m.value] else []) + Decode(lines[1..])
  }

  function Texts(ms: seq<Protocol.Message>): seq<string> {
    seq(|ms|, i requires 0 <= i < |ms| => Protocol.Serialize(ms[i]))
  }

  // ------------------------------------------------ Lines is the only splitting

  predicate Splits(s: string, lines: seq<string>, tail: string) {
    && (forall i | 0 <= i < |lines| :: '\n' !in lines[i])
    && '\n' !in tail
    && s == Unsplit(lines) + tail
  }

  function Unsplit(lines: seq<string>): string {
    if lines == [] then "" else lines[0] + "\n" + Unsplit(lines[1..])
  }

  // The first line is fixed by any way of writing s as a line, a newline and more.
  lemma FirstLineUnique(line: string, rest: string)
    requires '\n' !in line
    ensures HasLine(line + "\n" + rest)
    ensures FirstLine(line + "\n" + rest) == line && AfterLine(line + "\n" + rest) == rest
  {
    var s := line + "\n" + rest;
    assert s[|line|] == '\n';
    assert forall k | 0 <= k < |line| :: s[k] == line[k];
    assert LineEnd(s) == |line|;
  }

  lemma FirstLineSplits(s: string)
    requires HasLine(s)
    ensures s == FirstLine(s) + "\n" + AfterLine(s) && '\n' !in FirstLine(s)
  {
    var i := LineEnd(s);
    assert forall k | 0 <= k < i :: FirstLine(s)[k] == s[k];
    assert s == s[..i] + [s[i]] + s[i + 1..];
  }

  lemma {:induction false} LinesSplit(s: string)
    ensures Splits(s, Lines(s), Tail(s))
    decreases |s|
  {
    if HasLine(s) {
      var head, rest := FirstLine(s) + "\n", AfterLine(s);
      FirstLineSplits(s);
      LinesSplit(rest);
      assert Lines(s)[1..] == Lines(rest);
      Assoc(head, Unsplit(Lines(rest)), Tail(rest));
    }
  }

  lemma LinesStep(line: string, rest: string)
    requires '\n' !in line
    ensures Lines(line + "\n" + rest) == [line] + Lines(rest)
    ensures Tail(line + "\n" + rest) == Tail(rest)
  {
    FirstLineUnique(line, rest);
  }

  lemma {:induction false} SplitUnique(s: string, lines: seq<string>, tail: string)
    requires Splits(s, lines, tail)
    ensures lines == Lines(s) && tail == Tail(s)
    decreases |lines|
  {
    if lines == [] {
      assert s == tail;
    } else {
      var line, rest := lines[0], Unsplit(lines[1..]) + tail;
      SplitUnique(rest, lines[1..], tail);
      LinesStep(line, rest);
      Assoc(line + "\n", Unsplit(lines[1..]), tail);
      assert lines == [line] + lines[1..];
    }
  }

  lemma {:induction false} UnsplitAppend(a: seq<string>, b: seq<string>)
    ensures Unsplit(a + b) == Unsplit(a) + Unsplit(b)
  {
    if a == [] {
      assert a + b == b;
    } else {
      UnsplitAppend(a[1..], b);
      assert (a + b)[0] == a[0] && (a + b)[1..] == a[1..] + b;
      Assoc(a[0] + "\n", Unsplit(a[1..]), Unsplit(b));
    }
  }

  // ------------------------------------------------------ independence of chunks

  lemma LinesAppend(a: string, b: string)
    ensures Lines(a + b) == Lines(a) + Lines(Tail(a) + b)
    ensures Tail(a + b) == Tail(Tail(a) + b)
  {
    var ls, more := Lines(a), Lines(Tail(a) + b);
    var end := Tail(Tail(a) + b);
    assert Splits(a, ls, Tail(a)) && Splits(Tail(a) + b, more, end) by {
      LinesSplit(a);
      LinesSplit(Tail(a) + b);
    }
    assert a + b == Unsplit(ls + more) + end by {
      Assoc(Unsplit(ls), Tail(a), b);
      Assoc(Unsplit(ls), Unsplit(more), end);
      UnsplitAppend(ls, more);
    }
    SplitUnique(a + b, ls + more, end);
  }

  // The receiving end of a stream: its buffer, with two history variables, the
  // bytes read so far and the lines taken out.
  datatype Input = Input(buffer: string, received: string, lines: seq<string>)

  const EMPTY := Input("", "", [])

  datatype Op = Receive(chunk: string) | Take

  predicate CanDo(i: Input, op: Op) {
    op.Take? ==> HasLine(i.buffer)
  }

  function Do(i: Input, op: Op): Input
    requires CanDo(i, op)
  {
    match op
    case Receive(chunk) => i.(buffer := i.buffer + chunk, received := i.received + chunk)
    case Take => i.(buffer := AfterLine(i.buffer), lines := i.lines + [FirstLine(i.buffer)])
  }

  predicate Framed(i: Input) {
    i.lines + Lines(i.buffer) == Lines(i.received) && Tail(i.buffer) == Tail(i.received)
  }

  lemma DoFramed(i: Input, op: Op)
    requires Framed(i) && CanDo(i, op)
    ensures Framed(Do(i, op))
  {
    match op
    case Receive(chunk) =>
      LinesAppend(i.received, chunk);
      LinesAppend(i.buffer, chunk);
      Assoc(i.lines, Lines(i.buffer), Lines(Tail(i.buffer) + chunk));
    case Take =>
      Assoc(i.lines, [FirstLine(i.buffer)], Lines(AfterLine(i.buffer)));
  }

  predicate CanRun(i: Input, ops: seq<Op>)
    decreases |ops|
  {
    ops == [] || (CanDo(i, ops[0]) && CanRun(Do(i, ops[0]), ops[1..]))
  }

  function Run(i: Input, ops: seq<Op>): Input
    requires CanRun(i, ops)
    decreases |ops|
  {
    if ops == [] then i else Run(Do(i, ops[0]), ops[1..])
  }

  // The stream that the reads among ops bring in.
  function Stream(ops: seq<Op>): string {
    if ops == [] then "" else (if ops[0].Receive? then ops[0].chunk else "") + Stream(ops[1..])
  }

  lemma {:induction false} RunFramed(i: Input, ops: seq<Op>)
    requires Framed(i) && CanRun(i, ops)
    ensures Framed(Run(i, ops)) && Run(i, ops).received == i.received + Stream(ops)
    decreases |ops|
  {
    if ops == [] {
      assert i.received + "" == i.received;
    } else {
      DoFramed(i, ops[0]);
      RunFramed(Do(i, ops[0]), ops[1..]);
      var chunk := if ops[0].Receive? then ops[0].chunk else "";
      Assoc(i.received, chunk, Stream(ops[1..]));
      assert Do(i, ops[0]).received == i.received + chunk;
    }
  }

  // However a stream is cut into reads, and however the taking of lines falls
  // between them, a reader that has taken all it can has taken exactly the lines
  // of the whole stream, in order, and keeps exactly the bytes after the last.
  lemma ChunkingIrrelevant(ops: seq<Op>)
    requires CanRun(EMPTY, ops) && !HasLine(Run(EMPTY, ops).buffer)
    ensures Run(EMPTY, ops).lines == Lines(Stream(ops))
    ensures Run(EMPTY, ops).buffer == Tail(Stream(ops))
  {
    RunFramed(EMPTY, ops);
    assert "" + Stream(ops) == Stream(ops);
  }

  // ------------------------------------------------- streams of sent messages

  // A stream that starts with a whole message hands over exactly that message.
  lemma MessageFirst(m: Protocol.Message, rest: string)
    requires Protocol.Wire(m)
    ensures HasLine(Protocol.Serialize(m) + rest)
    ensures AfterLine(Protocol.Serialize(m) + rest) == rest
    ensures Protocol.Parse(StripCr(FirstLine(Protocol.Serialize(m) + rest))) == Some(m)
  {
    Protocol.RoundTrip(m);
    FirstLineUnique(Protocol.Body(m), rest);
  }

  // A carriage return before the newline makes no difference.
  lemma CrLfRead(m: Protocol.Message, rest: string)
    requires Protocol.Wire(m)
    ensures HasLine(Protocol.Body(m) + "\r\n" + rest) && AfterLine(Protocol.Body(m) + "\r\n" + rest) == rest
    ensures Protocol.Parse(StripCr(FirstLine(Protocol.Body(m) + "\r\n" + rest))) == Some(m)
  {
    hide Protocol.Body, Protocol.Parse;
    Protocol.RoundTrip(m);
    var line := Protocol.Body(m) + "\r";
    assert line + "\n" + rest == Protocol.Body(m) + "\r\n" + rest;
    FirstLineUnique(line, rest);
    assert line[..|line| - 1] == Protocol.Body(m);
  }

  // A proper prefix of one message holds no complete line.
  lemma PartialMessage(m: Protocol.Message, n: nat)
    requires Protocol.Wire(m) && n < |Protocol.Serialize(m)|
    ensures !HasLine(Protocol.Serialize(m)[..n])
  {
    Protocol.RoundTrip(m);
    assert Protocol.Serialize(m)[..n] == Protocol.Body(m)[..n];
  }

  lemma TextsFirst(ms: seq<Protocol.Message>)
    requires ms != []
    ensures Concat(Texts(ms)) == Protocol.Serialize(ms[0]) + Concat(Texts(ms[1..]))
  {
    hide Protocol.Serialize;
    assert Texts(ms)[1..] == Texts(ms[1..]);
  }

  lemma DecodeFirst(s: string, m: Protocol.Message, rest: string)
    requires Protocol.Wire(m) && s == Protocol.Serialize(m) + rest
    ensures Decode(Lines(s)) == [m] + Decode(Lines(rest)) && Tail(s) == Tail(rest)
  {
    MessageFirst(m, rest);
    assert Lines(s)[1..] == Lines(rest);
  }

  // A concatenation of sent messages, followed by part of another, is decoded
  // to exactly those messages.
  lemma {:induction false} StreamDecodes(ms: seq<Protocol.Message>, partial: string)
    requires forall i | 0 <= i < |ms| :: Protocol.Wire(ms[i])
    requires !HasLine(partial)
    ensures Decode(Lines(Concat(Texts(ms)) + partial)) == ms
    ensures Tail(Concat(Texts(ms)) + partial) == partial
    decreases |ms|
  {
    hide Protocol.Serialize;
    if ms == [] {
      assert Concat(Texts(ms)) + partial == partial;
    } else {
      var rest := Concat(Texts(ms[1..])) + partial;
      var s := Concat(Texts(ms)) + partial;
      assert s == Protocol.Serialize(ms[0]) + rest by {
        TextsFirst(ms);
        Assoc(Protocol.Serialize(ms[0]), Concat(Texts(ms[1..])), partial);
      }
      StreamDecodes(ms[1..], partial);
      DecodeFirst(s, ms[0], rest);
      assert ms == [ms[0]] + ms[1..];
    }
  }
}
