// The client's connection object: the receive thread's loop and the queue it fills.
module Network {
  import opened Prelude
  import opened Protocol
  import Framing

  // The first n of the lines, or all when there are fewer.
  function FirstOf(lines: seq<string>, n: nat): (first: seq<string>)
    ensures first <= lines && |first| == if n < |lines| then n else |lines|
  {
    if n < |lines| then lines[..n] else lines
  }

  lemma {:induction false} DecodeSnoc(lines: seq<string>, line: string)
    ensures var m := Parse(Framing.StripCr(line));
            Framing.Decode(lines + [line]) == Framing.Decode(lines) + (if m.Some? then [m.value] else [])
  {
    hide Parse, Framing.StripCr;
    var all := lines + [line];
    if lines == [] {
      assert all == [line] && all[1..] == [];
    } else {
      DecodeSnoc(lines[1..], line);
      assert all[0] == lines[0] && all[1..] == lines[1..] + [line];
      var m, n := Parse(Framing.StripCr(lines[0])), Parse(Framing.StripCr(line));
      Assoc(if m.Some? then [m.value] else [], Framing.Decode(lines[1..]), if n.Some? then [n.value] else []);
    }
  }

  // whole is the lines taken out of it so far, and then what is left.
  ghost predicate Taken(whole: string, taken: seq<string>, left: string) {
    && whole == Framing.Unsplit(taken) + left
    && Framing.Lines(whole) == taken + Framing.Lines(left)
    && Framing.Tail(whole) == Framing.Tail(left)
  }

  lemma TakenNone(whole: string)
    ensures Taken(whole, [], whole)
  {
    assert "" + whole == whole;
  }

  lemma TakenWhole(whole: string, taken: seq<string>, left: string)
    requires Taken(whole, taken, left)
    ensures whole == Framing.Unsplit(taken) + left
  {
  }

  lemma TakenNext(whole: string, taken: seq<string>, buffer: string, rest: string)
    requires Taken(whole, taken, buffer + rest) && Framing.HasLine(buffer)
    ensures Taken(whole, taken + [Framing.FirstLine(buffer)], Framing.AfterLine(buffer) + rest)
  {
    var line, left := Framing.FirstLine(buffer), Framing.AfterLine(buffer) + rest;
    LineOfStream(buffer, rest);
    UnsplitSnoc(taken, line, left);
    Assoc(taken, [line], Framing.Lines(left));
  }

  lemma TakenFirst(whole: string, taken: seq<string>, left: string, n: nat)
    requires Taken(whole, taken, left)
    ensures |taken| == n ==> taken == FirstOf(Framing.Lines(whole), n) && n <= |Framing.Lines(whole)|
    ensures !Framing.HasLine(left) && |taken| <= n ==>
              taken == FirstOf(Framing.Lines(whole), n) && left == Framing.Tail(whole)
  {
    assert (taken + Framing.Lines(left))[..|taken|] == taken;
    assert taken + [] == taken;
  }

  class NetworkClient {
    var m_incoming: string
    var m_recvQueue: seq<Message>
    var m_running: bool
    var open: bool                // m_socket is connected
    ghost var received: string
    ghost var lines: seq<string>
    ghost var written: string

    ghost function Input(): Framing.Input
      reads this
    {
      Framing.Input(m_incoming, received, lines)
    }

    constructor ()
      ensures Input() == Framing.EMPTY && m_recvQueue == [] && !m_running && !open && written == ""
    {
      m_incoming, m_recvQueue, m_running, open := "", [], false, false;
      received, lines, written := "", [], "";
    }

    // read_until: reads until the buffer holds a line; chunks are the reads the
    // socket still has before it closes. The result is the error flag.
    method ReadUntil(chunks: seq<string>) returns (ec: bool, rest: seq<string>)
      modifies this`m_incoming, this`received
      ensures ec <==> !Framing.HasLine(m_incoming)
      ensures m_incoming + Concat(rest) == old(m_incoming) + Concat(chunks)
      ensures received + Concat(rest) == old(received) + Concat(chunks)
      ensures ec ==> rest == []
    {
      rest := chunks;
      while !Framing.HasLine(m_incoming) && rest != []
        invariant m_incoming + Concat(rest) == old(m_incoming) + Concat(chunks)
        invariant received + Concat(rest) == old(received) + Concat(chunks)
        decreases |rest|
      {
        Assoc(m_incoming, rest[0], Concat(rest[1..]));
        Assoc(received, rest[0], Concat(rest[1..]));
        m_incoming := m_incoming + rest[0];
        received := received + rest[0];
        rest := rest[1..];
      }
      ec := !Framing.HasLine(m_incoming);
    }

    // One line out of the buffer, parsed and queued.
    method TakeLine()
      requires Framing.HasLine(m_incoming)
      modifies this`m_incoming, this`m_recvQueue, this`lines
      ensures Input() == Framing.Do(old(Input()), Framing.Take)
      ensures var m := Parse(Framing.StripCr(Framing.FirstLine(old(m_incoming))));
              m_recvQueue == old(m_recvQueue) + (if m.Some? then [m.value] else [])
    {
      hide Parse;
      var i := 0;
      while m_incoming[i] != '\n'
        invariant 0 <= i <= Framing.LineEnd(m_incoming)
        invariant m_incoming == old(m_incoming) && m_recvQueue == old(m_recvQueue) && lines == old(lines)
        decreases |m_incoming| - i
      {
        i := i + 1;
      }
      var line := m_incoming[..i];
      m_incoming := m_incoming[i + 1..];
      lines := lines + [line];
      if line != [] && line[|line| - 1] == '\r' {
        line := line[..|line| - 1];
      }
      var m := Parse(line);
      if m.Some? {
        m_recvQueue := m_recvQueue + [m.value];
      }
    }

    // The receive thread, from connecting to its end. rounds: how many rounds go
    // by before the other thread clears m_running. What is taken and queued is
    // what the first lines of the whole stream are, however it was cut; what
    // is neither is still in the buffer or, in rest, in the socket.
    method RecvLoop(chunks: seq<string>, rounds: nat) returns (rest: seq<string>)
      modifies this`m_incoming, this`m_recvQueue, this`m_running, this`received, this`lines
      ensures var stream := old(m_incoming) + Concat(chunks);
              var taken := FirstOf(Framing.Lines(stream), rounds);
              && m_recvQueue == old(m_recvQueue) + Framing.Decode(taken)
              && lines == old(lines) + taken
              && stream == Framing.Unsplit(taken) + (m_incoming + Concat(rest))
              && (|Framing.Lines(stream)| < rounds ==> m_incoming == Framing.Tail(stream) && rest == [])
      ensures received + Concat(rest) == old(received) + Concat(chunks)
      ensures !m_running
    {
      hide Parse, Framing.Decode, Framing.StripCr, Taken, FirstOf, Framing.Unsplit;
      rest := chunks;
      var left := rounds;
      ghost var whole := m_incoming + Concat(rest);
      ghost var taken: seq<string> := [];
      DecodeNone();
      TakenNone(whole);
      m_running := left > 0;
      while m_running
        invariant 0 <= left && m_running == (left > 0) && |taken| + left == rounds
        invariant Taken(whole, taken, m_incoming + Concat(rest))
        invariant received + Concat(rest) == old(received) + Concat(chunks)
        invariant m_recvQueue == old(m_recvQueue) + Framing.Decode(taken) && lines == old(lines) + taken
        decreases left
      {
        var ec: bool;
        ec, rest := ReadUntil(rest);
        if ec {
          assert m_incoming + Concat(rest) == m_incoming;
          break;
        }
        ghost var line := Framing.FirstLine(m_incoming);
        TakenNext(whole, taken, m_incoming, Concat(rest));
        DecodeSnoc(taken, line);
        ghost var m := Parse(Framing.StripCr(line));
        Assoc(old(m_recvQueue), Framing.Decode(taken), if m.Some? then [m.value] else []);
        Assoc(old(lines), taken, [line]);
        TakeLine();
        taken := taken + [line];
        left := left - 1;
        m_running := left > 0;
      }
      TakenFirst(whole, taken, m_incoming + Concat(rest), rounds);
      TakenWhole(whole, taken, m_incoming + Concat(rest));
      m_running := false;
    }

    // Messages the receive thread has queued in the meantime.
    method Push(ms: seq<Message>)
      modifies this`m_recvQueue
      ensures m_recvQueue == old(m_recvQueue) + ms
    {
      m_recvQueue := m_recvQueue + ms;
    }

    method PollMessage() returns (out: Option<Message>)
      modifies this`m_recvQueue
      ensures old(m_recvQueue) == [] ==> out == None && m_recvQueue == []
      ensures old(m_recvQueue) != [] ==> out == Some(old(m_recvQueue)[0]) && m_recvQueue == old(m_recvQueue)[1..]
    {
      if m_recvQueue == [] {
        return None;
      }
      out := Some(m_recvQueue[0]);
      m_recvQueue := m_recvQueue[1..];
    }

    // A reader that had whole lines so far gets exactly one more message out of
    // the stream, the one sent, and nothing is left over.
    method SendMessage(msg: Message)
      modifies this`written
      ensures written == old(written) + Serialize(msg)
      ensures Wire(msg) && Framing.Tail(old(written)) == "" ==>
                && Framing.Decode(Framing.Lines(written)) == Framing.Decode(Framing.Lines(old(written))) + [msg]
                && Framing.Tail(written) == ""
    {
      hide Serialize, Framing.Decode;
      if Wire(msg) && Framing.Tail(written) == "" {
        SentDecodes(written, msg);
      }
      written := written + Serialize(msg);
    }

    // Stops the receive loop and closes the socket; where the loop has ended by
    // itself the socket is left as it is.
    method Shutdown()
      modifies this`m_running, this`open
      ensures !m_running
      ensures open == (old(open) && !old(m_running))
    {
      if !m_running {
        return;
      }
      m_running := false;
      open := false;
    }
  }

  lemma SentDecodes(written: string, msg: Message)
    requires Wire(msg) && Framing.Tail(written) == ""
    ensures Framing.Decode(Framing.Lines(written + Serialize(msg)))
            == Framing.Decode(Framing.Lines(written)) + [msg]
    ensures Framing.Tail(written + Serialize(msg)) == ""
  {
    hide Serialize, Framing.Decode, Parse;
    var text := Serialize(msg);
    Framing.LinesAppend(written, text);
    assert "" + text == text && text + "" == text;
    Framing.MessageFirst(msg, "");
    var line := Framing.FirstLine(text);
    assert Framing.Lines("") == [] && Framing.Tail("") == "";
    assert Framing.Lines(text) == [line] + [] == [line];
    DecodeSnoc(Framing.Lines(written), line);
  }

  lemma UnsplitSnoc(taken: seq<string>, line: string, rest: string)
    ensures Framing.Unsplit(taken + [line]) + rest == Framing.Unsplit(taken) + (line + "\n" + rest)
  {
    Framing.UnsplitAppend(taken, [line]);
    assert Framing.Unsplit([]) == "" && [line][1..] == [];
    assert Framing.Unsplit([line]) == line + "\n" + "" == line + "\n";
    Assoc(Framing.Unsplit(taken), line + "\n", rest);
  }

  lemma DecodeNone()
    ensures Framing.Decode([]) == [] && Framing.Unsplit([]) == ""
  {
  }

  // A buffer that holds a line gives the first line of the stream it starts.
  lemma LineOfStream(buffer: string, rest: string)
    requires Framing.HasLine(buffer)
    ensures var next := Framing.AfterLine(buffer) + rest;
            && Framing.Lines(buffer + rest) == [Framing.FirstLine(buffer)] + Framing.Lines(next)
            && Framing.Tail(buffer + rest) == Framing.Tail(next)
            && buffer + rest == Framing.FirstLine(buffer) + "\n" + next
  {
    var head := Framing.FirstLine(buffer) + "\n";
    Framing.FirstLineSplits(buffer);
    Assoc(head, Framing.AfterLine(buffer), rest);
    Framing.LinesStep(Framing.FirstLine(buffer), Framing.AfterLine(buffer) + rest);
  }
}
