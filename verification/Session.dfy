// The server's session object, each completion handler one method.
module ServerSession {
  import opened Prelude
  import opened Protocol
  import opened WriteQueue
  import Framing

  class Session {
    const m_clientId: nat
    var m_uuid: string
    var m_incoming: string
    var m_outgoing: seq<string>

    // What asio holds for the session: whether a read is armed, the texts posted
    // to the strand, the writes in flight, and how far the front one has come.
    var reading: bool
    var strand: seq<string>
    var inFlight: nat
    var written: nat
    var failed: bool

    // History.
    ghost const serial: nat
    ghost var received: string
    ghost var lines: seq<string>
    ghost var wire: string
    ghost var done: seq<string>
    ghost var sent: seq<Message>

    ghost function View(): SessionView
      reads this
    {
      SessionView(m_clientId, m_uuid, Framing.Input(m_incoming, received, lines), reading,
                  strand, m_outgoing, inFlight, written, failed, wire, sent, done)
    }

    constructor (clientId: nat, ghost serial: nat)
      ensures View() == Opened(clientId) && this.serial == serial && m_clientId == clientId
    {
      m_clientId := clientId;
      m_uuid, m_incoming, m_outgoing := "", "", [];
      reading, strand, inFlight, written, failed := false, [], 0, 0, false;
      this.serial := serial;
      received, lines, wire, done, sent := "", [], "", [], [];
    }

    method SetUUID(uuid: string)
      modifies this
      ensures View() == old(View()).(uuid := uuid)
    {
      m_uuid := uuid;
    }

    method Start()
      modifies this
      ensures View() == old(View()).(reading := true)
    {
      DoRead();
    }

    method DoRead()
      modifies this
      ensures View() == old(View()).(reading := true)
    {
      reading := true;
    }

    // The armed read takes bytes from the socket into the buffer.
    method ReadSome(chunk: string)
      modifies this
      ensures View() == var v := old(View()); v.(input := Framing.Do(v.input, Framing.Receive(chunk)))
    {
      m_incoming := m_incoming + chunk;
      received := received + chunk;
    }

    // std::getline: up to the first newline, which is dropped.
    method GetLine() returns (line: string)
      requires Framing.HasLine(m_incoming)
      modifies this
      ensures line == Framing.FirstLine(old(m_incoming))
      ensures View() == var v := old(View()); v.(input := Framing.Do(v.input, Framing.Take))
    {
      var i := 0;
      while m_incoming[i] != '\n'
        invariant 0 <= i <= Framing.LineEnd(m_incoming)
        invariant m_incoming == old(m_incoming) && View() == old(View())
        decreases |m_incoming| - i
      {
        i := i + 1;
      }
      line := m_incoming[..i];
      m_incoming := m_incoming[i + 1..];
      lines := lines + [line];
    }

    // The read handler up to its callback: the message to hand on, if the line
    // is one, and the next read armed; after an error no read is.
    method OnRead(ec: bool) returns (m: Option<Message>)
      requires !ec ==> reading && Framing.HasLine(m_incoming)
      modifies this
      ensures ec ==> m == None && View() == old(View()).(reading := false)
      ensures !ec ==>
                && m == Parse(Framing.StripCr(Framing.FirstLine(old(m_incoming))))
                && View() == var v := old(View()); v.(input := Framing.Do(v.input, Framing.Take))
    {
      hide Parse;
      reading := false;
      if ec {
        return None;
      }
      var line := GetLine();
      if line != [] && line[|line| - 1] == '\r' {
        line := line[..|line| - 1];
      }
      m := Parse(line);
      DoRead();
    }

    method Send(msg: Message)
      modifies this
      ensures View() == Apply(old(View()), Post(msg))
    {
      hide Serialize;
      var text := Serialize(msg);
      strand := strand + [text];
      sent := sent + [msg];
    }

    // The strand runs the first task posted to it.
    method RunPosted()
      requires strand != []
      modifies this
      ensures View() == Apply(old(View()), RunTask)
    {
      var text := strand[0];
      strand := strand[1..];
      var busy := m_outgoing != [];
      m_outgoing := m_outgoing + [text];
      if !busy {
        DoWrite();
      }
    }

    method DoWrite()
      requires m_outgoing != []
      modifies this
      ensures View() == StartWrite(old(View()))
    {
      inFlight := inFlight + 1;
      written := 0;
    }

    // The write in flight hands n more bytes of the front text to the socket.
    method WriteSome(n: nat)
      requires Enabled(View(), Step.Accept(n))
      modifies this
      ensures View() == Apply(old(View()), Step.Accept(n))
    {
      wire := wire + m_outgoing[0][written..written + n];
      written := written + n;
    }

    // The write handler up to its callback.
    method OnWritten(ec: bool)
      requires Enabled(View(), if ec then Fail else Done)
      modifies this
      ensures View() == Apply(old(View()), if ec then Fail else Done)
    {
      inFlight := inFlight - 1;
      if ec {
        failed := true;
        return;
      }
      done := done + [m_outgoing[0]];
      m_outgoing := m_outgoing[1..];
      written := 0;
      if m_outgoing != [] {
        DoWrite();
      }
    }
  }
}
