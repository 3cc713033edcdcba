// The message envelope: one compact JSON object per line.
module Protocol {
  import opened Prelude
  import opened Text
  import Json

  const ASSIGN_CLIENT_ID := "AssignClientId"
  const RESOURCE_UPDATE := "ResourceUpdate"
  const LOGIN_REQUEST := "LoginRequest"
  const LOGIN_RESULT := "LoginResult"

  datatype Message = Message(kind: string, sequence: nat, payload: Json.Json)

  // The messages the wire can carry.
  predicate Wire(m: Message) {
    Ascii(m.kind) && m.sequence < U32 && Json.Wire(m.payload)
  }

  function Envelope(m: Message): Json.Json {
    Json.Obj(map["type" := Json.Str(m.kind), "sequence" := Json.Num(m.sequence), "payload" := m.payload])
  }

  function Body(m: Message): string {
    Json.Print(Envelope(m))
  }

  function Serialize(m: Message): string {
    Body(m) + "\n"
  }

  // json::at: the member of an object, absent for any other value.
  function At(j: Json.Json, key: string): Option<Json.Json> {
    if j.Obj? && key in j.m then Some(j.m[key]) else None
  }

  // get<std::string> after at: None stands for the exception either one throws.
  function StringAt(j: Json.Json, key: string): Option<string> {
    var v := At(j, key);
    if v.Some? && v.value.Str? then Some(v.value.s) else None
  }

  // get<uintN_t> after at: the integer is truncated to the width, not checked.
  function UnsignedAt(j: Json.Json, key: string, width: int): (r: Option<nat>)
    requires width > 0
    ensures r.Some? ==> r.value < width
  {
    var v := At(j, key);
    if v.Some? && v.value.Num? then Some(v.value.n % width) else None
  }

  // Message::parse: None stands for the exception.
  function Parse(raw: string): Option<Message> {
    var j := Json.Parse(raw);
    if j.None? then None
    else
      var kind := StringAt(j.value, "type");
      var sequence := UnsignedAt(j.value, "sequence", U32);
      var payload := At(j.value, "payload");
      if kind.Some? && sequence.Some? && payload.Some?
      then Some(Message(kind.value, sequence.value, payload.value))
      else None
  }

  lemma StringAtMeans(j: Json.Json, key: string, s: string)
    ensures StringAt(j, key) == Some(s) <==> j.Obj? && key in j.m && j.m[key] == Json.Str(s)
  {
  }

  // A text is a message exactly when it is an object with the three members.
  lemma ParseMeans(raw: string, m: Message)
    ensures Parse(raw) == Some(m)
            <==> && Json.Parse(raw).Some?
                 && var j := Json.Parse(raw).value;
                    && j.Obj? && "type" in j.m && "sequence" in j.m && "payload" in j.m
                    && j.m["type"] == Json.Str(m.kind) && j.m["payload"] == m.payload
                    && j.m["sequence"].Num? && j.m["sequence"].n % U32 == m.sequence
  {
    hide Json.Parse;
  }

  lemma EnvelopeWire(m: Message)
    requires Wire(m)
    ensures Json.Wire(Envelope(m))
  {
    var e := Envelope(m).m;
    assert Ascii("type") && Ascii("sequence") && Ascii("payload");
    forall k | k in e ensures Ascii(k) && Json.Wire(e[k]) {
      assert k in {"type", "sequence", "payload"};
    }
  }

  lemma ParseEnvelope(raw: string, m: Message)
    requires m.sequence < U32 && Json.Parse(raw) == Some(Envelope(m))
    ensures Parse(raw) == Some(m)
  {
    var j := Envelope(m);
    assert At(j, "payload") == Some(m.payload);
    assert StringAt(j, "type") == Some(m.kind);
    assert UnsignedAt(j, "sequence", U32) == Some(m.sequence);
  }

  // The text of a message is one line whose only newline is its last
  // character, and reading that line gives the message back.
  lemma RoundTrip(m: Message)
    requires Wire(m)
    ensures Parse(Body(m)) == Some(m)
    ensures Json.OneLine(Body(m)) && Body(m) != [] && Body(m)[|Body(m)| - 1] != '\r'
  {
    EnvelopeWire(m);
    Json.ParsePrint(Envelope(m));
    Json.PrintOneLine(Envelope(m));
    ParseEnvelope(Body(m), m);
  }

  // Different messages never share a text.
  lemma SerializeInjective(m: Message, n: Message)
    requires Wire(m) && Wire(n) && Serialize(m) == Serialize(n)
    ensures m == n
  {
    RoundTrip(m);
    RoundTrip(n);
    assert Serialize(m)[..|Serialize(m)| - 1] == Body(m);
    assert Serialize(n)[..|Serialize(n)| - 1] == Body(n);
  }

  // Whatever was read from the wire can be sent again unchanged.
  lemma ParsedMessagesTravel(raw: string)
    requires Parse(raw).Some?
    ensures Wire(Parse(raw).value) && Parse(Body(Parse(raw).value)) == Parse(raw)
  {
    Json.ParsedIsWire(raw);
    RoundTrip(Parse(raw).value);
  }
}
