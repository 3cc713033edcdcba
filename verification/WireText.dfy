// What stands on the wire, byte by byte: members in the order of their names,
// no white space, numbers in decimal, strings in quotes with the shortest escapes.
module WireText {
  import opened Prelude
  import opened Text
  import opened Json
  import opened Protocol
  import Accounts
  import Grammar
  import ServerSpec

  // --------------------------------------------------------------------- strings

  predicate Plain(c: char) {
    32 <= c as int < 128 && c != '\"' && c != '\\'
  }

  lemma {:induction false} PlainBody(s: string)
    requires forall i | 0 <= i < |s| :: Plain(s[i])
    ensures PrintBody(s) == s
  {
    if s != [] {
      PlainBody(s[1..]);
      assert s == [s[0]] + s[1..];
    }
  }

  // Text without quotes, backslashes and control characters is printed as it is.
  lemma PlainQuoted(s: string)
    requires forall i | 0 <= i < |s| :: Plain(s[i])
    ensures Quote(s) == "\"" + s + "\""
  {
    PlainBody(s);
  }

  lemma {:induction false} PrintBodyAppend(a: string, b: string)
    ensures PrintBody(a + b) == PrintBody(a) + PrintBody(b)
  {
    hide PrintChar;
    if a == [] {
      assert a + b == b;
    } else {
      PrintBodyAppend(a[1..], b);
      assert (a + b)[0] == a[0] && (a + b)[1..] == a[1..] + b;
      Assoc(PrintChar(a[0]), PrintBody(a[1..]), PrintBody(b));
    }
  }

  predicate LowerHex(c: char) {
    '0' <= c <= '9' || 'a' <= c <= 'f'
  }

  // Any other character is printed with the one-letter escape the grammar has
  // for it, or else as four lower-case hex digits.
  lemma Escapes(c: char)
    requires c as int < 128 && !Plain(c)
    ensures var p := PrintBody([c]);
            if exists e :: e in Grammar.ESCAPES && Grammar.ESCAPES[e] == c
            then |p| == 2 && p[0] == '\\' && p[1] in Grammar.ESCAPES && Grammar.ESCAPES[p[1]] == c
            else |p| == 6 && p[..2] == "\\u" && Grammar.IsHex4(p[2..]) && Grammar.Code(p[2..]) == c as int
                 && forall i | 2 <= i < 6 :: LowerHex(p[i])
  {
    var p := PrintBody([c]);
    assert [c][1..] == [] && p == PrintChar(c) + "" == PrintChar(c);
    if |p| == 2 {
      assert p[1] in Grammar.ESCAPES && Grammar.ESCAPES[p[1]] == c;
    } else {
      assert HexValue('0') == Some(0);
    }
  }

  // --------------------------------------------------------------------- numbers

  lemma {:induction false} NatText(n: nat)
    ensures Grammar.DigitsOk(PrintNat(n)) && Grammar.Decimal(PrintNat(n)) == n
  {
    PrintNatDigits(n);
    var ds := PrintNat(n);
    if n < 10 {
      assert ds[..0] == [];
    } else {
      NatText(n / 10);
      assert ds[..|ds| - 1] == PrintNat(n / 10);
    }
  }

  // An integer is printed in decimal, without a leading zero, with a minus
  // exactly when it is negative.
  lemma IntText(n: int)
    ensures var ds := if n < 0 then PrintInt(n)[1..] else PrintInt(n);
            && Grammar.DigitsOk(ds) && Grammar.Decimal(ds) == (if n < 0 then -n else n)
            && (n < 0 ==> PrintInt(n)[0] == '-')
  {
    NatText(if n < 0 then -n else n);
  }

  // -------------------------------------------------------------------- messages

  lemma ObjectText(m: map<string, Json>, ks: seq<string>)
    requires ks == SortedKeys(m.Keys)
    ensures Print(Obj(m)) == "{" + PrintMembers(Obj(m), ks) + "}"
  {
    hide SortedKeys, PrintMembers;
  }

  // One member, with the comma or brace before it.
  function Member(open: string, key: string, value: Json): string {
    open + "\"" + key + "\":" + Print(value)
  }

  lemma QuotedMember(open: string, key: string, value: Json)
    requires forall i | 0 <= i < |key| :: Plain(key[i])
    ensures open + (Quote(key) + ":" + Print(value)) == Member(open, key, value)
  {
    hide Quote, Print;
    PlainQuoted(key);
  }

  predicate PlainKeys(ks: seq<string>) {
    forall i, j | 0 <= i < |ks| && 0 <= j < |ks[i]| :: Plain(ks[i][j])
  }

  // An object of four members, in the order of their names.
  lemma Object4(m: map<string, Json>, ks: seq<string>)
    requires ks == SortedKeys(m.Keys) && |ks| == 4 && PlainKeys(ks)
    ensures Print(Obj(m)) == Member("{", ks[0], m[ks[0]]) + Member(",", ks[1], m[ks[1]])
                             + Member(",", ks[2], m[ks[2]]) + Member(",", ks[3], m[ks[3]]) + "}"
  {
    hide SortedKeys, Print, Quote, Member;
    ObjectText(m, ks);
    MembersText4(Obj(m), ks);
    QuotedMember("{", ks[0], m[ks[0]]);
    QuotedMember(",", ks[1], m[ks[1]]);
    QuotedMember(",", ks[2], m[ks[2]]);
    QuotedMember(",", ks[3], m[ks[3]]);
  }

  lemma Object3(m: map<string, Json>, ks: seq<string>)
    requires ks == SortedKeys(m.Keys) && |ks| == 3 && PlainKeys(ks)
    ensures Print(Obj(m)) == Member("{", ks[0], m[ks[0]]) + Member(",", ks[1], m[ks[1]])
                             + Member(",", ks[2], m[ks[2]]) + "}"
  {
    hide SortedKeys, Print, Quote, Member;
    ObjectText(m, ks);
    MembersText3(Obj(m), ks);
    QuotedMember("{", ks[0], m[ks[0]]);
    QuotedMember(",", ks[1], m[ks[1]]);
    QuotedMember(",", ks[2], m[ks[2]]);
  }

  lemma Object1(m: map<string, Json>, ks: seq<string>)
    requires ks == SortedKeys(m.Keys) && |ks| == 1 && PlainKeys(ks)
    ensures Print(Obj(m)) == Member("{", ks[0], m[ks[0]]) + "}"
  {
    hide SortedKeys, Print, Quote, Member;
    ObjectText(m, ks);
    MembersText1(Obj(m), ks);
    QuotedMember("{", ks[0], m[ks[0]]);
  }

  lemma MembersText1(j: Json, ks: seq<string>)
    requires j.Obj? && |ks| == 1 && ks[0] in j.m
    ensures PrintMembers(j, ks) == Quote(ks[0]) + ":" + Print(j.m[ks[0]])
  {
    hide Quote, Print;
  }

  lemma MembersTextMore(j: Json, ks: seq<string>)
    requires j.Obj? && |ks| > 1 && forall k | k in ks :: k in j.m
    ensures PrintMembers(j, ks) == Quote(ks[0]) + ":" + Print(j.m[ks[0]]) + "," + PrintMembers(j, ks[1..])
  {
    hide Quote, Print;
  }

  lemma MembersText3(j: Json, ks: seq<string>)
    requires j.Obj? && |ks| == 3 && forall k | k in ks :: k in j.m
    ensures PrintMembers(j, ks)
            == Quote(ks[0]) + ":" + Print(j.m[ks[0]]) + ","
               + (Quote(ks[1]) + ":" + Print(j.m[ks[1]]) + "," + (Quote(ks[2]) + ":" + Print(j.m[ks[2]])))
  {
    hide Quote, Print, PrintMembers;
    MembersTextMore(j, ks);
    MembersTextMore(j, ks[1..]);
    MembersText1(j, ks[1..][1..]);
  }

  lemma MembersText4(j: Json, ks: seq<string>)
    requires j.Obj? && |ks| == 4 && forall k | k in ks :: k in j.m
    ensures PrintMembers(j, ks)
            == Quote(ks[0]) + ":" + Print(j.m[ks[0]]) + ","
               + (Quote(ks[1]) + ":" + Print(j.m[ks[1]]) + ","
                  + (Quote(ks[2]) + ":" + Print(j.m[ks[2]]) + "," + (Quote(ks[3]) + ":" + Print(j.m[ks[3]]))))
  {
    hide Quote, Print, PrintMembers;
    MembersTextMore(j, ks);
    MembersText3(j, ks[1..]);
  }

  lemma EnvelopeKeys()
    ensures SortedKeys({"payload", "sequence", "type"}) == ["payload", "sequence", "type"]
    ensures PlainKeys(["payload", "sequence", "type"])
  {
    hide SortedKeys, Leq;
    SmallerFirst("payload", "sequence");
    SmallerFirst("payload", "type");
    SmallerFirst("sequence", "type");
    SortedKeysUnique({"payload", "sequence", "type"}, ["payload", "sequence", "type"]);
  }

  lemma EnvelopeMembers()
    ensures "{" + "\"" + "payload" + "\":" == "{\"payload\":" && "," + "\"" + "sequence" + "\":" == ",\"sequence\":"
    ensures "," + "\"" + "type" + "\":" == ",\"type\":"
  {
  }

  // A message is an object of its payload, its sequence and its type, in this
  // order, and a newline.
  lemma SerializeText(m: Message)
    ensures Serialize(m) == "{\"payload\":" + Print(m.payload) + ",\"sequence\":" + PrintInt(m.sequence)
                            + ",\"type\":" + Quote(m.kind) + "}\n"
  {
    hide SortedKeys, PlainKeys, PrintInt, Quote, Print, Member;
    var e := Envelope(m).m;
    assert e.Keys == {"payload", "sequence", "type"};
    EnvelopeKeys();
    Object3(e, ["payload", "sequence", "type"]);
    NumText(m.sequence);
    StrText(m.kind);
    Glue3("{\"payload\":", Print(m.payload), ",\"sequence\":", PrintInt(m.sequence), ",\"type\":", Quote(m.kind));
    EnvelopeMembers();
    Opened("{", "payload", m.payload, "{\"payload\":");
    Opened(",", "sequence", e["sequence"], ",\"sequence\":");
    Opened(",", "type", e["type"], ",\"type\":");
  }

  lemma NumText(n: int)
    ensures Print(Num(n)) == PrintInt(n)
  {
  }

  lemma StrText(s: string)
    ensures Print(Str(s)) == Quote(s)
  {
  }

  lemma Glue3(a: string, x: string, b: string, y: string, c: string, z: string)
    ensures a + x + (b + y) + (c + z) + "}" + "\n" == a + x + b + y + c + z + "}\n"
  {
  }

  lemma Glue4(a: string, w: string, b: string, x: string, c: string, y: string, d: string, z: string)
    ensures a + w + (b + x) + (c + y) + (d + z) + "}" == a + w + b + x + c + y + d + z + "}"
  {
  }

  lemma Opened(open: string, key: string, value: Json, text: string)
    requires text == open + "\"" + key + "\":"
    ensures Member(open, key, value) == text + Print(value)
  {
    hide Print, Quote;
  }

  lemma OneKey(key: string)
    ensures SortedKeys({key}) == [key]
  {
    hide SortedKeys;
    SortedKeysUnique({key}, [key]);
  }

  lemma OneText()
    ensures PrintInt(1) == "1"
  {
  }

  lemma KeyMembers()
    ensures "{" + "\"" + "clientId" + "\":" == "{\"clientId\":" && "{" + "\"" + "uuid" + "\":" == "{\"uuid\":"
  {
  }

  lemma ClientIdText(id: nat)
    ensures Print(ServerSpec.Handshake(id).payload) == "{\"clientId\":" + PrintInt(id) + "}"
  {
    hide SortedKeys, PrintInt, Print, Member;
    var p := ServerSpec.Handshake(id).payload.m;
    OneKey("clientId");
    assert p.Keys == {"clientId"};
    KeyMembers();
    Object1(p, ["clientId"]);
    NumText(id);
    Opened("{", "clientId", p["clientId"], "{\"clientId\":");
  }

  lemma UuidText(uuid: string)
    ensures Print(ServerSpec.LoginResult(uuid).payload) == "{\"uuid\":" + Quote(uuid) + "}"
  {
    hide SortedKeys, Quote, Print, Member;
    var p := ServerSpec.LoginResult(uuid).payload.m;
    OneKey("uuid");
    assert p.Keys == {"uuid"};
    KeyMembers();
    Object1(p, ["uuid"]);
    StrText(uuid);
    Opened("{", "uuid", p["uuid"], "{\"uuid\":");
  }

  lemma FirstEnd(head: string, kind: string, text: string)
    requires text == ",\"sequence\":" + "1" + ",\"type\":" + ("\"" + kind + "\"") + "}\n"
    ensures head + ",\"sequence\":" + "1" + ",\"type\":" + ("\"" + kind + "\"") + "}\n" == head + text
  {
    Glue5(head, ",\"sequence\":" + "1", ",\"type\":", "\"" + kind + "\"", "}\n");
    Assoc(head, ",\"sequence\":", "1");
  }

  lemma Glue5(a: string, b: string, c: string, d: string, e: string)
    ensures a + b + c + d + e == a + (b + c + d + e)
  {
  }

  lemma HandshakeEnd()
    ensures ",\"sequence\":1,\"type\":\"AssignClientId\"}\n"
            == ",\"sequence\":" + "1" + ",\"type\":" + ("\"" + "AssignClientId" + "\"") + "}\n"
  {
  }

  lemma LoginResultEnd()
    ensures ",\"sequence\":1,\"type\":\"LoginResult\"}\n"
            == ",\"sequence\":" + "1" + ",\"type\":" + ("\"" + "LoginResult" + "\"") + "}\n"
  {
  }

  lemma KindsQuoted()
    ensures Quote(ASSIGN_CLIENT_ID) == "\"" + "AssignClientId" + "\""
    ensures Quote(LOGIN_RESULT) == "\"" + "LoginResult" + "\""
  {
    hide Quote;
    PlainQuoted("AssignClientId");
    PlainQuoted("LoginResult");
  }

  lemma HandshakeText(id: nat)
    ensures Serialize(ServerSpec.Handshake(id))
            == "{\"payload\":" + ("{\"clientId\":" + PrintInt(id) + "}")
               + ",\"sequence\":1,\"type\":\"AssignClientId\"}\n"
  {
    hide Serialize, PrintInt, Quote, Print;
    SerializeText(ServerSpec.Handshake(id));
    ClientIdText(id);
    KindsQuoted();
    OneText();
    HandshakeEnd();
    FirstEnd("{\"payload\":" + ("{\"clientId\":" + PrintInt(id) + "}"), "AssignClientId",
             ",\"sequence\":1,\"type\":\"AssignClientId\"}\n");
  }

  lemma LoginResultText(uuid: string)
    ensures Serialize(ServerSpec.LoginResult(uuid))
            == "{\"payload\":" + ("{\"uuid\":" + Quote(uuid) + "}") + ",\"sequence\":1,\"type\":\"LoginResult\"}\n"
  {
    hide Serialize, PrintInt, Quote, Print;
    SerializeText(ServerSpec.LoginResult(uuid));
    UuidText(uuid);
    KindsQuoted();
    OneText();
    LoginResultEnd();
    FirstEnd("{\"payload\":" + ("{\"uuid\":" + Quote(uuid) + "}"), "LoginResult",
             ",\"sequence\":1,\"type\":\"LoginResult\"}\n");
  }

  lemma ResourceKeys()
    ensures SortedKeys({"food", "iron", "uuid", "wood"}) == ["food", "iron", "uuid", "wood"]
    ensures PlainKeys(["food", "iron", "uuid", "wood"])
  {
    hide SortedKeys, Leq;
    var ks := ["food", "iron", "uuid", "wood"];
    SmallerFirst("food", "iron");
    SmallerFirst("food", "uuid");
    SmallerFirst("food", "wood");
    SmallerFirst("iron", "uuid");
    SmallerFirst("iron", "wood");
    SmallerFirst("uuid", "wood");
    SortedKeysUnique({"food", "iron", "uuid", "wood"}, ks);
  }

  lemma SmallerFirst(a: string, b: string)
    requires a != [] && b != [] && a[0] < b[0]
    ensures Leq(a, b)
  {
  }

  lemma ResourceMembers()
    ensures "{" + "\"" + "food" + "\":" == "{\"food\":" && "," + "\"" + "iron" + "\":" == ",\"iron\":"
    ensures "," + "\"" + "uuid" + "\":" == ",\"uuid\":" && "," + "\"" + "wood" + "\":" == ",\"wood\":"
  {
  }

  // The object of a resource update.
  lemma ResourceText(uuid: string, sequence: nat, r: Accounts.Resources)
    ensures Print(ServerSpec.ResourceUpdate(uuid, sequence, r).payload)
            == "{\"food\":" + PrintInt(r.food) + ",\"iron\":" + PrintInt(r.iron)
               + ",\"uuid\":" + Quote(uuid) + ",\"wood\":" + PrintInt(r.wood) + "}"
  {
    hide SortedKeys, PlainKeys, PrintInt, Quote, Print, Member;
    var p := ServerSpec.ResourceUpdate(uuid, sequence, r).payload.m;
    ResourceKeys();
    ResourceMembers();
    assert p.Keys == {"food", "iron", "uuid", "wood"};
    Object4(p, ["food", "iron", "uuid", "wood"]);
    NumText(r.food);
    NumText(r.iron);
    NumText(r.wood);
    StrText(uuid);
    Glue4("{\"food\":", PrintInt(r.food), ",\"iron\":", PrintInt(r.iron), ",\"uuid\":", Quote(uuid),
          ",\"wood\":", PrintInt(r.wood));
    Opened("{", "food", p["food"], "{\"food\":");
    Opened(",", "iron", p["iron"], ",\"iron\":");
    Opened(",", "uuid", p["uuid"], ",\"uuid\":");
    Opened(",", "wood", p["wood"], ",\"wood\":");
  }

  lemma ResourceUpdateText(uuid: string, sequence: nat, r: Accounts.Resources)
    ensures Serialize(ServerSpec.ResourceUpdate(uuid, sequence, r))
            == "{\"payload\":" + ("{\"food\":" + PrintInt(r.food) + ",\"iron\":" + PrintInt(r.iron)
                                  + ",\"uuid\":" + Quote(uuid) + ",\"wood\":" + PrintInt(r.wood) + "}")
               + ",\"sequence\":" + PrintInt(sequence) + ",\"type\":\"ResourceUpdate\"}\n"
  {
    hide Serialize, PrintInt, Quote, Print;
    SerializeText(ServerSpec.ResourceUpdate(uuid, sequence, r));
    ResourceText(uuid, sequence, r);
    UpdateQuoted();
    TypeEnd("{\"payload\":" + Print(ServerSpec.ResourceUpdate(uuid, sequence, r).payload)
            + ",\"sequence\":" + PrintInt(sequence), "ResourceUpdate", ",\"type\":\"ResourceUpdate\"}\n");
  }

  lemma UpdateQuoted()
    ensures Quote(RESOURCE_UPDATE) == "\"" + "ResourceUpdate" + "\""
    ensures ",\"type\":\"ResourceUpdate\"}\n" == ",\"type\":" + ("\"" + "ResourceUpdate" + "\"") + "}\n"
  {
    hide Quote;
    PlainQuoted("ResourceUpdate");
  }

  lemma TypeEnd(head: string, kind: string, text: string)
    requires text == ",\"type\":" + ("\"" + kind + "\"") + "}\n"
    ensures head + ",\"type\":" + ("\"" + kind + "\"") + "}\n" == head + text
  {
    Glue5(head, ",\"type\":", "\"" + kind + "\"", "}\n", "");
    assert text + "" == text;
  }
}
