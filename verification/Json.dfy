// The JSON subset on the wire and in the account file: objects, ASCII strings
// and integers (RFC 8259 sections 4, 6 and 7), with the compact printer and the
// recursive-descent reader.
module Json {
  import opened Prelude
  import opened Text

  datatype Json = Str(s: string) | Num(n: int) | Obj(m: map<string, Json>)

  // The values the wire can carry: ASCII text and integers that fit in 64 bits.
  predicate InRange(n: int) {
    -I64_HALF <= n < U64
  }

  predicate Wire(j: Json) {
    match j
    case Str(s) => Ascii(s)
    case Num(n) => InRange(n)
    case Obj(m) => forall k | k in m :: Ascii(k) && Wire(m[k])
  }

  // ---------------------------------------------------------------- printing

  function HexDigit(d: nat): (c: char)
    requires d < 16
    ensures HexValue(c) == Some(d)
    ensures c as int < 128 && c != '\n'
  {
    if d < 10 then ('0' as int + d) as char else ('a' as int + (d - 10)) as char
  }

  function HexValue(c: char): Option<nat> {
    if '0' <= c <= '9' then Some(c as int - '0' as int)
    else if 'a' <= c <= 'f' then Some(c as int - 'a' as int + 10)
    else if 'A' <= c <= 'F' then Some(c as int - 'A' as int + 10)
    else None
  }

  // One character of a string body, escaped where section 7 requires it.
  function PrintChar(c: char): string {
    var n := c as int;
    if c == '\"' then "\\\""
    else if c == '\\' then "\\\\"
    else if n == 8 then "\\b"
    else if n == 9 then "\\t"
    else if n == 10 then "\\n"
    else if n == 12 then "\\f"
    else if n == 13 then "\\r"
    else if n < 32 then "\\u00" + [HexDigit(n / 16), HexDigit(n % 16)]
    else [c]
  }

  function PrintBody(s: string): string {
    if s == [] then "" else PrintChar(s[0]) + PrintBody(s[1..])
  }

  function Quote(s: string): string {
    "\"" + PrintBody(s) + "\""
  }

  function PrintNat(n: nat): string {
    if n < 10 then [('0' as int + n) as char]
    else PrintNat(n / 10) + [('0' as int + n % 10) as char]
  }

  function PrintInt(n: int): string {
    if n < 0 then "-" + PrintNat(-n) else PrintNat(n)
  }

  function Print(j: Json): string
    decreases j, 1, 0
  {
    match j
    case Str(s) => Quote(s)
    case Num(n) => PrintInt(n)
    case Obj(m) => "{" + PrintMembers(j, SortedKeys(m.Keys)) + "}"
  }

  function PrintMembers(j: Json, ks: seq<string>): string
    requires j.Obj? && forall k | k in ks :: k in j.m
    decreases j, 0, |ks|
  {
    if ks == [] then ""
    else
      var member := Quote(ks[0]) + ":" + Print(j.m[ks[0]]);
      if |ks| == 1 then member else member + "," + PrintMembers(j, ks[1..])
  }

  // ----------------------------------------------------------------- reading

  predicate IsSpace(c: char) {
    c == ' ' || c == '\t' || c == '\n' || c == '\r'
  }

  function SkipSpace(s: string): (r: string)
    ensures |r| <= |s|
  {
    if s != [] && IsSpace(s[0]) then SkipSpace(s[1..]) else s
  }

  function ReadHex4(s: string): Option<nat>
    requires |s| == 4
  {
    var a, b, c, d := HexValue(s[0]), HexValue(s[1]), HexValue(s[2]), HexValue(s[3]);
    if a.Some? && b.Some? && c.Some? && d.Some?
    then Some(((a.value * 16 + b.value) * 16 + c.value) * 16 + d.value)
    else None
  }

  // The character an escape after a backslash stands for, and what follows it.
  function ReadEscape(s: string): (r: Option<(char, string)>)
    ensures r.Some? ==> |r.value.1| < |s|
  {
    if s == [] then None
    else match s[0]
      case '\"' => Some(('\"', s[1..]))
      case '\\' => Some(('\\', s[1..]))
      case '/' => Some(('/', s[1..]))
      case 'b' => Some((8 as char, s[1..]))
      case 't' => Some(('\t', s[1..]))
      case 'n' => Some(('\n', s[1..]))
      case 'f' => Some((12 as char, s[1..]))
      case 'r' => Some(('\r', s[1..]))
      case 'u' =>
        if |s| < 5 then None
        else
          var code := ReadHex4(s[1..5]);
          if code.Some? && code.value < 128 then Some((code.value as char, s[5..])) else None
      case _ => None
  }

  // A string body up to its closing quote.
  function ReadBody(s: string): (r: Option<(string, string)>)
    ensures r.Some? ==> |r.value.1| < |s|
  {
    if s == [] then None
    else if s[0] == '\"' then Some(("", s[1..]))
    else if s[0] == '\\' then
      var e := ReadEscape(s[1..]);
      if e.None? then None
      else
        var t := ReadBody(e.value.1);
        if t.None? then None else Some(([e.value.0] + t.value.0, t.value.1))
    else if s[0] as int < 32 || s[0] as int >= 128 then None
    else
      var t := ReadBody(s[1..]);
      if t.None? then None else Some(([s[0]] + t.value.0, t.value.1))
  }

  predicate IsDigit(c: char) {
    '0' <= c <= '9'
  }

  function ReadDigits(s: string, acc: nat): (r: (nat, string))
    ensures |r.1| <= |s|
    decreases |s|
  {
    if s != [] && IsDigit(s[0]) then ReadDigits(s[1..], acc * 10 + (s[0] as int - '0' as int))
    else (acc, s)
  }

  // Section 6: no leading zeros.
  function ReadNat(s: string): (r: Option<(nat, string)>)
    ensures r.Some? ==> |r.value.1| < |s|
  {
    if s == [] || !IsDigit(s[0]) then None
    else if s[0] == '0' then Some((0, s[1..]))
    else Some(ReadDigits(s[1..], s[0] as int - '0' as int))
  }

  function ReadInt(s: string): (r: Option<(int, string)>)
    ensures r.Some? ==> |r.value.1| < |s|
  {
    if s != [] && s[0] == '-' then
      var t := ReadNat(s[1..]);
      if t.None? || !InRange(-(t.value.0 as int)) then None else Some((-(t.value.0 as int), t.value.1))
    else
      var t := ReadNat(s);
      if t.None? || !InRange(t.value.0) then None else Some((t.value.0, t.value.1))
  }

  function ReadValue(text: string): (r: Option<(Json, string)>)
    ensures r.Some? ==> |r.value.1| < |text|
    decreases |text|
  {
    var s := SkipSpace(text);
    if s == [] then None
    else if s[0] == '\"' then
      var t := ReadBody(s[1..]);
      if t.None? then None else Some((Str(t.value.0), t.value.1))
    else if s[0] == '{' then
      var t := SkipSpace(s[1..]);
      if t != [] && t[0] == '}' then Some((Obj(map[]), t[1..]))
      else ReadMembers(t, map[])
    else
      var t := ReadInt(s);
      if t.None? then None else Some((Num(t.value.0), t.value.1))
  }

  // The members of an object up to its closing brace; a repeated key keeps its last value.
  function ReadMembers(text: string, acc: map<string, Json>): (r: Option<(Json, string)>)
    ensures r.Some? ==> |r.value.1| < |text|
    decreases |text|
  {
    var s := SkipSpace(text);
    if s == [] || s[0] != '\"' then None
    else
      var k := ReadBody(s[1..]);
      if k.None? then None
      else
        var c := SkipSpace(k.value.1);
        if c == [] || c[0] != ':' then None
        else
          var v := ReadValue(c[1..]);
          if v.None? then None
          else
            var acc' := acc[k.value.0 := v.value.0];
            var e := SkipSpace(v.value.1);
            if e == [] then None
            else if e[0] == ',' then ReadMembers(e[1..], acc')
            else if e[0] == '}' then Some((Obj(acc'), e[1..]))
            else None
  }

  // json::parse: one value and nothing after it but white space.
  function Parse(text: string): Option<Json> {
    var v := ReadValue(text);
    if v.Some? && SkipSpace(v.value.1) == [] then Some(v.value.0) else None
  }

  // -------------------------------------------------------------- round trip

  lemma ReadControlEscape(n: nat, rest: string)
    requires n < 32
    ensures ReadEscape("u00" + [HexDigit(n / 16), HexDigit(n % 16)] + rest) == Some((n as char, rest))
  {
    var s := "u00" + [HexDigit(n / 16), HexDigit(n % 16)] + rest;
    assert s[1..5] == "00" + [HexDigit(n / 16), HexDigit(n % 16)];
    assert HexValue('0') == Some(0);
    assert s[5..] == rest;
  }

  lemma ReadPrintedChar(c: char, rest: string)
    requires c as int < 128
    ensures var t := ReadBody(rest);
            ReadBody(PrintChar(c) + rest)
            == if t.None? then None else Some(([c] + t.value.0, t.value.1))
  {
    var p := PrintChar(c);
    if |p| == 1 {
      assert (p + rest)[1..] == rest;
    } else {
      assert ReadEscape((p + rest)[1..]) == Some((c, rest)) by {
        assert (p + rest)[1..] == p[1..] + rest;
        if |p| == 2 {
          assert (p[1..] + rest)[1..] == rest;
        } else {
          ReadControlEscape(c as int, rest);
        }
      }
    }
  }

  lemma Regroup(a: string, b: string, c: string, d: string)
    ensures a + b + c + d == a + (b + c + d)
  {
  }

  lemma {:induction false} ReadPrintedBody(s: string, rest: string)
    requires Ascii(s)
    ensures ReadBody(PrintBody(s) + "\"" + rest) == Some((s, rest))
  {
    if s == [] {
      assert PrintBody(s) + "\"" + rest == "\"" + rest;
      assert ("\"" + rest)[1..] == rest;
    } else {
      var tail := PrintBody(s[1..]) + "\"" + rest;
      assert PrintBody(s) + "\"" + rest == PrintChar(s[0]) + tail by {
        Regroup(PrintChar(s[0]), PrintBody(s[1..]), "\"", rest);
      }
      ReadPrintedBody(s[1..], rest);
      ReadPrintedChar(s[0], tail);
      assert [s[0]] + s[1..] == s;
    }
  }

  lemma {:induction false} PrintNatDigits(n: nat)
    ensures PrintNat(n) != [] && forall i | 0 <= i < |PrintNat(n)| :: IsDigit(PrintNat(n)[i])
    ensures n > 0 ==> PrintNat(n)[0] != '0'
  {
    if n >= 10 {
      PrintNatDigits(n / 10);
    }
  }

  predicate NoDigit(rest: string) {
    rest == [] || !IsDigit(rest[0])
  }

  lemma {:induction false} ReadDigitsAppend(ds: string, rest: string, acc: nat)
    requires forall i | 0 <= i < |ds| :: IsDigit(ds[i])
    ensures var (a, r) := ReadDigits(ds, acc); r == [] && ReadDigits(ds + rest, acc) == ReadDigits(rest, a)
    decreases |ds|
  {
    if ds == [] {
      assert ds + rest == rest;
    } else {
      ReadDigitsAppend(ds[1..], rest, acc * 10 + (ds[0] as int - '0' as int));
      assert (ds + rest)[1..] == ds[1..] + rest;
    }
  }

  lemma {:induction false} ReadPrintedDigits(n: nat)
    ensures ReadDigits(PrintNat(n), 0) == (n, [])
  {
    if n < 10 {
      var s := PrintNat(n);
      assert ReadDigits(s, 0) == ReadDigits(s[1..], n);
    } else {
      ReadPrintedDigits(n / 10);
      PrintNatDigits(n / 10);
      var last := [('0' as int + n % 10) as char];
      ReadDigitsAppend(PrintNat(n / 10), last, 0);
      assert ReadDigits(last, n / 10) == ReadDigits(last[1..], n / 10 * 10 + n % 10);
    }
  }

  lemma ReadPrintedNat(n: nat, rest: string)
    requires NoDigit(rest)
    ensures ReadNat(PrintNat(n) + rest) == Some((n, rest))
  {
    PrintNatDigits(n);
    var ds := PrintNat(n);
    if n == 0 {
      assert (ds + rest)[1..] == rest;
    } else {
      ReadPrintedDigits(n);
      ReadDigitsAppend(ds, rest, 0);
      assert (ds + rest)[1..] == ds[1..] + rest;
      assert ReadDigits(ds + rest, 0) == ReadDigits((ds + rest)[1..], ds[0] as int - '0' as int);
    }
  }

  lemma PrintIntStart(n: int)
    ensures PrintInt(n) != [] && (PrintInt(n)[0] == '-' || IsDigit(PrintInt(n)[0]))
  {
    if n >= 0 { PrintNatDigits(n); }
  }

  lemma ReadPrintedInt(n: int, rest: string)
    requires InRange(n) && NoDigit(rest)
    ensures ReadInt(PrintInt(n) + rest) == Some((n, rest))
  {
    if n < 0 {
      ReadPrintedNat(-n, rest);
      assert ("-" + PrintNat(-n) + rest)[1..] == PrintNat(-n) + rest;
    } else {
      ReadPrintedNat(n, rest);
      PrintIntStart(n);
    }
  }

  // acc with the listed keys taken from m.
  function Overlay(acc: map<string, Json>, m: map<string, Json>, ks: seq<string>): (r: map<string, Json>)
    requires forall k | k in ks :: k in m
    ensures forall k :: k in r <==> k in acc || k in ks
    ensures forall k | k in r :: r[k] == if k in ks then m[k] else acc[k]
    decreases |ks|
  {
    if ks == [] then acc else Overlay(acc[ks[0] := m[ks[0]]], m, ks[1..])
  }

  lemma ReadQuoted(s: string, rest: string)
    requires Ascii(s)
    ensures |Quote(s) + rest| > 0 && (Quote(s) + rest)[0] == '\"'
    ensures ReadBody((Quote(s) + rest)[1..]) == Some((s, rest))
  {
    ReadPrintedBody(s, rest);
    assert (Quote(s) + rest)[1..] == PrintBody(s) + "\"" + rest;
  }

  // One member: its key, a colon, and a value text that reads back as v.
  lemma ReadOneMember(k: string, v: Json, value: string, after: string, acc: map<string, Json>)
    requires Ascii(k) && after != [] && (after[0] == ',' || after[0] == '}')
    requires ReadValue(value + after) == Some((v, after))
    ensures ReadMembers(Quote(k) + (":" + (value + after)), acc)
            == if after[0] == ',' then ReadMembers(after[1..], acc[k := v])
               else Some((Obj(acc[k := v]), after[1..]))
  {
    var colon := ":" + (value + after);
    ReadQuoted(k, colon);
    assert colon[1..] == value + after;
  }

  lemma {:induction false} ReadPrinted(j: Json, rest: string)
    requires Wire(j) && NoDigit(rest)
    ensures ReadValue(Print(j) + rest) == Some((j, rest))
    decreases j, 1, 0
  {
    hide SortedKeys;
    match j
    case Str(s) => ReadQuoted(s, rest);
    case Num(n) => ReadPrintedInt(n, rest); PrintIntStart(n);
    case Obj(m) => ReadPrintedObject(m, SortedKeys(m.Keys), rest);
  }

  lemma ReadBraced(inner: string)
    requires inner != [] && inner[0] == '\"'
    ensures ReadValue("{" + inner) == ReadMembers(inner, map[])
  {
    assert ("{" + inner)[1..] == inner;
    assert SkipSpace(inner) == inner;
  }

  lemma ReadEmptyObject(rest: string)
    ensures ReadValue("{}" + rest) == Some((Obj(map[]), rest))
  {
    assert ("{}" + rest)[1..] == "}" + rest;
    assert ("}" + rest)[1..] == rest;
  }

  lemma RegroupBraces(body: string, rest: string)
    ensures "{" + body + "}" + rest == "{" + (body + ("}" + rest))
  {
    Regroup("{", body, "}", rest);
    assert body + "}" + rest == body + ("}" + rest);
  }

  lemma {:induction false} ReadPrintedObject(m: map<string, Json>, ks: seq<string>, rest: string)
    requires Wire(Obj(m)) && forall k :: k in ks <==> k in m
    ensures ReadValue("{" + PrintMembers(Obj(m), ks) + "}" + rest) == Some((Obj(m), rest))
    decreases Obj(m), 0, |ks| + 1
  {
    var body := PrintMembers(Obj(m), ks);
    RegroupBraces(body, rest);
    if ks == [] {
      assert m == map[];
      ReadEmptyObject(rest);
    } else {
      MembersStart(m, ks);
      ReadPrintedMembers(m, ks, map[], rest);
      OverlayAll(m, ks);
      ReadBraced(body + ("}" + rest));
    }
  }

  lemma OverlayAll(m: map<string, Json>, ks: seq<string>)
    requires forall k :: k in ks <==> k in m
    ensures Overlay(map[], m, ks) == m
  {
  }

  lemma MembersStart(m: map<string, Json>, ks: seq<string>)
    requires ks != [] && forall k | k in ks :: k in m
    ensures PrintMembers(Obj(m), ks) != [] && PrintMembers(Obj(m), ks)[0] == '\"'
  {
  }

  lemma RegroupMember(q: string, v: string, more: string, close: string)
    ensures q + ":" + v + close == q + (":" + (v + close))
    ensures q + ":" + v + "," + more + close == q + (":" + (v + ("," + (more + close))))
  {
    Regroup(q, ":", v, close);
    assert ":" + v + close == ":" + (v + close);
    Regroup(q + ":" + v, ",", more, close);
    var tail := "," + (more + close);
    assert "," + more + close == tail;
    Regroup(q, ":", v, tail);
    assert ":" + v + tail == ":" + (v + tail);
  }

  lemma MembersText(m: map<string, Json>, ks: seq<string>, rest: string) returns (after: string)
    requires ks != [] && forall k | k in ks :: k in m
    ensures after == if |ks| == 1 then "}" + rest else "," + (PrintMembers(Obj(m), ks[1..]) + ("}" + rest))
    ensures PrintMembers(Obj(m), ks) + ("}" + rest) == Quote(ks[0]) + (":" + (Print(m[ks[0]]) + after))
  {
    var more := if |ks| == 1 then "" else PrintMembers(Obj(m), ks[1..]);
    after := if |ks| == 1 then "}" + rest else "," + (more + ("}" + rest));
    RegroupMember(Quote(ks[0]), Print(m[ks[0]]), more, "}" + rest);
  }

  lemma {:induction false} ReadPrintedMembers(m: map<string, Json>, ks: seq<string>, acc: map<string, Json>,
                                              rest: string)
    requires Wire(Obj(m)) && ks != [] && forall k | k in ks :: k in m
    ensures ReadMembers(PrintMembers(Obj(m), ks) + ("}" + rest), acc) == Some((Obj(Overlay(acc, m, ks)), rest))
    decreases Obj(m), 0, |ks|
  {
    var k, v, text := ks[0], m[ks[0]], Print(m[ks[0]]);
    var acc' := acc[k := v];
    var after := MembersText(m, ks, rest);
    ReadPrinted(v, after);
    ReadOneMember(k, v, text, after, acc);
    if |ks| == 1 {
      assert after[1..] == rest;
      assert Overlay(acc', m, ks[1..]) == acc';
    } else {
      assert after[1..] == PrintMembers(Obj(m), ks[1..]) + ("}" + rest);
      ReadPrintedMembers(m, ks[1..], acc', rest);
    }
  }

  lemma ParsePrint(j: Json)
    requires Wire(j)
    ensures Parse(Print(j)) == Some(j)
  {
    ReadPrinted(j, []);
    assert Print(j) + [] == Print(j);
  }

  // ----------------------------------------------------- printed text is one line

  predicate OneLine(s: string) {
    Ascii(s) && '\n' !in s
  }

  lemma {:induction false} PrintBodyOneLine(s: string)
    requires Ascii(s)
    ensures OneLine(PrintBody(s))
  {
    if s != [] {
      PrintBodyOneLine(s[1..]);
      assert OneLine(PrintChar(s[0]));
    }
  }

  lemma OneLineConcat(a: string, b: string)
    requires OneLine(a) && OneLine(b)
    ensures OneLine(a + b)
  {
  }

  lemma {:induction false} PrintOneLine(j: Json)
    requires Wire(j)
    ensures OneLine(Print(j))
    ensures j.Obj? ==> |Print(j)| >= 2 && Print(j)[|Print(j)| - 1] == '}'
    decreases j, 1, 0
  {
    hide SortedKeys;
    match j
    case Str(s) => PrintBodyOneLine(s);
    case Num(n) => PrintNatDigits(if n < 0 then -n else n);
    case Obj(m) =>
      PrintMembersOneLine(m, SortedKeys(m.Keys));
      var body := PrintMembers(j, SortedKeys(m.Keys));
      OneLineConcat("{", body);
      OneLineConcat("{" + body, "}");
  }

  lemma {:induction false} PrintMembersOneLine(m: map<string, Json>, ks: seq<string>)
    requires Wire(Obj(m)) && forall k | k in ks :: k in m
    ensures OneLine(PrintMembers(Obj(m), ks))
    decreases Obj(m), 0, |ks|
  {
    if ks != [] {
      PrintBodyOneLine(ks[0]);
      PrintOneLine(m[ks[0]]);
      var member := Quote(ks[0]) + ":" + Print(m[ks[0]]);
      OneLineConcat(Quote(ks[0]) + ":", Print(m[ks[0]]));
      if |ks| > 1 {
        PrintMembersOneLine(m, ks[1..]);
        OneLineConcat(member, ",");
        OneLineConcat(member + ",", PrintMembers(Obj(m), ks[1..]));
      }
    }
  }

  // -------------------------------------------- every value read is a wire value

  lemma {:induction false} ReadBodyAscii(s: string)
    ensures ReadBody(s).Some? ==> Ascii(ReadBody(s).value.0)
    decreases |s|
  {
    if s != [] && s[0] != '\"' {
      if s[0] == '\\' {
        var e := ReadEscape(s[1..]);
        if e.Some? { ReadBodyAscii(e.value.1); }
      } else {
        ReadBodyAscii(s[1..]);
      }
    }
  }

  lemma {:induction false} ReadValueWire(text: string)
    ensures ReadValue(text).Some? ==> Wire(ReadValue(text).value.0)
    decreases |text|
  {
    var s := SkipSpace(text);
    if s != [] && s[0] == '\"' {
      ReadBodyAscii(s[1..]);
    } else if s != [] && s[0] == '{' {
      ReadMembersWire(SkipSpace(s[1..]), map[]);
    }
  }

  lemma {:induction false} ReadMembersWire(text: string, acc: map<string, Json>)
    requires Wire(Obj(acc))
    ensures ReadMembers(text, acc).Some? ==> Wire(ReadMembers(text, acc).value.0)
    decreases |text|
  {
    var s := SkipSpace(text);
    if ReadMembers(text, acc).Some? {
      var k := ReadBody(s[1..]).value;
      ReadBodyAscii(s[1..]);
      var c := SkipSpace(k.1);
      var v := ReadValue(c[1..]).value;
      ReadValueWire(c[1..]);
      var e := SkipSpace(v.1);
      assert Wire(Obj(acc[k.0 := v.0]));
      if e[0] == ',' {
        ReadMembersWire(e[1..], acc[k.0 := v.0]);
      }
    }
  }

  lemma ParsedIsWire(text: string)
    requires Parse(text).Some?
    ensures Wire(Parse(text).value)
  {
    ReadValueWire(text);
  }
}
