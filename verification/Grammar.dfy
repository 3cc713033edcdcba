// The grammar of the JSON subset (RFC 8259 sections 2, 4, 6 and 7), written
// down apart from the reader, and that the reader accepts exactly its texts
// and gives each the value the grammar gives it.
module Grammar {
  import opened Prelude
  import opened Json

  // ----------------------------------------------------------------- the grammar

  // A character of a string body: itself, a one-letter escape, or four hex digits.
  datatype Letter = Plain(c: char) | Escaped(e: char) | Coded(hex: string)

  // The white space a text may have between its tokens is part of its syntax.
  datatype Syntax =
    | Quoted(letters: seq<Letter>)
    | Number(minus: bool, digits: string)
    | Empty(gap: string)
    | Object(members: Members)

  datatype Members = Members(before: string, key: seq<Letter>, colon: string, after: string, value: Syntax,
                             close: string, rest: Option<Members>)

  predicate Gap(s: string) {
    forall i | 0 <= i < |s| :: IsSpace(s[i])
  }

  const ESCAPES := map['\"' := '\"', '\\' := '\\', '/' := '/', 'b' := 8 as char, 't' := '\t', 'n' := '\n',
                       'f' := 12 as char, 'r' := '\r']

  predicate IsHex4(s: string) {
    |s| == 4 && forall i | 0 <= i < 4 :: HexValue(s[i]).Some?
  }

  function Code(hex: string): nat
    requires IsHex4(hex)
  {
    4096 * HexValue(hex[0]).value + 256 * HexValue(hex[1]).value + 16 * HexValue(hex[2]).value + HexValue(hex[3]).value
  }

  predicate LetterOk(l: Letter) {
    match l
    case Plain(c) => 32 <= c as int < 128 && c != '\"' && c != '\\'
    case Escaped(e) => e in ESCAPES
    case Coded(hex) => IsHex4(hex) && Code(hex) < 128
  }

  predicate LettersOk(ls: seq<Letter>) {
    forall i | 0 <= i < |ls| :: LetterOk(ls[i])
  }

  function LetterText(l: Letter): string {
    match l
    case Plain(c) => [c]
    case Escaped(e) => ['\\', e]
    case Coded(hex) => ['\\', 'u'] + hex
  }

  function LetterMeans(l: Letter): char
    requires LetterOk(l)
  {
    match l
    case Plain(c) => c
    case Escaped(e) => ESCAPES[e]
    case Coded(hex) => Code(hex) as char
  }

  // No sign but a minus, and no leading zero.
  predicate DigitsOk(ds: string) {
    ds != [] && (forall i | 0 <= i < |ds| :: IsDigit(ds[i])) && (ds[0] == '0' ==> |ds| == 1)
  }

  function Decimal(ds: string): nat
    requires forall i | 0 <= i < |ds| :: IsDigit(ds[i])
  {
    if ds == [] then 0
    else
      var last := ds[|ds| - 1];
      assert IsDigit(last);
      10 * Decimal(ds[..|ds| - 1]) + (last as int - '0' as int)
  }

  function Signed(minus: bool, ds: string): int
    requires forall i | 0 <= i < |ds| :: IsDigit(ds[i])
  {
    if minus then -(Decimal(ds) as int) else Decimal(ds)
  }

  predicate SyntaxOk(t: Syntax) {
    match t
    case Quoted(ls) => LettersOk(ls)
    case Number(minus, ds) => DigitsOk(ds) && InRange(Signed(minus, ds))
    case Empty(gap) => Gap(gap)
    case Object(ms) => MembersOk(ms)
  }

  predicate MembersOk(ms: Members) {
    && Gap(ms.before) && LettersOk(ms.key) && Gap(ms.colon) && Gap(ms.after) && SyntaxOk(ms.value) && Gap(ms.close)
    && (ms.rest.Some? ==> MembersOk(ms.rest.value))
  }

  // The texts, each with what follows it.
  function LettersThen(ls: seq<Letter>, rest: string): string {
    if ls == [] then rest else LetterText(ls[0]) + LettersThen(ls[1..], rest)
  }

  function ValueThen(t: Syntax, rest: string): string {
    match t
    case Quoted(ls) => "\"" + LettersThen(ls, "\"" + rest)
    case Number(minus, ds) => (if minus then "-" else "") + (ds + rest)
    case Empty(gap) => "{" + (gap + ("}" + rest))
    case Object(ms) => "{" + MembersThen(ms, rest)
  }

  function MembersThen(ms: Members, rest: string): string {
    var end := if ms.rest.Some? then "," + MembersThen(ms.rest.value, rest) else "}" + rest;
    var value := ms.after + ValueThen(ms.value, ms.close + end);
    ms.before + ("\"" + LettersThen(ms.key, "\"" + (ms.colon + (":" + value))))
  }

  // The meanings.
  function LettersMean(ls: seq<Letter>): string
    requires LettersOk(ls)
  {
    seq(|ls|, i requires 0 <= i < |ls| => LetterMeans(ls[i]))
  }

  function Means(t: Syntax): Json
    requires SyntaxOk(t)
  {
    match t
    case Quoted(ls) => Str(LettersMean(ls))
    case Number(minus, ds) => Num(Signed(minus, ds))
    case Empty(_) => Obj(map[])
    case Object(ms) => Obj(MembersMean(ms, map[]))
  }

  // A repeated key has its last value.
  function MembersMean(ms: Members, acc: map<string, Json>): map<string, Json>
    requires MembersOk(ms)
    decreases ms
  {
    var acc' := acc[LettersMean(ms.key) := Means(ms.value)];
    if ms.rest.Some? then MembersMean(ms.rest.value, acc') else acc'
  }

  // A whole text: a value between white space.
  ghost predicate Denotes(text: string, j: Json) {
    exists before, t, after ::
      Gap(before) && SyntaxOk(t) && Gap(after) && text == before + ValueThen(t, after) && j == Means(t)
  }

  // ------------------------------------------------------- what the grammar writes

  predicate NoSpace(s: string) {
    s == [] || !IsSpace(s[0])
  }

  lemma {:induction false} SkipGap(gap: string, rest: string)
    requires Gap(gap) && NoSpace(rest)
    ensures SkipSpace(gap + rest) == rest
  {
    if gap == [] {
      assert gap + rest == rest;
    } else {
      SkipGap(gap[1..], rest);
      assert (gap + rest)[1..] == gap[1..] + rest;
    }
  }

  lemma SkipAll(gap: string)
    requires Gap(gap)
    ensures SkipSpace(gap) == []
  {
    SkipGap(gap, []);
    assert gap + [] == gap;
  }

  lemma ReadEscaped(e: char, rest: string)
    requires e in ESCAPES
    ensures ReadEscape([e] + rest) == Some((ESCAPES[e], rest))
  {
    assert ([e] + rest)[1..] == rest;
  }

  lemma CodeOf(hex: string)
    requires IsHex4(hex)
    ensures ReadHex4(hex) == Some(Code(hex))
  {
    hide HexValue;
  }

  lemma ReadCoded(hex: string, rest: string)
    requires IsHex4(hex) && Code(hex) < 128
    ensures ReadEscape(['u'] + hex + rest) == Some((Code(hex) as char, rest))
  {
    hide HexValue, Code, IsHex4, ReadHex4;
    var s := ['u'] + hex + rest;
    assert |hex| == 4 by { HexLength(hex); }
    assert s[1..5] == hex && s[5..] == rest;
    CodeOf(hex);
  }

  lemma HexLength(hex: string)
    requires IsHex4(hex)
    ensures |hex| == 4
  {
  }

  lemma ReadLetter(l: Letter, rest: string)
    requires LetterOk(l)
    ensures var t := ReadBody(rest);
            ReadBody(LetterText(l) + rest)
            == if t.None? then None else Some(([LetterMeans(l)] + t.value.0, t.value.1))
  {
    hide ReadEscape, HexValue, Code, IsHex4;
    var s := LetterText(l) + rest;
    match l
    case Plain(c) => assert s[1..] == rest;
    case Escaped(e) =>
      assert s[1..] == [e] + rest;
      ReadEscaped(e, rest);
    case Coded(hex) =>
      assert s[1..] == ['u'] + hex + rest;
      ReadCoded(hex, rest);
  }

  lemma {:induction false} ReadLetters(ls: seq<Letter>, rest: string)
    requires LettersOk(ls)
    ensures ReadBody(LettersThen(ls, "\"" + rest)) == Some((LettersMean(ls), rest))
    decreases |ls|
  {
    if ls == [] {
      assert ("\"" + rest)[1..] == rest;
    } else {
      ReadLetters(ls[1..], rest);
      ReadLetter(ls[0], LettersThen(ls[1..], "\"" + rest));
      assert LettersMean(ls) == [LetterMeans(ls[0])] + LettersMean(ls[1..]);
    }
  }

  lemma {:induction false} ReadDecimal(ds: string)
    requires forall i | 0 <= i < |ds| :: IsDigit(ds[i])
    ensures ReadDigits(ds, 0) == (Decimal(ds), [])
    decreases |ds|
  {
    if ds != [] {
      var front, last := ds[..|ds| - 1], [ds[|ds| - 1]];
      ReadDecimal(front);
      ReadDigitsAppend(front, last, 0);
      assert ds == front + last;
      assert ReadDigits(last, Decimal(front)) == ReadDigits(last[1..], Decimal(ds));
    }
  }

  lemma ReadDecimalThen(ds: string, rest: string)
    requires DigitsOk(ds) && NoDigit(rest)
    ensures ReadNat(ds + rest) == Some((Decimal(ds), rest))
  {
    ReadDecimal(ds);
    ReadDigitsAppend(ds, rest, 0);
    assert (ds + rest)[0] == ds[0] && (ds + rest)[1..] == ds[1..] + rest;
    if ds[0] == '0' {
      assert ds[..0] == [] && ds[1..] + rest == rest;
    } else {
      assert ReadDigits(ds + rest, 0) == ReadDigits((ds + rest)[1..], ds[0] as int - '0' as int);
    }
  }

  lemma ReadSigned(minus: bool, ds: string, rest: string)
    requires DigitsOk(ds) && InRange(Signed(minus, ds)) && NoDigit(rest)
    ensures ReadInt((if minus then "-" else "") + (ds + rest)) == Some((Signed(minus, ds), rest))
  {
    ReadDecimalThen(ds, rest);
    if minus {
      assert ("-" + (ds + rest))[1..] == ds + rest;
    } else {
      assert "" + (ds + rest) == ds + rest && (ds + rest)[0] == ds[0];
    }
  }

  lemma ValueStarts(t: Syntax, rest: string)
    requires SyntaxOk(t)
    ensures ValueThen(t, rest) != [] && NoSpace(ValueThen(t, rest))
  {
  }

  lemma {:induction false} ReadsValue(gap: string, t: Syntax, rest: string)
    requires Gap(gap) && SyntaxOk(t) && NoDigit(rest)
    ensures ReadValue(gap + ValueThen(t, rest)) == Some((Means(t), rest))
    decreases t, 1
  {
    var s := ValueThen(t, rest);
    ValueStarts(t, rest);
    SkipGap(gap, s);
    match t
    case Quoted(ls) =>
      ReadLetters(ls, rest);
      assert s[1..] == LettersThen(ls, "\"" + rest);
    case Number(minus, ds) =>
      ReadSigned(minus, ds, rest);
      assert s[0] == if minus then '-' else ds[0];
    case Empty(inner) =>
      assert s[1..] == inner + ("}" + rest);
      SkipGap(inner, "}" + rest);
      assert ("}" + rest)[1..] == rest;
    case Object(ms) =>
      assert s[1..] == MembersThen(ms, rest);
      ReadsMembers(ms, rest, map[]);
  }

  // The text of members from their first key on.
  function FromKey(ms: Members, rest: string): string {
    var end := if ms.rest.Some? then "," + MembersThen(ms.rest.value, rest) else "}" + rest;
    "\"" + LettersThen(ms.key, "\"" + (ms.colon + (":" + (ms.after + ValueThen(ms.value, ms.close + end)))))
  }

  lemma {:induction false} ReadsMembers(ms: Members, rest: string, acc: map<string, Json>)
    requires MembersOk(ms)
    ensures SkipSpace(MembersThen(ms, rest)) == FromKey(ms, rest)
    ensures ReadMembers(FromKey(ms, rest), acc) == Some((Obj(MembersMean(ms, acc)), rest))
    decreases ms, 0
  {
    hide ReadBody, ReadValue, LettersThen, ValueThen, Means, SyntaxOk, LettersOk, LettersMean;
    var end := if ms.rest.Some? then "," + MembersThen(ms.rest.value, rest) else "}" + rest;
    var value := ms.after + ValueThen(ms.value, ms.close + end);
    var s := FromKey(ms, rest);
    SkipGap(ms.before, s);
    assert SkipSpace(s) == s;
    ReadLetters(ms.key, ms.colon + (":" + value));
    assert s[1..] == LettersThen(ms.key, "\"" + (ms.colon + (":" + value)));
    SkipGap(ms.colon, ":" + value);
    assert (":" + value)[1..] == value;
    assert NoDigit(ms.close + end) by { GapNoDigit(ms.close, end); }
    ReadsValue(ms.after, ms.value, ms.close + end);
    SkipGap(ms.close, end);
    var acc' := acc[LettersMean(ms.key) := Means(ms.value)];
    if ms.rest.Some? {
      assert end[1..] == MembersThen(ms.rest.value, rest);
      ReadsMembers(ms.rest.value, rest, acc');
      SkipOnce(MembersThen(ms.rest.value, rest), acc');
    } else {
      assert end[1..] == rest;
    }
  }

  lemma GapNoDigit(gap: string, end: string)
    requires Gap(gap) && end != [] && !IsDigit(end[0])
    ensures NoDigit(gap + end)
  {
  }

  lemma {:induction false} SkipTwice(s: string)
    ensures SkipSpace(SkipSpace(s)) == SkipSpace(s)
  {
    if s != [] && IsSpace(s[0]) {
      SkipTwice(s[1..]);
    }
  }

  // White space before the members makes no difference.
  lemma SkipOnce(s: string, acc: map<string, Json>)
    ensures ReadMembers(s, acc) == ReadMembers(SkipSpace(s), acc)
  {
    SkipTwice(s);
  }

  // ------------------------------------------------------ what the reader accepts

  lemma {:induction false} GapBefore(s: string) returns (gap: string)
    ensures Gap(gap) && s == gap + SkipSpace(s) && NoSpace(SkipSpace(s))
  {
    if s != [] && IsSpace(s[0]) {
      gap := GapBefore(s[1..]);
      gap := [s[0]] + gap;
    } else {
      gap := [];
    }
  }

  lemma LetterRead(s: string) returns (l: Letter)
    requires s != [] && s[0] != '\"' && ReadBody(s).Some?
    ensures LetterOk(l) && LetterText(l) <= s && ReadBody(s[|LetterText(l)|..]).Some?
    ensures var t := ReadBody(s[|LetterText(l)|..]).value;
            ReadBody(s).value == ([LetterMeans(l)] + t.0, t.1) && |s[|LetterText(l)|..]| < |s|
  {
    if s[0] != '\\' {
      l := Plain(s[0]);
    } else if s[1] != 'u' {
      l := Escaped(s[1]);
      assert s[1..][1..] == s[2..];
    } else {
      l := Coded(s[1..][1..5]);
      assert s[1..][5..] == s[6..] && s[2..6] == s[1..][1..5];
      assert LetterText(l) == s[..6];
    }
  }

  lemma {:induction false} LettersRead(s: string) returns (ls: seq<Letter>)
    requires ReadBody(s).Some?
    ensures LettersOk(ls) && s == LettersThen(ls, "\"" + ReadBody(s).value.1)
    ensures ReadBody(s).value.0 == LettersMean(ls)
    decreases |s|
  {
    hide LetterOk, LetterMeans, LetterText, ReadEscape;
    if s[0] == '\"' {
      ls := [];
      assert s == "\"" + s[1..];
    } else {
      var l := LetterRead(s);
      var more := LettersRead(s[|LetterText(l)|..]);
      ls := [l] + more;
      assert s == LetterText(l) + s[|LetterText(l)|..];
      assert LettersMean(ls) == [LetterMeans(l)] + LettersMean(more);
    }
  }

  lemma {:induction false} DigitsRead(s: string, acc: string) returns (ds: string)
    requires forall i | 0 <= i < |acc| :: IsDigit(acc[i])
    ensures (forall i | 0 <= i < |ds| :: IsDigit(ds[i])) && s == ds + ReadDigits(s, Decimal(acc)).1
    ensures ReadDigits(s, Decimal(acc)).0 == Decimal(acc + ds)
    decreases |s|
  {
    if s != [] && IsDigit(s[0]) {
      assert (acc + [s[0]])[..|acc|] == acc;
      ds := DigitsRead(s[1..], acc + [s[0]]);
      assert acc + [s[0]] + ds == acc + ([s[0]] + ds);
      ds := [s[0]] + ds;
    } else {
      ds := [];
      assert acc + [] == acc;
    }
  }

  lemma NatRead(s: string) returns (ds: string)
    requires ReadNat(s).Some?
    ensures DigitsOk(ds) && s == ds + ReadNat(s).value.1 && ReadNat(s).value.0 == Decimal(ds)
  {
    assert [s[0]][..0] == [];
    if s[0] == '0' {
      ds := [s[0]];
    } else {
      ds := DigitsRead(s[1..], [s[0]]);
      ds := [s[0]] + ds;
    }
  }

  lemma IntRead(s: string) returns (minus: bool, ds: string)
    requires ReadInt(s).Some?
    ensures DigitsOk(ds) && s == (if minus then "-" else "") + (ds + ReadInt(s).value.1)
    ensures ReadInt(s).value.0 == Signed(minus, ds) && InRange(Signed(minus, ds))
  {
    minus := s[0] == '-';
    ds := NatRead(if minus then s[1..] else s);
    assert "" + s == s;
  }

  lemma {:induction false} ValueRead(text: string) returns (gap: string, t: Syntax)
    requires ReadValue(text).Some?
    ensures Gap(gap) && SyntaxOk(t) && text == gap + ValueThen(t, ReadValue(text).value.1)
    ensures ReadValue(text).value.0 == Means(t)
    decreases |text|, 1
  {
    hide ReadBody, ReadMembers, ReadInt, SkipSpace, DigitsOk, MembersOk, LettersOk, LettersThen, MembersThen;
    gap := GapBefore(text);
    var s := SkipSpace(text);
    if s[0] == '\"' {
      var ls := LettersRead(s[1..]);
      t := Quoted(ls);
      assert s == "\"" + s[1..];
    } else if s[0] == '{' {
      var inner := GapBefore(s[1..]);
      var m := SkipSpace(s[1..]);
      assert s == "{" + s[1..];
      if m != [] && m[0] == '}' {
        t := Empty(inner);
        assert m == "}" + m[1..];
      } else {
        SkipOnce(s[1..], map[]);
        var ms := MembersRead(s[1..], map[]);
        t := Object(ms);
      }
    } else {
      var minus, ds := IntRead(s);
      t := Number(minus, ds);
    }
  }

  lemma {:induction false} MembersRead(text: string, acc: map<string, Json>) returns (ms: Members)
    requires ReadMembers(text, acc).Some?
    ensures MembersOk(ms) && text == MembersThen(ms, ReadMembers(text, acc).value.1)
    ensures ReadMembers(text, acc).value.0 == Obj(MembersMean(ms, acc))
    decreases |text|, 0
  {
    hide ReadBody, SkipSpace, ReadValue, LettersThen, ValueThen, LettersOk, SyntaxOk;
    var before := GapBefore(text);
    var s := SkipSpace(text);
    assert s == "\"" + s[1..];
    var key := LettersRead(s[1..]);
    var k := ReadBody(s[1..]).value;
    var colon := GapBefore(k.1);
    var c := SkipSpace(k.1);
    assert c == ":" + c[1..];
    var after, value := ValueRead(c[1..]);
    var v := ReadValue(c[1..]).value;
    var close := GapBefore(v.1);
    var e := SkipSpace(v.1);
    var acc' := acc[k.0 := v.0];
    assert e == [e[0]] + e[1..];
    if e[0] == ',' {
      var rest := MembersRead(e[1..], acc');
      ms := Members(before, key, colon, after, value, close, Some(rest));
    } else {
      ms := Members(before, key, colon, after, value, close, None);
    }
  }

  // ------------------------------------------------------------------- the theorem

  // Parsing succeeds exactly on the texts of the grammar, with their meaning.
  lemma ParsesGrammar(text: string, j: Json)
    ensures Parse(text) == Some(j) <==> Denotes(text, j)
  {
    if Denotes(text, j) {
      var before, t, after :|
        Gap(before) && SyntaxOk(t) && Gap(after) && text == before + ValueThen(t, after) && j == Means(t);
      ReadsValue(before, t, after);
      SkipAll(after);
    }
    if Parse(text) == Some(j) {
      var before, t := ValueRead(text);
      var after := GapBefore(ReadValue(text).value.1);
      assert after + [] == after;
    }
  }
}
