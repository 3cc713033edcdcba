// Shared vocabulary: optional values and the fixed-width integers of the source.
module Prelude {

  datatype Option<+T> = None | Some(value: T)

  const U8: int := 0x100
  const U32: int := 0x1_0000_0000
  const U64: int := 0x1_0000_0000_0000_0000
  const I32_HALF: int := 0x8000_0000
  const I64_HALF: int := 0x8000_0000_0000_0000

  // static_cast to int32_t of an integer of any width.
  function ToInt32(n: int): (r: int)
    ensures -I32_HALF <= r < I32_HALF
    ensures -I32_HALF <= n < I32_HALF ==> r == n
  {
    (n + I32_HALF) % U32 - I32_HALF
  }

  // All texts of a list, one after the other.
  function Concat(texts: seq<string>): string {
    if texts == [] then "" else texts[0] + Concat(texts[1..])
  }

  lemma Assoc<T>(a: seq<T>, b: seq<T>, c: seq<T>)
    ensures a + b + c == a + (b + c)
  {
  }

  lemma {:induction false} ConcatAppend(a: seq<string>, b: seq<string>)
    ensures Concat(a + b) == Concat(a) + Concat(b)
  {
    if a == [] {
      assert a + b == b;
    } else {
      ConcatAppend(a[1..], b);
      assert (a + b)[0] == a[0] && (a + b)[1..] == a[1..] + b;
      Assoc(a[0], Concat(a[1..]), Concat(b));
    }
  }

  lemma ConcatSnoc(a: seq<string>, text: string)
    ensures Concat(a + [text]) == Concat(a) + text
  {
    ConcatAppend(a, [text]);
    assert Concat([text]) == text + Concat([]);
  }
}
