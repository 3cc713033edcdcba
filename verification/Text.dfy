// Byte strings: the lexicographic order std::map uses on its keys, and the
// sorted list of a finite set of keys.
module Text {

  // Bytes below 128: the part of the alphabet this model covers.
  predicate Ascii(s: string) {
    forall i | 0 <= i < |s| :: s[i] as int < 128
  }

  predicate Leq(a: string, b: string) {
    a == [] || (b != [] && (a[0] < b[0] || (a[0] == b[0] && Leq(a[1..], b[1..]))))
  }

  lemma {:induction false} LeqTotal(a: string, b: string)
    ensures Leq(a, b) || Leq(b, a)
  {
    if a != [] && b != [] && a[0] == b[0] {
      LeqTotal(a[1..], b[1..]);
    }
  }

  lemma {:induction false} LeqAntisymmetric(a: string, b: string)
    requires Leq(a, b) && Leq(b, a)
    ensures a == b
  {
    if a != [] && b != [] {
      LeqAntisymmetric(a[1..], b[1..]);
      assert a == [a[0]] + a[1..] && b == [b[0]] + b[1..];
    }
  }

  lemma {:induction false} LeqTransitive(a: string, b: string, c: string)
    requires Leq(a, b) && Leq(b, c)
    ensures Leq(a, c)
  {
    if a != [] && a[0] == b[0] == c[0] {
      LeqTransitive(a[1..], b[1..], c[1..]);
    }
  }

  predicate IsLeast(k: string, s: set<string>) {
    k in s && forall x | x in s :: Leq(k, x)
  }

  lemma {:induction false} LeastExists(s: set<string>)
    requires s != {}
    ensures exists k :: IsLeast(k, s)
    decreases |s|
  {
    var x :| x in s;
    LeqTotal(x, x);
    if s != {x} {
      var rest := s - {x};
      assert s == rest + {x};
      LeastExists(rest);
      var k :| IsLeast(k, rest);
      LeqTotal(x, k);
      if Leq(x, k) {
        forall y | y in s ensures Leq(x, y) {
          if y != x { LeqTransitive(x, k, y); }
        }
        assert IsLeast(x, s);
      } else {
        assert IsLeast(k, s);
      }
    } else {
      assert IsLeast(x, s);
    }
  }

  function Least(s: set<string>): (k: string)
    requires s != {}
    ensures IsLeast(k, s)
  {
    LeastExists(s);
    assert forall x, y | IsLeast(x, s) && IsLeast(y, s) :: x == y by {
      forall x, y | IsLeast(x, s) && IsLeast(y, s) ensures x == y {
        LeqAntisymmetric(x, y);
      }
    }
    var k :| IsLeast(k, s);
    k
  }

  // The keys of an object in the order a std::map iterates over them.
  function SortedKeys(s: set<string>): (ks: seq<string>)
    ensures |ks| == |s|
    ensures forall k :: k in ks <==> k in s
    ensures forall i, j | 0 <= i < j < |ks| :: ks[i] != ks[j] && Leq(ks[i], ks[j])
    decreases |s|
  {
    if s == {} then []
    else
      var k := Least(s);
      [k] + SortedKeys(s - {k})
  }

  // Where a and b first differ, a has the smaller byte.
  predicate SmallerAt(a: string, b: string, i: nat) {
    i < |a| && i < |b| && a[..i] == b[..i] && a[i] < b[i]
  }

  lemma {:induction false} LeqMeaning(a: string, b: string)
    ensures Leq(a, b) <==> a <= b || exists i: nat :: SmallerAt(a, b, i)
  {
    if a != [] && b != [] {
      if a[0] == b[0] {
        LeqMeaning(a[1..], b[1..]);
        assert a == [a[0]] + a[1..] && b == [b[0]] + b[1..];
        if i: nat :| SmallerAt(a[1..], b[1..], i) {
          assert a[..i + 1] == [a[0]] + a[1..][..i] && b[..i + 1] == [b[0]] + b[1..][..i];
          assert SmallerAt(a, b, i + 1);
        }
        if i: nat :| SmallerAt(a, b, i) {
          assert i > 0;
          assert a[1..][..i - 1] == a[..i][1..] && b[1..][..i - 1] == b[..i][1..];
          assert SmallerAt(a[1..], b[1..], i - 1);
        }
      } else {
        assert a[..0] == b[..0];
        assert SmallerAt(a, b, 0) <==> a[0] < b[0];
        assert forall i: nat | SmallerAt(a, b, i) && i > 0 :: a[0] == a[..i][0] == b[..i][0] == b[0];
      }
    }
  }

  lemma SortedKeysStep(s: set<string>)
    requires s != {}
    ensures SortedKeys(s) == [Least(s)] + SortedKeys(s - {Least(s)})
  {
    hide Leq;
  }

  ghost predicate Listed(s: set<string>, ks: seq<string>) {
    && (forall k :: k in ks <==> k in s)
    && forall i, j | 0 <= i < j < |ks| :: ks[i] != ks[j] && Leq(ks[i], ks[j])
  }

  lemma LeastFirst(s: set<string>, ks: seq<string>)
    requires Listed(s, ks) && ks != []
    ensures s != {} && ks[0] == Least(s)
  {
    hide Leq;
    assert ks[0] in s;
    var k := Least(s);
    assert k in ks;
    var i :| 0 <= i < |ks| && ks[i] == k;
    if i > 0 {
      LeqAntisymmetric(ks[0], k);
    }
  }

  lemma RestListed(s: set<string>, ks: seq<string>)
    requires Listed(s, ks) && ks != []
    ensures Listed(s - {ks[0]}, ks[1..])
  {
    hide Leq;
    forall x ensures x in ks[1..] <==> x in s - {ks[0]} {
      assert x in ks <==> x == ks[0] || x in ks[1..];
    }
  }

  // There is only one such list.
  lemma {:induction false} SortedKeysUnique(s: set<string>, ks: seq<string>)
    requires Listed(s, ks)
    ensures ks == SortedKeys(s)
    decreases |ks|
  {
    hide Listed, SortedKeys;
    if ks == [] {
      NoneListed(s);
    } else {
      LeastFirst(s, ks);
      RestListed(s, ks);
      SortedKeysUnique(s - {ks[0]}, ks[1..]);
      SortedKeysStep(s);
      assert ks == [ks[0]] + ks[1..];
    }
  }

  lemma NoneListed(s: set<string>)
    requires Listed(s, [])
    ensures SortedKeys(s) == []
  {
    assert s == {};
  }
}
