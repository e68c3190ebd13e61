/** Keys of the B+-tree (silo/varkey.h): byte strings, cut into 8-byte slices that are
    compared as big-endian numbers. */
module BTreeKeys {
  type Byte = n: nat | n < 256
  type Key = seq<Byte>

  /** The first n bytes, padded with zeros, as a number. */
  function Word(k: Key, n: nat): nat {
    if n == 0 then 0 else Word(k, n - 1) * 256 + At(k, n - 1)
  }

  function At(k: Key, i: nat): nat { if i < |k| then k[i] else 0 }

  function Slice(k: Key): nat { Word(k, 8) }

  /** The length a leaf stores for a key: 9 means that there is more than the slice. */
  function Len(k: Key): nat { if |k| <= 8 then |k| else 9 }

  /** shift: the key without its first slice. */
  function Shift(k: Key): Key { if |k| <= 8 then [] else k[8..] }

  /** slice(): the loop that fills an 8-byte word. */
  method ComputeSlice(k: Key) returns (r: nat)
    ensures r == Slice(k)
  {
    r := 0;
    for i := 0 to 8
      invariant r == Word(k, i)
    {
      r := r * 256 + (if i < |k| then k[i] else 0);
    }
  }

  lemma WordBelow(k: Key, n: nat, b: nat)
    requires Word(k, n) < b
    ensures Word(k, n + 1) < 256 * b
  {}

  lemma SliceBelow(k: Key)
    ensures Slice(k) < 0x1_0000_0000_0000_0000
  {
    WordBelow(k, 0, 1);
    WordBelow(k, 1, 0x100);
    WordBelow(k, 2, 0x1_0000);
    WordBelow(k, 3, 0x100_0000);
    WordBelow(k, 4, 0x1_0000_0000);
    WordBelow(k, 5, 0x100_0000_0000);
    WordBelow(k, 6, 0x1_0000_0000_0000);
    WordBelow(k, 7, 0x100_0000_0000_0000);
  }

  lemma {:induction false} WordSame(a: Key, b: Key, n: nat, i: nat)
    requires Word(a, n) == Word(b, n) && i < n
    ensures At(a, i) == At(b, i)
  {
    if i < n - 1 {
      WordSame(a, b, n - 1, i);
    }
  }

  /** Slice, length and rest determine a key. */
  lemma KeyUnique(a: Key, b: Key)
    requires Slice(a) == Slice(b) && Len(a) == Len(b) && Shift(a) == Shift(b)
    ensures a == b
  {
    forall i | 0 <= i < 8
      ensures At(a, i) == At(b, i)
    {
      WordSame(a, b, 8, i);
    }
    forall i | 0 <= i < |a| && i < |b|
      ensures a[i] == b[i]
    {
      if i < 8 {
        assert At(a, i) == At(b, i);
      } else {
        assert Shift(a)[i - 8] == Shift(b)[i - 8];
      }
    }
    assert |a| == |b| by {
      if |a| > 8 {
        assert |Shift(a)| == |a| - 8 && |Shift(b)| == |b| - 8;
      }
    }
  }

  /** Lexicographic order of byte strings. */
  predicate Lex(a: Key, b: Key) {
    b != [] && (a == [] || a[0] < b[0] || (a[0] == b[0] && Lex(a[1..], b[1..])))
  }

  /** The order of the tree: slices first, then capped lengths, then the rest. */
  predicate TreeOrder(a: Key, b: Key) {
    || Slice(a) < Slice(b)
    || (Slice(a) == Slice(b) && Len(a) < Len(b))
    || (Slice(a) == Slice(b) && Len(a) == Len(b) && Lex(Shift(a), Shift(b)))
  }

  lemma {:induction false} LexTotal(a: Key, b: Key)
    ensures Lex(a, b) || a == b || Lex(b, a)
    ensures Lex(a, b) ==> !Lex(b, a) && a != b
  {
    if a != [] && b != [] {
      LexTotal(a[1..], b[1..]);
      assert a == [a[0]] + a[1..] && b == [b[0]] + b[1..];
    }
  }

  /** Two strings that share their first n bytes compare like what follows. */
  lemma {:induction false} LexAfter(a: Key, b: Key, n: nat)
    requires n <= |a| && n <= |b| && forall i :: 0 <= i < n ==> a[i] == b[i]
    ensures Lex(a, b) <==> Lex(a[n..], b[n..])
  {
    if n > 0 {
      LexAfter(a[1..], b[1..], n - 1);
      assert a[1..][n - 1..] == a[n..] && b[1..][n - 1..] == b[n..];
    }
  }

  /** The first of n padded bytes in which two keys differ. */
  function FirstDiff(a: Key, b: Key, n: nat): (d: nat)
    ensures d <= n
    ensures forall i :: 0 <= i < d ==> At(a, i) == At(b, i)
    ensures d < n ==> At(a, d) != At(b, d)
  {
    if n == 0 then 0
    else
      var d := FirstDiff(a, b, n - 1);
      if d == n - 1 && At(a, d) == At(b, d) then n else d
  }

  lemma {:induction false} WordOrder(a: Key, b: Key, n: nat)
    ensures
      var d := FirstDiff(a, b, n);
      && (d == n ==> Word(a, n) == Word(b, n))
      && (d < n ==> (Word(a, n) < Word(b, n) <==> At(a, d) < At(b, d)))
    decreases n
  {
    if n > 0 {
      WordOrder(a, b, n - 1);
      WordOrder(b, a, n - 1);
      DiffSym(a, b, n - 1);
    }
  }

  lemma DiffSym(a: Key, b: Key, n: nat)
    ensures FirstDiff(a, b, n) == FirstDiff(b, a, n)
  {
  }

  lemma SmallerSlice(a: Key, b: Key)
    requires Slice(a) < Slice(b)
    ensures Lex(a, b)
  {
    WordOrder(a, b, 8);
    var d := FirstDiff(a, b, 8);
    var n := if d < |a| then d else |a|;
    forall i | 0 <= i < n
      ensures i < |b| && a[i] == b[i]
    {
      assert At(a, i) == At(b, i);
    }
    LexAfter(a, b, n);
  }

  lemma SameSlice(a: Key, b: Key)
    requires Slice(a) == Slice(b) && (Len(a) < Len(b) || (Len(a) == Len(b) && Lex(Shift(a), Shift(b))))
    ensures Lex(a, b)
  {
    var n := if |a| <= 8 then |a| else 8;
    forall i | 0 <= i < n
      ensures i < |b| && a[i] == b[i]
    {
      WordSame(a, b, 8, i);
    }
    LexAfter(a, b, n);
  }

  /** The order the tree keeps its entries in is the lexicographic order of the keys. */
  lemma TreeOrderIsLex(a: Key, b: Key)
    ensures TreeOrder(a, b) <==> Lex(a, b)
  {
    LexTotal(a, b);
    LexTotal(Shift(a), Shift(b));
    if Slice(a) < Slice(b) {
      SmallerSlice(a, b);
    } else if Slice(b) < Slice(a) {
      SmallerSlice(b, a);
    } else if Len(a) < Len(b) || (Len(a) == Len(b) && Lex(Shift(a), Shift(b))) {
      SameSlice(a, b);
    } else if Len(b) < Len(a) || (Len(a) == Len(b) && Lex(Shift(b), Shift(a))) {
      SameSlice(b, a);
    } else {
      KeyUnique(a, b);
    }
  }

  /** The first n bytes of a word, as a key. */
  function Bytes(w: nat, n: nat): (k: Key)
    ensures |k| == n
  {
    if n == 0 then [] else Bytes(w / 256, n - 1) + [w % 256]
  }

  lemma {:induction false} BytesOfWord(k: Key, n: nat, i: nat)
    requires i < n
    ensures Bytes(Word(k, n), n)[i] == At(k, i)
  {
    if i < n - 1 {
      BytesOfWord(k, n - 1, i);
    }
  }

  /** A key comes back from its slice, its length and its rest. */
  lemma KeyFromParts(k: Key)
    ensures Bytes(Slice(k), 8)[..if Len(k) < 8 then Len(k) else 8] + Shift(k) == k
  {
    forall i | 0 <= i < 8
      ensures Bytes(Slice(k), 8)[i] == At(k, i)
    {
      BytesOfWord(k, 8, i);
    }
  }
}
