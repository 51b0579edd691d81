/**
 * Output and state dictionaries in the source are keyed by `str(i)`, the decimal
 * text of a slot index. This module gives that text, shows that distinct slots get
 * distinct keys, and that reading the digits back gives the index again (`int(str(i))`).
 */
module Keys {

  /** True when every character of `s` is an ASCII decimal digit. */
  predicate AllDigits(s: string) {
    forall k :: 0 <= k < |s| ==> '0' <= s[k] <= '9'
  }

  function Digit(d: nat): (c: char)
    requires d < 10
    ensures '0' <= c <= '9'
  {
    ('0' as int + d) as char
  }

  /** The decimal digits of i, most significant first, without leading zeros. */
  function Decimal(i: nat): (s: string)
    ensures |s| >= 1 && AllDigits(s)
    ensures i >= 10 <==> |s| >= 2
    ensures |s| >= 2 ==> s[0] != '0'
  {
    if i < 10 then [Digit(i)] else Decimal(i / 10) + [Digit(i % 10)]
  }

  /** `str(i)` for a non-negative integer, the key of slot i. */
  function Key(i: nat): (s: string)
    ensures |s| >= 1 && AllDigits(s)
  {
    Decimal(i)
  }

  /** The value of a string of decimal digits, most significant first (`int(s)`). */
  function DigitsValue(s: string): (n: nat)
    requires AllDigits(s)
    ensures |s| == 1 ==> n == s[0] as int - '0' as int
  {
    if s == [] then 0
    else DigitsValue(s[..|s| - 1]) * 10 + (s[|s| - 1] as int - '0' as int)
  }

  lemma {:induction false} DigitsValueOfDecimal(i: nat)
    ensures DigitsValue(Decimal(i)) == i
  {
    if i >= 10 {
      var s := Decimal(i);
      assert s[..|s| - 1] == Decimal(i / 10);
      DigitsValueOfDecimal(i / 10);
    }
  }

  /** `int(str(i)) == i`. */
  lemma DigitsValueOfKey(i: nat)
    ensures DigitsValue(Key(i)) == i
  {
    DigitsValueOfDecimal(i);
  }

  /** Distinct slot indices give distinct keys. */
  lemma KeyInjective(i: nat, j: nat)
    requires Key(i) == Key(j)
    ensures i == j
  {
    DigitsValueOfKey(i);
    DigitsValueOfKey(j);
  }

  /** The keys of the first `n` slots: `{str(0), ..., str(n-1)}`. */
  function KeysBelow(n: nat): set<string> {
    if n == 0 then {} else KeysBelow(n - 1) + {Key(n - 1)}
  }

  lemma {:induction false} KeyBelowIff(i: nat, n: nat)
    ensures Key(i) in KeysBelow(n) <==> i < n
  {
    if n > 0 {
      KeyBelowIff(i, n - 1);
      if Key(i) == Key(n - 1) {
        KeyInjective(i, n - 1);
      }
    }
  }

  lemma KeysBelowSnoc(n: nat)
    ensures KeysBelow(n + 1) == KeysBelow(n) + {Key(n)}
    ensures Key(n) !in KeysBelow(n)
  {
    KeyBelowIff(n, n);
  }

  /** `{str(i): s[i] for i in range(len(s))}`. */
  function Indexed<T>(s: seq<T>): map<string, T> {
    if s == [] then map[]
    else Indexed(s[..|s| - 1])[Key(|s| - 1) := s[|s| - 1]]
  }

  /** The keys are those of the slots. */
  lemma {:induction false} IndexedKeys<T>(s: seq<T>)
    ensures Indexed(s).Keys == KeysBelow(|s|)
  {
    if s != [] {
      IndexedKeys(s[..|s| - 1]);
    }
  }

  /** Slot i holds the i-th element. */
  lemma {:induction false} IndexedAt<T>(s: seq<T>, i: nat)
    requires i < |s|
    ensures Key(i) in Indexed(s) && Indexed(s)[Key(i)] == s[i]
  {
    var n := |s| - 1;
    if i < n {
      IndexedAt(s[..n], i);
      if Key(i) == Key(n) {
        KeyInjective(i, n);
      }
    }
  }

  lemma TwoSlotKeys()
    ensures Key(0) == "0" && Key(1) == "1"
    ensures KeysBelow(2) == {"0", "1"}
  {
    assert Key(0) == "0" && Key(1) == "1";
  }

  /** A two-element sequence indexed: `{"0": s[0], "1": s[1]}`. */
  lemma IndexedPair<T>(s: seq<T>)
    requires |s| == 2
    ensures Indexed(s) == map["0" := s[0], "1" := s[1]]
  {
    TwoSlotKeys();
    assert Indexed(s[..1][..0]) == map[];
    assert Indexed(s[..1]) == map["0" := s[0]];
    assert Indexed(s) == Indexed(s[..1])["1" := s[1]];
  }

  /** Extending the indexed sequence by one element adds exactly one key. */
  lemma IndexedSnoc<T>(s: seq<T>, x: T)
    ensures Indexed(s + [x]) == Indexed(s)[Key(|s|) := x]
  {
    assert (s + [x])[..|s|] == s;
  }

  lemma UpdateSwap<K, V>(m: map<K, V>, a: K, x: V, b: K, y: V)
    requires a != b
    ensures m[a := x][b := y] == m[b := y][a := x]
  {
  }

  /** Replacing one element changes only the value under its key. */
  lemma {:induction false} IndexedUpdate<T>(s: seq<T>, i: nat, x: T)
    requires i < |s|
    ensures Indexed(s)[Key(i) := x] == Indexed(s[i := x])
  {
    var n := |s| - 1;
    if i == n {
      assert s[i := x][..n] == s[..n];
    } else {
      var t := s[i := x];
      assert t[..n] == s[..n][i := x] && t[n] == s[n];
      KeyBelowIff(i, n);
      KeysBelowSnoc(n);
      IndexedUpdate(s[..n], i, x);
      UpdateSwap(Indexed(s[..n]), Key(n), s[n], Key(i), x);
      assert Indexed(t) == Indexed(t[..n])[Key(n) := t[n]];
    }
  }
}
