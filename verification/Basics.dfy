/** Datatypes and small sequence facts shared by the models. */
module Basics {
  datatype Option<+T> = None | Some(value: T)

  /** A number option as passed by a caller: absent, whole, or not whole
      (NaN and the infinities included). */
  datatype NumberOption = Absent | Whole(n: int) | NotWhole

  function Min(a: int, b: int): int { if a <= b then a else b }

  function Max(a: int, b: int): int { if a >= b then a else b }

  /** The characters JavaScript counts as white space, in `trim` and in `\s`. */
  predicate IsSpace(c: char) {
    c in "\t\n\r " || c as int in {0x0B, 0x0C, 0xA0, 0x1680, 0x2028, 0x2029, 0x202F, 0x205F, 0x3000, 0xFEFF}
    || 0x2000 <= c as int <= 0x200A
  }

  /** A whole number in decimal, as `String(n)` gives it. */
  function Digits(n: nat): string {
    if n < 10 then ['0' + n as char] else Digits(n / 10) + ['0' + (n % 10) as char]
  }

  function ShowInt(n: int): string { if n < 0 then "-" + Digits(-n) else Digits(n) }

  lemma {:induction false} DigitsShape(n: nat)
    ensures var d := Digits(n); d != "" && forall i :: 0 <= i < |d| ==> '0' <= d[i] <= '9'
  {
    if n >= 10 { DigitsShape(n / 10); }
  }

  lemma {:induction false} DigitsTell(m: nat, n: nat)
    ensures Digits(m) == Digits(n) <==> m == n
  {
    if Digits(m) == Digits(n) {
      var d := Digits(m);
      assert d[|d| - 1] == '0' + (m % 10) as char == '0' + (n % 10) as char;
      DigitsShape(m / 10);
      DigitsShape(n / 10);
      if m >= 10 && n >= 10 {
        assert d[..|d| - 1] == Digits(m / 10) == Digits(n / 10);
        DigitsTell(m / 10, n / 10);
      }
    }
  }

  lemma ShowIntTells(m: int, n: int)
    ensures ShowInt(m) == ShowInt(n) <==> m == n
  {
    var a, b := if m < 0 then -m else m, if n < 0 then -n else n;
    DigitsShape(a);
    DigitsShape(b);
    DigitsTell(a, b);
    if m < 0 { assert ShowInt(m)[0] == '-' && ShowInt(m)[1..] == Digits(a); }
    if n < 0 { assert ShowInt(n)[0] == '-' && ShowInt(n)[1..] == Digits(b); }
  }

  /** `small` can be obtained from `big` by deleting elements. */
  predicate IsSubsequence<T(==)>(small: seq<T>, big: seq<T>)
    decreases |big|
  {
    if small == [] then true
    else if big == [] then false
    else if small[|small| - 1] == big[|big| - 1] then IsSubsequence(small[..|small| - 1], big[..|big| - 1])
    else IsSubsequence(small, big[..|big| - 1])
  }

  /** A strictly increasing embedding of positions witnesses a subsequence. */
  lemma {:induction false} EmbeddingIsSubsequence<T>(small: seq<T>, big: seq<T>, at: seq<int>)
    requires |at| == |small|
    requires forall i :: 0 <= i < |at| ==> 0 <= at[i] < |big| && big[at[i]] == small[i]
    requires forall i, j :: 0 <= i < j < |at| ==> at[i] < at[j]
    ensures IsSubsequence(small, big)
    decreases |big|
  {
    if small == [] {
    } else {
      var n := |small| - 1;
      assert 0 <= at[n] < |big|;
      var cut := big[..|big| - 1];
      assert forall i :: 0 <= i < n ==> at[i] < at[n];
      if small[n] == big[|big| - 1] {
        EmbeddingIsSubsequence(small[..n], cut, at[..n]);
      } else {
        assert at[n] < |big| - 1;
        EmbeddingIsSubsequence(small, cut, at);
      }
    }
  }
}
