/** Printing and scanning the keys of the friend table of internal/store/store.go: two decimal numbers and a comma. */
module Decimal {
  import opened Base

  function Digit(n: nat): char
    requires n < 10
  {
    '0' + n as char
  }

  predicate IsDigit(c: char) { '0' <= c <= '9' }

  function Print(n: nat): (s: string)
    ensures s != [] && forall i :: 0 <= i < |s| ==> IsDigit(s[i])
  {
    if n < 10 then [Digit(n)] else Print(n / 10) + [Digit(n % 10)]
  }

  function Value(s: string): nat
    requires forall i :: 0 <= i < |s| ==> IsDigit(s[i])
  {
    if s == [] then 0
    else
      assert IsDigit(s[|s| - 1]);
      Value(s[..|s| - 1]) * 10 + (s[|s| - 1] - '0') as nat
  }

  /** The number of digits at the front. */
  function Digits(s: string): (n: nat)
    ensures n <= |s| && (forall i :: 0 <= i < n ==> IsDigit(s[i])) && (n < |s| ==> !IsDigit(s[n]))
  {
    if s == [] || !IsDigit(s[0]) then 0 else 1 + Digits(s[1..])
  }

  lemma {:induction false} ValueOfPrint(n: nat)
    ensures Value(Print(n)) == n
  {
    if n >= 10 {
      ValueOfPrint(n / 10);
      var s := Print(n);
      assert s[..|s| - 1] == Print(n / 10);
    }
  }

  function Key(a: Uid, b: Uid): string { Print(a) + "," + Print(b) }

  /** Scans "%d,%d" into two 32-bit numbers. */
  function ScanKey(s: string): Option<(Uid, Uid)>
  {
    var n := Digits(s);
    if n == 0 || n == |s| || s[n] != ',' then None
    else
      var rest := s[n + 1..];
      var m := Digits(rest);
      if m == 0 then None
      else
        var a, b := Value(s[..n]), Value(rest[..m]);
        if a >= 0x1_0000_0000 || b >= 0x1_0000_0000 then None else Some((a, b))
  }

  lemma {:induction false} DigitsOf(s: string, t: string)
    requires (forall i :: 0 <= i < |s| ==> IsDigit(s[i])) && (t != [] ==> !IsDigit(t[0]))
    ensures Digits(s + t) == |s|
  {
    if s == [] {
      assert s + t == t;
    } else {
      assert (s + t)[1..] == s[1..] + t;
      DigitsOf(s[1..], t);
    }
  }

  /** Scanning undoes printing for all pairs of 32-bit numbers, so the keys are unambiguous. */
  lemma ScanUndoesPrint(a: Uid, b: Uid)
    ensures ScanKey(Key(a, b)) == Some((a, b))
  {
    var s, n := Key(a, b), |Print(a)|;
    assert s == Print(a) + ("," + Print(b));
    DigitsOf(Print(a), "," + Print(b));
    assert s[..n] == Print(a) && s[n] == ',' && s[n + 1..] == Print(b);
    DigitsOf(Print(b), "");
    assert Print(b) + "" == Print(b) && Print(b)[..|Print(b)|] == Print(b);
    ValueOfPrint(a);
    ValueOfPrint(b);
  }

  lemma KeysAreUnambiguous(a: Uid, b: Uid, c: Uid, d: Uid)
    requires Key(a, b) == Key(c, d)
    ensures a == c && b == d
  {
    ScanUndoesPrint(a, b);
    ScanUndoesPrint(c, d);
  }
}
