/** Ports as text: atoi, and the sn_itoa and sn_atoi macros of src/include/utils.h. */
module Ports {
  import opened Bytes
  import opened Headers
  import opened Proto

  const MINUS: byte := 45
  const PLUS: byte := 43

  predicate IsSpace(b: byte) { b == 32 || 9 <= b <= 13 }

  predicate IsDigit(b: byte) { 48 <= b <= 57 }

  function SkipSpaces(s: bytes): (r: bytes)
    ensures r == [] || !IsSpace(r[0])
  {
    if s != [] && IsSpace(s[0]) then SkipSpaces(s[1..]) else s
  }

  /** The digits `s` begins with. */
  function Digits(s: bytes): (r: bytes)
    ensures IsDigits(r) && r <= s && (|r| < |s| ==> !IsDigit(s[|r|]))
  {
    if s == [] || !IsDigit(s[0]) then [] else [s[0]] + Digits(s[1..])
  }

  function Atoi(text: bytes): int
  {
    var s := SkipSpaces(text);
    if s != [] && s[0] == MINUS then -Value(Digits(s[1..]))
    else if s != [] && s[0] == PLUS then Value(Digits(s[1..]))
    else Value(Digits(s))
  }

  /** "%d" */
  function Itoa(n: int): bytes { if n < 0 then [MINUS] + Decimal(-n) else Decimal(n) }

  /** sn_itoa with the 8 bytes its users give it */
  function SnItoa(n: int): bytes { Snprintf(8, Itoa(n)) }

  /** sn_atoi */
  function SnAtoi(s: bytes, size: nat): int
    requires size >= 1
  {
    Atoi(Snprintf(size, s))
  }

  lemma {:induction false} AllDigits(s: bytes)
    requires IsDigits(s)
    ensures Digits(s) == s
  {
    if s != [] {
      AllDigits(s[1..]);
    }
  }

  lemma AtoiItoa(n: int)
    ensures Atoi(Itoa(n)) == n
  {
    hide Decimal, Value, Digits;
    var m: nat := if n < 0 then -n else n;
    DecimalDigits(m);
    AllDigits(Decimal(m));
    ValueDecimal(m);
    if n < 0 {
      assert Itoa(n)[1..] == Decimal(m);
    }
  }

  lemma {:induction false} SpacesSkipped(spaces: bytes, text: bytes)
    requires forall i :: 0 <= i < |spaces| ==> spaces[i] == 32 || 9 <= spaces[i] <= 13
    requires text != [] && text[0] != 32 && !(9 <= text[0] <= 13)
    ensures SkipSpaces(spaces + text) == text
  {
    if spaces == [] {
      assert [] + text == text;
    } else {
      assert (spaces + text)[1..] == spaces[1..] + text;
      SpacesSkipped(spaces[1..], text);
    }
  }

  lemma {:induction false} DigitsTaken(s: bytes, rest: bytes)
    requires IsDigits(s) && (rest != [] ==> rest[0] < 48 || rest[0] > 57)
    ensures Digits(s + rest) == s
  {
    if s == [] {
      assert [] + rest == rest;
    } else {
      assert (s + rest)[1..] == s[1..] + rest;
      DigitsTaken(s[1..], rest);
    }
  }

  /** atoi passes over white space and one sign, and reads digits up to the first character that is none. */
  lemma AtoiReads(spaces: bytes, sign: bytes, n: nat, rest: bytes)
    requires forall i :: 0 <= i < |spaces| ==> spaces[i] == 32 || 9 <= spaces[i] <= 13
    requires sign == [] || sign == [43] || sign == [45]
    requires rest != [] ==> rest[0] < 48 || rest[0] > 57
    ensures Atoi(spaces + (sign + (Decimal(n) + rest))) == (if sign == [45] then -1 else 1) * n
  {
    hide Decimal, Digits, SkipSpaces, Value;
    var number := Decimal(n) + rest;
    DecimalDigits(n);
    ValueDecimal(n);
    DigitsTaken(Decimal(n), rest);
    assert number[0] == Decimal(n)[0] && 48 <= number[0] <= 57;
    var text := sign + number;
    assert sign == [] ==> text == number;
    assert sign != [] ==> text[0] == sign[0] && text[1..] == number;
    SpacesSkipped(spaces, text);
  }

  /** A port printed by sn_itoa reads back as itself exactly when seven characters hold it. */
  lemma PortSurvivesIff(n: int)
    ensures SnAtoi(SnItoa(n), 8) == n <==> -1_000_000 < n < 10_000_000
  {
    var m: nat := if n < 0 then -n else n;
    DecimalLength(m, if n < 0 then 6 else 7);
    assert Pow10(6) == 1_000_000 && Pow10(7) == 10_000_000;
    AtoiItoa(n);
    if |Itoa(n)| >= 8 {
      CutIsSmaller(n);
    }
  }

  /** Cutting digits off makes the number nearer to zero. */
  lemma CutIsSmaller(n: int)
    requires |Itoa(n)| >= 8
    ensures SnAtoi(SnItoa(n), 8) != n
  {
    var m: nat := if n < 0 then -n else n;
    var kept := if n < 0 then 6 else 7;
    var d := Decimal(m)[..kept];
    DecimalDigits(m);
    AllDigits(d);
    ValueBelow(d);
    DecimalLength(m, kept);
    if n < 0 {
      assert SnItoa(n) == [MINUS] + d;
      assert SnItoa(n)[1..] == d;
    } else {
      assert SnItoa(n) == d;
    }
  }

  lemma {:induction false} ValueBelow(s: bytes)
    requires IsDigits(s)
    ensures 0 <= Value(s) < Pow10(|s|)
  {
    if s != [] {
      ValueBelow(s[..|s| - 1]);
      assert Pow10(|s|) == 10 * Pow10(|s| - 1);
    }
  }
}
