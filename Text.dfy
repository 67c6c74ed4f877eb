/** The string operations app.py relies on, restricted to ASCII:
    str.lower / str.upper, str.strip, str.replace(' ', ''), str.isdigit,
    int(text), str(int) and the "{:02d}" format. */
module Text {

  predicate IsDigit(c: char) { '0' <= c <= '9' }

  /** Python's str.isdigit on ASCII text: non-empty and only digits. */
  predicate IsDigits(s: string) {
    |s| > 0 && forall i :: 0 <= i < |s| ==> IsDigit(s[i])
  }

  /** int(s) for a string of digits (leading zeros allowed, as Python allows them). */
  function DigitsValue(s: string): nat
    requires forall i :: 0 <= i < |s| ==> IsDigit(s[i])
  {
    if |s| == 0 then 0
    else
      assert IsDigit(s[|s| - 1]);
      DigitsValue(s[..|s| - 1]) * 10 + (s[|s| - 1] as int - '0' as int)
  }

  function DigitChar(d: nat): (c: char)
    requires d < 10
    ensures IsDigit(c) && c as int - '0' as int == d
  {
    ('0' as int + d) as char
  }

  /** str(n) for a non-negative integer: decimal digits without leading zeros,
      and int() reads back the same number. */
  function NatToString(n: nat): (s: string)
    ensures IsDigits(s)
    ensures DigitsValue(s) == n
    ensures s[0] == '0' ==> n == 0
    ensures |s| == 1 <==> n < 10
    ensures n < 100 ==> |s| <= 2
  {
    if n < 10 then [DigitChar(n)]
    else
      var init := NatToString(n / 10);
      assert (init + [DigitChar(n % 10)])[..|init|] == init;
      init + [DigitChar(n % 10)]
  }

  /** str(n) for any integer: a minus sign in front of negative numbers. */
  function IntToString(n: int): string
  {
    if n < 0 then "-" + NatToString(-n) else NatToString(n)
  }

  /** f"{n:02d}" for a non-negative integer: at least two digits, zero-padded. */
  function ZeroPad2(n: nat): (s: string)
    ensures n < 100 ==> |s| == 2
    ensures forall i :: 0 <= i < |s| ==> IsDigit(s[i])
    ensures DigitsValue(s) == n
  {
    var d := NatToString(n);
    if n < 10 then
      assert ("0" + d)[..1] == "0";
      "0" + d
    else d
  }

  /** Python's str.isspace on the ASCII range: space, \t \n \v \f \r and the
      separators \x1c to \x1f. */
  predicate IsSpace(c: char) {
    c == ' ' || (9 <= c as int <= 13) || (28 <= c as int <= 31)
  }

  function LowerChar(c: char): char {
    if 'A' <= c <= 'Z' then (c as int + 32) as char else c
  }

  function UpperChar(c: char): char {
    if 'a' <= c <= 'z' then (c as int - 32) as char else c
  }

  /** str.lower on ASCII letters; every other character is kept. */
  function Lower(s: string): (r: string)
    ensures |r| == |s|
    ensures forall i :: 0 <= i < |s| ==> r[i] == LowerChar(s[i])
  {
    seq(|s|, i requires 0 <= i < |s| => LowerChar(s[i]))
  }

  /** str.upper on ASCII letters; every other character is kept. */
  function Upper(s: string): (r: string)
    ensures |r| == |s|
    ensures forall i :: 0 <= i < |s| ==> r[i] == UpperChar(s[i])
  {
    seq(|s|, i requires 0 <= i < |s| => UpperChar(s[i]))
  }

  /** Index of the first character that is not whitespace (|s| if none). */
  function LeadingSpaces(s: string): (k: nat)
    ensures k <= |s|
    ensures forall i :: 0 <= i < k ==> IsSpace(s[i])
    ensures k < |s| ==> !IsSpace(s[k])
  {
    if |s| == 0 || !IsSpace(s[0]) then 0 else 1 + LeadingSpaces(s[1..])
  }

  /** Index just after the last character that is not whitespace (0 if none). */
  function TrailingEnd(s: string): (k: nat)
    ensures k <= |s|
    ensures forall i :: k <= i < |s| ==> IsSpace(s[i])
    ensures k > 0 ==> !IsSpace(s[k - 1])
  {
    if |s| == 0 || !IsSpace(s[|s| - 1]) then |s| else TrailingEnd(s[..|s| - 1])
  }

  /** str.strip(): the text between the leading and the trailing whitespace. */
  function Strip(s: string): (r: string)
    ensures exists i, j :: 0 <= i <= j <= |s| && r == s[i..j]
                        && (forall k :: 0 <= k < i ==> IsSpace(s[k]))
                        && (forall k :: j <= k < |s| ==> IsSpace(s[k]))
    ensures r != [] ==> !IsSpace(r[0]) && !IsSpace(r[|r| - 1])
  {
    var i := LeadingSpaces(s);
    var j := TrailingEnd(s);
    if i < j then s[i..j] else s[i..i]
  }

  /** str.replace(' ', ''): every ' ' removed, every other character kept in order. */
  function RemoveSpaces(s: string): (r: string)
    ensures forall i :: 0 <= i < |r| ==> r[i] != ' '
    ensures |r| <= |s|
  {
    if |s| == 0 then []
    else if s[0] == ' ' then RemoveSpaces(s[1..])
    else [s[0]] + RemoveSpaces(s[1..])
  }

  lemma {:induction false} RemoveSpacesKeepsOthers(s: string)
    ensures forall c :: c != ' ' ==> multiset(RemoveSpaces(s))[c] == multiset(s)[c]
    ensures (forall i :: 0 <= i < |s| ==> s[i] != ' ') ==> RemoveSpaces(s) == s
  {
    if |s| > 0 {
      RemoveSpacesKeepsOthers(s[1..]);
      assert s == [s[0]] + s[1..];
    }
  }

  /** The kept characters stay in their order: removal works piece by piece,
      and a single character is dropped exactly when it is ' '. */
  lemma {:induction false} RemoveSpacesAppend(a: string, b: string)
    ensures RemoveSpaces(a + b) == RemoveSpaces(a) + RemoveSpaces(b)
    ensures forall c :: RemoveSpaces([c]) == if c == ' ' then [] else [c]
  {
    if |a| > 0 {
      assert (a + b)[1..] == a[1..] + b;
      RemoveSpacesAppend(a[1..], b);
    } else {
      assert a + b == b;
    }
    forall c ensures RemoveSpaces([c]) == if c == ' ' then [] else [c] {
      assert [c][1..] == [];
    }
  }
}
