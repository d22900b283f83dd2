/** Decimal text and NUL-terminated strings, as the module and its client exchange them. */
module Text {
  import opened Options

  predicate IsDigit(c: char) {
    '0' <= c <= '9'
  }

  predicate AllDigits(s: string) {
    forall i :: 0 <= i < |s| ==> IsDigit(s[i])
  }

  /** The decimal digits of a number, most significant first. */
  function Digits(n: nat): (s: string)
    ensures |s| >= 1 && AllDigits(s)
  {
    var last := ['0' + (n % 10) as char];
    if n < 10 then last else Digits(n / 10) + last
  }

  function Value(s: string): nat
    requires AllDigits(s)
  {
    if s == [] then 0 else Value(s[..|s| - 1]) * 10 + (s[|s| - 1] - '0') as nat
  }

  lemma {:induction false} ValueOfDigits(n: nat)
    ensures Value(Digits(n)) == n
  {
    var last := ['0' + (n % 10) as char];
    if n < 10 {
      assert Digits(n)[..0] == [];
    } else {
      ValueOfDigits(n / 10);
      assert Digits(n)[..|Digits(n)| - 1] == Digits(n / 10);
    }
  }

  /** A number below 10^k has at most k digits; one digit exactly if it is below ten. */
  lemma {:induction false} DigitCount(n: nat)
    ensures |Digits(n)| == 1 <==> n < 10
    ensures n <= 0x8000_0000 ==> |Digits(n)| <= 10
  {
    if n <= 0x8000_0000 {
      assert Tens(1) == 10 && Tens(2) == 100 && Tens(3) == 1000 && Tens(4) == 10000 && Tens(5) == 100000;
      assert Tens(6) == 1000000 && Tens(7) == 10000000 && Tens(8) == 100000000 && Tens(9) == 1000000000;
      AtMostDigits(n, 10);
    }
  }

  lemma {:induction false} AtMostDigits(n: nat, k: nat)
    requires k >= 1 && n < Tens(k)
    ensures |Digits(n)| <= k
  {
    if n >= 10 {
      assert Tens(1) == 10 * Tens(0);
      AtMostDigits(n / 10, k - 1);
    }
  }

  function Tens(k: nat): nat {
    if k == 0 then 1 else 10 * Tens(k - 1)
  }

  // ---------------------------------------------------------------------------
  // NUL-terminated strings
  // ---------------------------------------------------------------------------

  /** The buffer ends in NUL. */
  predicate Terminated(b: seq<char>) {
    |b| > 0 && b[|b| - 1] == '\0'
  }

  /** The position of the first NUL at or after `i`. */
  function Nul(b: seq<char>, i: nat): (n: nat)
    requires Terminated(b) && i < |b|
    ensures i <= n < |b| && b[n] == '\0' && forall k :: i <= k < n ==> b[k] != '\0'
    decreases |b| - i
  {
    if b[i] == '\0' then i else Nul(b, i + 1)
  }

  lemma NulIs(b: seq<char>, i: nat, n: nat)
    requires Terminated(b) && i <= n < |b| && b[n] == '\0' && forall k :: i <= k < n ==> b[k] != '\0'
    ensures Nul(b, i) == n
  {
  }

  /** The length of the string in the buffer. */
  function CLen(b: seq<char>): (n: nat)
    requires Terminated(b)
    ensures n < |b| && b[n] == '\0' && forall k :: 0 <= k < n ==> b[k] != '\0'
  {
    Nul(b, 0)
  }

  /** The string at offset `i`. */
  function CStr(b: seq<char>, i: nat): (s: string)
    requires Terminated(b) && i < |b|
  {
    b[i..Nul(b, i)]
  }

  // ---------------------------------------------------------------------------
  // kstrtoint with base 10
  // ---------------------------------------------------------------------------

  /** Digits with an optional newline after. */
  function Magnitude(s: string): Option<nat> {
    var body := if s != [] && s[|s| - 1] == '\n' then s[..|s| - 1] else s;
    if body != [] && AllDigits(body) then Some(Value(body)) else None
  }

  /** One sign may stand in front.  None for malformed text and for values outside the range of `int`. */
  function KStrToInt(s: string): (r: Option<int>)
    ensures r.Some? ==> -0x8000_0000 <= r.value < 0x8000_0000
  {
    if s != [] && s[0] == '-' then
      match Magnitude(s[1..])
      case Some(v) => var w := -(v as int); if v <= 0x8000_0000 then Some(w) else None
      case None => None
    else
      match Magnitude(if s != [] && s[0] == '+' then s[1..] else s)
      case Some(v) => if v < 0x8000_0000 then Some(v) else None
      case None => None
  }

  lemma KStrToIntOfDigits(n: nat)
    requires n < 0x8000_0000
    ensures KStrToInt(Digits(n)) == Some(n)
    ensures KStrToInt(Digits(n) + "\n") == Some(n)
  {
    var s := Digits(n);
    assert IsDigit(s[0]);
    ValueOfDigits(n);
    assert IsDigit(s[|s| - 1]);
    assert (s + "\n")[..|s|] == s;
  }

  lemma MagnitudeOfDigits(s: string)
    requires s != [] && AllDigits(s)
    ensures Magnitude(s) == Some(Value(s))
    ensures Magnitude("+" + s) == None
  {
    assert IsDigit(s[|s| - 1]);
    MagnitudeRefuses("+" + s, 0);
  }

  /** One sign may stand in front of digits; values outside the range of `int` are refused. */
  lemma KStrToIntOfSigned(s: string)
    requires s != [] && AllDigits(s)
    ensures var r := KStrToInt("-" + s); (r.Some? <==> Value(s) <= 0x8000_0000) && (r.Some? ==> r.value + Value(s) == 0)
    ensures var r := KStrToInt("+" + s); (r.Some? <==> Value(s) < 0x8000_0000) && (r.Some? ==> r.value == Value(s))
    ensures var r := KStrToInt(s); (r.Some? <==> Value(s) < 0x8000_0000) && (r.Some? ==> r.value == Value(s))
    ensures KStrToInt("-+" + s) == None
  {
    MagnitudeOfDigits(s);
    assert IsDigit(s[0]);
    assert ("-" + s)[1..] == s && ("+" + s)[1..] == s && ("-+" + s)[1..] == "+" + s;
  }

  /** Text with a character that is no digit, sign or newline is refused. */
  lemma KStrToIntRefuses(s: string, i: nat)
    requires i < |s| && !IsDigit(s[i]) && s[i] !in {'+', '-', '\n'}
    ensures KStrToInt(s) == None
  {
    var t := if s[0] == '-' || s[0] == '+' then s[1..] else s;
    var j := if s[0] == '-' || s[0] == '+' then i - 1 else i;
    assert t[j] == s[i];
    MagnitudeRefuses(t, j);
  }

  lemma MagnitudeRefuses(s: string, i: nat)
    requires i < |s| && !IsDigit(s[i]) && s[i] != '\n'
    ensures Magnitude(s) == None
  {
    var body := if s[|s| - 1] == '\n' then s[..|s| - 1] else s;
    assert body[i] == s[i];
  }
}
