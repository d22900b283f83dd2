/**
  The text commands of the scheduler: the client's printers and the module's write callback.

  The callback works in place: it overwrites two commas by NUL to cut the buffer into
  strings, converts them, and puts the commas back.
 */
module Commands {
  import opened Text
  import opened Options

  datatype Command =
    | Register(pid: int, period: nat, computation: nat)
    | Yield(pid: int)
    | Deregister(pid: int)
    | Nothing

  // ---------------------------------------------------------------------------
  // The client's side
  // ---------------------------------------------------------------------------

  function PrintRegister(pid: nat, period: nat, computation: nat): string {
    "R," + Digits(pid) + "," + Digits(period) + "," + Digits(computation) + "\n"
  }

  function PrintYield(pid: nat): string {
    "Y," + Digits(pid) + "\n"
  }

  function PrintDeregister(pid: nat): string {
    "D," + Digits(pid) + "\n"
  }

  // ---------------------------------------------------------------------------
  // The module's side
  // ---------------------------------------------------------------------------

  /** The first position of `c` at or after `start` within the string; -1 if there is none. */
  function FindChar(b: seq<char>, c: char, start: nat): (r: int)
    requires Terminated(b)
    ensures r == -1 || start <= r < CLen(b)
    ensures r != -1 ==> b[r] == c && forall k :: start <= k < r ==> b[k] != c
    ensures r == -1 ==> forall k :: start <= k < CLen(b) ==> b[k] != c
    decreases |b| - start
  {
    if start >= CLen(b) then -1 else if b[start] == c then start else FindChar(b, c, start + 1)
  }

  /** What kstrtoint leaves in a variable that held 0. */
  function IntOrZero(s: string): int {
    match KStrToInt(s) case Some(v) => v case None => 0
  }

  /** An `int` passed as an `unsigned int`. */
  function AsUnsigned(x: int): nat
    requires -0x8000_0000 <= x < 0x8000_0000
  {
    if x < 0 then x + 0x1_0000_0000 else x
  }

  /** The decimal texts found in a command. */
  datatype Fields = One(pid: string) | Three(first: string, second: string, third: string) | Malformed

  /** A command without a second comma has one number; with two, three, if enough text follows. */
  function Split(b: seq<char>): Fields
    requires |b| >= 3 && Terminated(b)
  {
    var second := FindChar(b, ',', 2);
    var third := FindChar(b, ',', second + 1);
    if second == -1 then One(CStr(b, 2))
    else if third != -1 && CLen(b) > third + 2 then Three(b[2..second], b[second + 1..third], CStr(b, third + 1))
    else Malformed
  }

  /** The numbers of a command: pid, period, computation. */
  function Numbers(f: Fields): (r: (int, int, int))
    ensures -0x8000_0000 <= r.1 < 0x8000_0000 && -0x8000_0000 <= r.2 < 0x8000_0000
  {
    match f
    case One(p) => (IntOrZero(p), 0, 0)
    case Three(p, q, r) => (IntOrZero(p), IntOrZero(q), IntOrZero(r))
    case Malformed => (0, 0, 0)
  }

  /** The entry point a write dispatches to. */
  function Parse(b: seq<char>): Command
    requires |b| >= 3 && Terminated(b)
  {
    var (pid, period, computation) := Numbers(Split(b));
    if b[0] == 'R' then Register(pid, AsUnsigned(period), AsUnsigned(computation))
    else if b[0] == 'Y' then Yield(pid)
    else if b[0] == 'D' then Deregister(pid)
    else Nothing
  }

  method FindCharIn(b: array<char>, c: char, start: nat) returns (r: int)
    requires Terminated(b[..])
    ensures r == FindChar(b[..], c, start)
  {
    var i := start;
    while i < CLen(b[..])
      invariant start <= i
      invariant FindChar(b[..], c, start) == FindChar(b[..], c, i)
      decreases CLen(b[..]) - i
    {
      if b[i] == c {
        return i;
      }
      i := i + 1;
    }
    return -1;
  }

  /** Convert the three numbers that two commas separate; the commas are NUL meanwhile. */
  method Convert(buff: array<char>, second: nat, third: nat) returns (pid: int, period: int, computation: int)
    requires buff.Length >= 3 && Terminated(buff[..])
    requires 2 <= second < third < CLen(buff[..]) && buff[second] == ',' && buff[third] == ','
    modifies buff
    ensures buff[..] == old(buff[..])
    ensures (pid, period, computation)
      == Numbers(Three(buff[..][2..second], buff[..][second + 1..third], CStr(buff[..], third + 1)))
  {
    buff[second] := '\0';
    buff[third] := '\0';
    CutStrings(old(buff[..]), buff[..], second, third);
    pid := IntOrZero(CStr(buff[..], 2));
    period := IntOrZero(CStr(buff[..], second + 1));
    computation := IntOrZero(CStr(buff[..], third + 1));
    buff[second] := ',';
    buff[third] := ',';
    assert buff[..] == old(buff[..]);
  }

  lemma CutStrings(b: seq<char>, cut: seq<char>, second: nat, third: nat)
    requires |b| >= 3 && Terminated(b) && 2 <= second < third < CLen(b)
    requires cut == b[second := '\0'][third := '\0']
    ensures CStr(cut, 2) == b[2..second]
    ensures CStr(cut, second + 1) == b[second + 1..third]
    ensures CStr(cut, third + 1) == CStr(b, third + 1)
  {
    NulIs(cut, 2, second);
    NulIs(cut, second + 1, third);
    var n := Nul(b, third + 1);
    NulIs(cut, third + 1, n);
    assert cut[2..second] == b[2..second];
    assert cut[second + 1..third] == b[second + 1..third];
    assert cut[third + 1..n] == b[third + 1..n];
  }

  method ReadNumbers(buff: array<char>) returns (pid: int, period: int, computation: int)
    requires buff.Length >= 3 && Terminated(buff[..])
    modifies buff
    ensures (pid, period, computation) == Numbers(Split(old(buff[..])))
    ensures buff[..] == old(buff[..])
  {
    var second := FindCharIn(buff, ',', 2);
    var third := FindCharIn(buff, ',', second + 1);
    pid, period, computation := 0, 0, 0;
    ghost var f := Split(buff[..]);
    if second == -1 {
      assert f == One(CStr(buff[..], 2));
      pid := IntOrZero(CStr(buff[..], 2));
    } else if third != -1 && CLen(buff[..]) > third + 2 {
      assert f == Three(buff[..][2..second], buff[..][second + 1..third], CStr(buff[..], third + 1));
      pid, period, computation := Convert(buff, second, third);
    } else {
      assert f == Malformed;
    }
  }

  /** The write callback, from the buffer as copied from the user to the call it makes. */
  method MyWrite(buff: array<char>) returns (command: Command)
    requires buff.Length >= 3 && Terminated(buff[..])
    modifies buff
    ensures command == Parse(old(buff[..]))
    ensures buff[..] == old(buff[..])
  {
    var pid, period, computation := ReadNumbers(buff);
    match buff[..][0]
    case 'R' => command := Register(pid, AsUnsigned(period), AsUnsigned(computation));
    case 'Y' => command := Yield(pid);
    case 'D' => command := Deregister(pid);
    case _ => command := Nothing;
  }

  // ---------------------------------------------------------------------------
  // Parsing undoes printing
  // ---------------------------------------------------------------------------

  lemma FindCharIs(b: seq<char>, c: char, start: nat, k: nat)
    requires Terminated(b)
    requires start <= k < CLen(b) && b[k] == c && forall j :: start <= j < k ==> b[j] != c
    ensures FindChar(b, c, start) == k
  {
  }

  /** The buffer that holds a text. */
  function Buffer(text: string): seq<char> {
    text + "\0"
  }

  lemma ParsePlain(op: char, s: string)
    requires op != '\0' && '\0' !in s && ',' !in s && |s| >= 1
    ensures var b := Buffer([op] + "," + s);
      |b| >= 3 && Split(b) == One(s)
  {
  }

  lemma NoMarks(n: nat)
    ensures '\0' !in Digits(n) && ',' !in Digits(n)
    ensures '\0' !in Digits(n) + "\n" && ',' !in Digits(n) + "\n"
  {
  }

  lemma YieldRoundTrip(pid: nat)
    requires pid < 0x8000_0000
    ensures Parse(Buffer(PrintYield(pid))) == Yield(pid)
  {
    NoMarks(pid);
    ParsePlain('Y', Digits(pid) + "\n");
    assert PrintYield(pid) == ['Y'] + "," + (Digits(pid) + "\n");
    KStrToIntOfDigits(pid);
  }

  lemma DeregisterRoundTrip(pid: nat)
    requires pid < 0x8000_0000
    ensures Parse(Buffer(PrintDeregister(pid))) == Deregister(pid)
  {
    NoMarks(pid);
    ParsePlain('D', Digits(pid) + "\n");
    assert PrintDeregister(pid) == ['D'] + "," + (Digits(pid) + "\n");
    KStrToIntOfDigits(pid);
  }

  /** Where the parts of a registration lie in the buffer. */
  lemma RegisterLayout(p: string, q: string, r: string)
    requires ',' !in p && ',' !in q && '\0' !in p && '\0' !in q
    ensures var b := Buffer("R," + p + "," + q + "," + r);
      var second := 2 + |p|;
      var third := second + 1 + |q|;
      && |b| == third + |r| + 2
      && b[0] == 'R' && b[1] == ',' && b[second] == ',' && b[third] == ','
      && b[2..second] == p && b[second + 1..third] == q && b[third + 1..|b| - 1] == r
      && (forall k :: 2 <= k < second || second < k < third ==> b[k] != ',' && b[k] != '\0')
      && (forall k :: third < k < |b| - 1 ==> b[k] == r[k - third - 1])
  {
  }

  /** A registration splits into its three texts if at least two characters follow the last comma. */
  lemma ParseRegister(p: string, q: string, r: string)
    requires ',' !in p && ',' !in q && '\0' !in p && '\0' !in q && '\0' !in r && ',' !in r
    ensures var b := Buffer("R," + p + "," + q + "," + r);
      |b| >= 3 && Split(b) == if |r| >= 2 then Three(p, q, r) else Malformed
  {
    var b := Buffer("R," + p + "," + q + "," + r);
    var second := 2 + |p|;
    var third := second + 1 + |q|;
    RegisterLayout(p, q, r);
    NulIs(b, 0, |b| - 1);
    FindCharIs(b, ',', 2, second);
    FindCharIs(b, ',', second + 1, third);
    NulIs(b, third + 1, |b| - 1);
  }

  lemma RegisterRoundTrip(pid: nat, period: nat, computation: nat)
    requires pid < 0x8000_0000 && period < 0x8000_0000 && computation < 0x8000_0000
    ensures Parse(Buffer(PrintRegister(pid, period, computation))) == Register(pid, period, computation)
  {
    var r := Digits(computation) + "\n";
    NoMarks(pid);
    NoMarks(period);
    NoMarks(computation);
    ParseRegister(Digits(pid), Digits(period), r);
    assert PrintRegister(pid, period, computation) == "R," + Digits(pid) + "," + Digits(period) + "," + r;
    KStrToIntOfDigits(pid);
    KStrToIntOfDigits(period);
    KStrToIntOfDigits(computation);
  }

  /**
    The same line without its newline is understood if and only if the computation has two
    digits; otherwise it registers process 0 with period and computation 0.
   */
  lemma RegisterWithoutNewline(pid: nat, period: nat, computation: nat)
    requires pid < 0x8000_0000 && period < 0x8000_0000 && computation < 0x8000_0000
    ensures Parse(Buffer("R," + Digits(pid) + "," + Digits(period) + "," + Digits(computation)))
      == if computation >= 10 then Register(pid, period, computation) else Register(0, 0, 0)
  {
    NoMarks(pid);
    NoMarks(period);
    NoMarks(computation);
    ParseRegister(Digits(pid), Digits(period), Digits(computation));
    DigitCount(computation);
    KStrToIntOfDigits(pid);
    KStrToIntOfDigits(period);
    KStrToIntOfDigits(computation);
  }

  /** A registration with three texts passes their numbers on. */
  lemma ParseThree(p: string, q: string, r: string, pid: int, period: int, computation: int)
    requires ',' !in p && ',' !in q && '\0' !in p && '\0' !in q && '\0' !in r && ',' !in r && |r| >= 2
    requires IntOrZero(p) == pid && IntOrZero(q) == period && IntOrZero(r) == computation
    ensures var b := Buffer("R," + p + "," + q + "," + r);
      |b| >= 3 && Parse(b) == Register(pid, AsUnsigned(period), AsUnsigned(computation))
  {
    ParseRegister(p, q, r);
    assert Buffer("R," + p + "," + q + "," + r)[0] == 'R';
  }

  /** A negative number is taken as the unsigned one with the same bits. */
  lemma RegisterNegativePeriod(p: string, q: string, r: string, pid: nat, period: nat, computation: nat)
    requires p == Digits(pid) && q == "-" + Digits(period) && r == Digits(computation) + "\n"
    requires pid < 0x8000_0000 && 0 < period <= 0x8000_0000 && computation < 0x8000_0000
    ensures var b := Buffer("R," + p + "," + q + "," + r);
      |b| >= 3 && Parse(b) == Register(pid, 0x1_0000_0000 - period, computation)
  {
    NoMarks(pid);
    NoMarks(period);
    NoMarks(computation);
    ReadsNegative(period);
    KStrToIntOfDigits(pid);
    KStrToIntOfDigits(computation);
    var n: int := period;
    ParseThree(p, q, r, pid, -n, computation);
  }

  lemma ReadsNegative(n: nat)
    requires n <= 0x8000_0000
    ensures IntOrZero("-" + Digits(n)) + n == 0
  {
    KStrToIntOfSigned(Digits(n));
    ValueOfDigits(n);
  }

  /** With two numbers, neither is read: the command applies to process 0. */
  lemma TwoNumbersAreNone(op: char, p: string, q: string)
    requires op in {'R', 'Y', 'D'} && ',' !in p && ',' !in q && '\0' !in p && '\0' !in q
    ensures var b := Buffer([op] + "," + p + "," + q);
      |b| >= 3 && Parse(b) == if op == 'R' then Register(0, 0, 0) else if op == 'Y' then Yield(0) else Deregister(0)
  {
    var b := Buffer([op] + "," + p + "," + q);
    var second := 2 + |p|;
    assert b[0] == op && b[1] == ',' && b[second] == ',' && |b| == second + |q| + 2;
    assert forall k :: 2 <= k < second ==> b[k] == p[k - 2];
    assert forall k :: second < k < |b| - 1 ==> b[k] == q[k - second - 1];
    NulIs(b, 0, |b| - 1);
    FindCharIs(b, ',', 2, second);
    assert FindChar(b, ',', second + 1) == -1;
  }

  /** A registration line with a pid only registers that process with period and computation 0. */
  lemma RegisterWithPidOnly(pid: nat)
    requires pid < 0x8000_0000
    ensures Parse(Buffer("R," + Digits(pid) + "\n")) == Register(pid, 0, 0)
  {
    NoMarks(pid);
    ParsePlain('R', Digits(pid) + "\n");
    assert "R," + Digits(pid) + "\n" == ['R'] + "," + (Digits(pid) + "\n");
    KStrToIntOfDigits(pid);
  }

  /** Text with any other first letter is no command. */
  lemma OtherLettersDoNothing(text: string)
    requires |text| >= 2
    ensures text[0] !in {'R', 'Y', 'D'} <==> Parse(Buffer(text)) == Nothing
  {
    assert Buffer(text)[0] == text[0];
  }
}
