/**
  The listing of registered processes: written by the module's read callback, read back by
  the client to learn whether its registration was accepted.
 */
module Listing {
  import opened Text
  import opened Options

  const LINE: nat := 255  // characters that fgets takes into a buffer of 256

  const BUFFSIZE: nat := 2048

  /** An `int` in decimal. */
  function Show(n: int): string {
    if n < 0 then "-" + Digits(-n) else Digits(n)
  }

  function Line(n: int): string {
    Show(n) + "\n"
  }

  /** One line after the other. */
  function Concat(lines: seq<string>): string {
    if lines == [] then "" else lines[0] + Concat(lines[1..])
  }

  lemma {:induction false} ConcatSnoc(lines: seq<string>, line: string)
    ensures Concat(lines + [line]) == Concat(lines) + line
  {
    if lines == [] {
      assert Concat([line]) == line + Concat([line][1..]);
    } else {
      ConcatSnoc(lines[1..], line);
      assert (lines + [line])[1..] == lines[1..] + [line];
      assert lines[0] + (Concat(lines[1..]) + line) == Concat(lines) + line;
    }
  }

  lemma {:induction false} ConcatSplit(lines: seq<string>, k: nat)
    requires k <= |lines|
    ensures Concat(lines) == Concat(lines[..k]) + Concat(lines[k..])
  {
    if k == 0 {
      assert lines[0..] == lines;
    } else {
      ConcatSplit(lines[1..], k - 1);
      assert lines[..k][1..] == lines[1..][..k - 1] && lines[k..] == lines[1..][k - 1..];
    }
  }

  function Lines(pids: seq<int>): (ls: seq<string>)
    ensures |ls| == |pids| && forall i :: 0 <= i < |pids| ==> ls[i] == Line(pids[i])
  {
    seq(|pids|, i requires 0 <= i < |pids| => Line(pids[i]))
  }

  /** The number of processes, their pids one per line, and the terminating NUL. */
  function Listed(pids: seq<int>): string {
    Line(|pids|) + Concat(Lines(pids)) + "\0"
  }

  /** The array holds the string from its start. */
  ghost predicate HoldsString(a: array<char>, s: string)
    reads a
  {
    |s| < a.Length && a[..|s| + 1] == s + "\0" && '\0' !in s
  }

  method Strlen(a: array<char>, ghost s: string) returns (n: nat)
    requires HoldsString(a, s)
    ensures n == |s|
  {
    n := 0;
    assert forall k :: 0 <= k <= |s| ==> a[k] == (s + "\0")[k];
    while a[n] != '\0'
      invariant n <= |s|
      decreases |s| - n
    {
      n := n + 1;
    }
  }

  /** Copy a text into the array. */
  method Copy(a: array<char>, off: nat, text: string)
    requires off + |text| <= a.Length
    modifies a
    ensures a[..] == old(a[..off]) + text + old(a[off + |text|..])
  {
    for k := 0 to |text|
      invariant forall j :: 0 <= j < a.Length ==> a[j] == if off <= j < off + k then text[j - off] else old(a[j])
    {
      a[off + k] := text[k];
    }
  }

  /** sprintf behind the string that the array holds: the text replaces the NUL, and a new one follows. */
  method Print(a: array<char>, off: nat, text: string, ghost s: string)
    requires HoldsString(a, s) && off == |s| && off + |text| < a.Length && '\0' !in text
    modifies a
    ensures HoldsString(a, s + text)
  {
    Copy(a, off, text + "\0");
    ghost var t := s + text;
    assert a[..|t| + 1] == t + "\0";
  }

  lemma NoNul(n: int)
    ensures '\0' !in Line(n)
  {
  }

  /** What has been printed after `k` of the pids leaves room for the next one. */
  lemma RoomForNext(pids: seq<int>, k: nat)
    requires k < |pids| && |Listed(pids)| <= BUFFSIZE
    ensures Concat(Lines(pids)[..k + 1]) == Concat(Lines(pids)[..k]) + Line(pids[k])
    ensures |Concat(Lines(pids)[..k])| + |Line(pids[k])| < BUFFSIZE
  {
    NextLine(Lines(pids), k);
    ConcatSplit(Lines(pids), k + 1);
  }

  lemma NextLine(lines: seq<string>, k: nat)
    requires k < |lines|
    ensures Concat(lines[..k + 1]) == Concat(lines[..k]) + lines[k]
  {
    ConcatSnoc(lines[..k], lines[k]);
    assert lines[..k + 1] == lines[..k] + [lines[k]];
  }

  method PrintPids(tmpbuf: array<char>, pids: seq<int>) returns (off: nat, size: nat)
    requires tmpbuf.Length == BUFFSIZE && |Listed(pids)| <= BUFFSIZE && HoldsString(tmpbuf, "")
    modifies tmpbuf
    ensures size == |pids| && off == |Concat(Lines(pids))| && HoldsString(tmpbuf, Concat(Lines(pids)))
  {
    off, size := 0, 0;
    ghost var done := "";
    for k := 0 to |pids|
      invariant size == k && done == Concat(Lines(pids)[..k]) && off == |done| && HoldsString(tmpbuf, done)
    {
      size := size + 1;
      RoomForNext(pids, k);
      NoNul(pids[k]);
      Print(tmpbuf, off, Line(pids[k]), done);
      done := done + Line(pids[k]);
      off := Strlen(tmpbuf, done);
    }
    assert Lines(pids)[..|pids|] == Lines(pids);
  }

  /** The first line goes to one buffer, and the other is copied behind it. */
  method Join(buf: array<char>, first: string, tmpbuf: array<char>, off: nat, ghost rest: string) returns (text: string)
    requires buf != tmpbuf && HoldsString(buf, "") && HoldsString(tmpbuf, rest) && off == |rest|
    requires |first| + |rest| < buf.Length && '\0' !in first
    modifies buf
    ensures text == first + rest + "\0"
  {
    Print(buf, 0, first, "");
    var n := Strlen(buf, first);
    ghost var b := buf[..];
    assert b[..n] == first;
    Copy(buf, n, tmpbuf[..off + 1]);
    text := buf[..n + off + 1];
  }

  /** The read callback, for a listing that fits its buffers: all of it to the first read, nothing to a later one. */
  method MyRead(pids: seq<int>, offset: nat) returns (text: string, offset': nat)
    requires offset == 0 ==> |Listed(pids)| <= BUFFSIZE
    ensures text == (if offset == 0 then Listed(pids) else "") && offset' == offset + |text|
  {
    if offset > 0 {
      return "", offset;
    }
    var tmpbuf := new char[BUFFSIZE];
    tmpbuf[0] := '\0';
    var buf := new char[BUFFSIZE];
    buf[0] := '\0';
    var off, size := PrintPids(tmpbuf, pids);
    NoNul(size);
    text := Join(buf, Line(size), tmpbuf, off, Concat(Lines(pids)));
    offset' := |text|;
  }

  // ---------------------------------------------------------------------------
  // The reader
  // ---------------------------------------------------------------------------

  /** Where fgets stops: after a newline, at the end of the text, or when `room` characters are taken. */
  function LineEnd(c: string, pos: nat, room: nat): (r: nat)
    requires pos <= |c|
    ensures pos <= r <= |c| && (pos < |c| && room > 0 ==> pos < r)
    decreases room
  {
    if pos == |c| || room == 0 then pos
    else if c[pos] == '\n' then pos + 1
    else LineEnd(c, pos + 1, room - 1)
  }

  function DigitPrefix(s: string): (p: string)
    ensures AllDigits(p)
  {
    if s == [] || !IsDigit(s[0]) then [] else [s[0]] + DigitPrefix(s[1..])
  }

  predicate IsSpace(c: char) {
    c == ' ' || '\t' <= c <= '\r'
  }

  /** sscanf with "%d": the number the text starts with, if any. */
  function Scan(s: string): Option<int> {
    if s == [] then None
    else if IsSpace(s[0]) then Scan(s[1..])
    else
      var t := if s[0] == '-' || s[0] == '+' then s[1..] else s;
      var d := DigitPrefix(t);
      if d == [] then None else Some(if s[0] == '-' then -(Value(d) as int) else Value(d))
  }

  /** The value of `pid` after each further line. */
  function Reads(c: string, pos: nat, pid: int): seq<int>
    requires pos <= |c|
    decreases |c| - pos
  {
    if pos == |c| then [] else
      var end := LineEnd(c, pos, LINE);
      var next := match Scan(c[pos..end]) case Some(v) => v case None => pid;
      [next] + Reads(c, end, next)
  }

  /** The number that the first line starts with, or 0. */
  function FirstNumber(c: string): int {
    match Scan(c[..LineEnd(c, 0, LINE)]) case Some(v) => v case None => 0
  }

  /** Reads the number of processes; returns 0 if the pid is read in some later line, 1 otherwise. */
  method Check(c: string, currPid: int) returns (ret: int, size: int)
    ensures size == FirstNumber(c)
    ensures ret == if currPid in Reads(c, LineEnd(c, 0, LINE), 0) then 0 else 1
  {
    var pos, pid := LineEnd(c, 0, LINE), 0;
    size := 0;
    match Scan(c[..pos]) {
      case Some(v) => size := v;
      case None =>
    }
    while pos < |c|
      invariant pos <= |c|
      invariant currPid in Reads(c, LineEnd(c, 0, LINE), 0) <==> currPid in Reads(c, pos, pid)
      decreases |c| - pos
    {
      var end := LineEnd(c, pos, LINE);
      match Scan(c[pos..end]) {
        case Some(v) => pid := v;
        case None =>
      }
      if pid == currPid {
        return 0, size;
      }
      pos := end;
    }
    return 1, size;
  }

  // ---------------------------------------------------------------------------
  // Reading what was written
  // ---------------------------------------------------------------------------

  lemma {:induction false} LineEndIs(c: string, pos: nat, room: nat, n: nat)
    requires pos <= n < |c| && c[n] == '\n' && n - pos < room && forall k :: pos <= k < n ==> c[k] != '\n'
    ensures LineEnd(c, pos, room) == n + 1
    decreases n - pos
  {
    if pos < n {
      LineEndIs(c, pos + 1, room - 1, n);
    }
  }

  lemma {:induction false} DigitPrefixIs(d: string, rest: string)
    requires AllDigits(d) && rest != [] && !IsDigit(rest[0])
    ensures DigitPrefix(d + rest) == d
  {
    if d == [] {
      assert d + rest == rest;
    } else {
      DigitPrefixIs(d[1..], rest);
      assert (d + rest)[1..] == d[1..] + rest;
    }
  }

  lemma ScanLine(n: int)
    ensures Scan(Line(n)) == Some(n)
  {
    var d := Digits(if n < 0 then -n else n);
    assert IsDigit(d[0]);
    DigitPrefixIs(d, "\n");
    ValueOfDigits(if n < 0 then -n else n);
    if n < 0 {
      assert Line(n)[1..] == d + "\n";
    }
  }

  /** The range of `int`. */
  predicate Pid(n: int) {
    -0x8000_0000 <= n < 0x8000_0000
  }

  /** A line that fgets takes whole and sscanf reads as `n`. */
  predicate Readable(line: string, n: int) {
    && 1 <= |line| <= LINE && line[|line| - 1] == '\n'
    && (forall k :: 0 <= k < |line| - 1 ==> line[k] != '\n')
    && Scan(line) == Some(n)
  }

  /** A sign and digits have no newline among them. */
  lemma ShownWithoutNewline(n: int)
    requires Pid(n)
    ensures 1 <= |Show(n)| <= 11 && forall k :: 0 <= k < |Show(n)| ==> Show(n)[k] != '\n'
  {
    DigitCount(if n < 0 then -n else n);
  }

  lemma LineIsReadable(n: int)
    requires Pid(n)
    ensures Readable(Line(n), n) && |Line(n)| <= 12
  {
    ShownWithoutNewline(n);
    ScanLine(n);
    assert forall k :: 0 <= k < |Show(n)| ==> Line(n)[k] == Show(n)[k];
  }

  lemma ReadStep(c: string, before: string, line: string, n: int, after: string, pid: int)
    requires c == before + line + after && Readable(line, n)
    ensures LineEnd(c, |before|, LINE) == |before + line|
    ensures Reads(c, |before|, pid) == [n] + Reads(c, |before + line|, n)
  {
    LineEndIs(c, |before|, LINE, |before| + |line| - 1);
    assert c[|before|..|before| + |line|] == line;
  }

  lemma ReadEnd(c: string, before: string, pid: int)
    requires c == before + "\0"
    ensures Reads(c, |before|, pid) == [pid]
  {
  }

  /** The last pid of a list, or what was read before it. */
  function Last(pids: seq<int>, pid: int): int {
    if pids == [] then pid else pids[|pids| - 1]
  }

  /** The reader sees every pid in turn, and at the final NUL once more the last one. */
  lemma {:induction false} ReadsLines(c: string, before: string, lines: seq<string>, pids: seq<int>, pid: int)
    requires c == before + Concat(lines) + "\0" && |lines| == |pids|
    requires forall i :: 0 <= i < |pids| ==> Readable(lines[i], pids[i])
    ensures Reads(c, |before|, pid) == pids + [Last(pids, pid)]
    decreases |pids|
  {
    if pids == [] {
      assert c == before + "\0";
      ReadEnd(c, before, pid);
    } else {
      Regroup(before, lines[0], Concat(lines[1..]));
      ReadStep(c, before, lines[0], pids[0], Concat(lines[1..]) + "\0", pid);
      ReadsLines(c, before + lines[0], lines[1..], pids[1..], pids[0]);
      assert pids + [Last(pids, pid)] == [pids[0]] + (pids[1..] + [Last(pids[1..], pids[0])]);
    }
  }

  lemma Regroup(a: string, b: string, c: string)
    ensures a + (b + c) + "\0" == a + b + (c + "\0") == a + b + c + "\0"
  {
  }

  lemma LinesAreReadable(pids: seq<int>)
    requires forall i :: 0 <= i < |pids| ==> Pid(pids[i])
    ensures forall i :: 0 <= i < |pids| ==> Readable(Lines(pids)[i], pids[i])
  {
    forall i | 0 <= i < |pids|
      ensures Readable(Lines(pids)[i], pids[i])
    {
      LineIsReadable(pids[i]);
    }
  }

  lemma FirstLineEnds(c: string, first: string, n: int)
    requires Readable(first, n) && |first| <= |c| && c[..|first|] == first
    ensures LineEnd(c, 0, LINE) == |first|
  {
    assert forall k :: 0 <= k < |first| ==> c[k] == first[k];
    LineEndIs(c, 0, LINE, |first| - 1);
  }

  /** After a first line the reader gets the pids in turn, and the last one, or 0, once more. */
  lemma ReadsAfterFirst(c: string, first: string, n: int, lines: seq<string>, pids: seq<int>)
    requires Readable(first, n) && |lines| == |pids| && forall i :: 0 <= i < |pids| ==> Readable(lines[i], pids[i])
    requires c == first + Concat(lines) + "\0"
    ensures Reads(c, LineEnd(c, 0, LINE), 0) == pids + [Last(pids, 0)]
  {
    FirstLineEnds(c, first, n);
    ReadsLines(c, first, lines, pids, 0);
  }

  lemma ReadsListing(pids: seq<int>)
    requires Pid(|pids|) && forall i :: 0 <= i < |pids| ==> Pid(pids[i])
    ensures var c := Listed(pids);
      Reads(c, LineEnd(c, 0, LINE), 0) == pids + [Last(pids, 0)]
  {
    LineIsReadable(|pids|);
    LinesAreReadable(pids);
    ReadsAfterFirst(Listed(pids), Line(|pids|), |pids|, Lines(pids), pids);
  }

  /** The number that the client reads first is the number of listed processes. */
  lemma CountIsRead(pids: seq<int>)
    requires Pid(|pids|)
    ensures FirstNumber(Listed(pids)) == |pids|
  {
    var c, first := Listed(pids), Line(|pids|);
    LineIsReadable(|pids|);
    assert c[..|first|] == first;
    FirstLineEnds(c, first, |pids|);
  }

  /**
    The client finds a pid in the listing if and only if the module has it on its list; only
    process 0 is found in an empty listing too.
   */
  lemma CheckFindsListed(pids: seq<int>, pid: int)
    requires Pid(|pids|) && forall i :: 0 <= i < |pids| ==> Pid(pids[i])
    ensures var c := Listed(pids);
      pid in Reads(c, LineEnd(c, 0, LINE), 0) <==> pid in pids || (pids == [] && pid == 0)
  {
    ReadsListing(pids);
    assert pid in pids + [Last(pids, 0)] <==> pid in pids || pid == Last(pids, 0);
  }

  // ---------------------------------------------------------------------------
  // The size of the listing
  // ---------------------------------------------------------------------------

  lemma {:induction false} ConcatAtMost(lines: seq<string>, m: nat)
    requires forall i :: 0 <= i < |lines| ==> |lines[i]| <= m
    ensures |Concat(lines)| <= m * |lines|
  {
    if lines != [] {
      ConcatAtMost(lines[1..], m);
      assert m * |lines| == m * |lines[1..]| + m;
    }
  }

  lemma {:induction false} ConcatOf(lines: seq<string>, m: nat)
    requires forall i :: 0 <= i < |lines| ==> |lines[i]| == m
    ensures |Concat(lines)| == m * |lines|
  {
    if lines != [] {
      ConcatOf(lines[1..], m);
      assert m * |lines| == m * |lines[1..]| + m;
    }
  }

  /** The smallest `int` but one, which takes a line of twelve characters. */
  const LONG: int := -0x7fff_ffff

  lemma LongLine()
    ensures |Line(LONG)| == 12
  {
  }

  /** Every listing of `n` processes fits the buffers if and only if there are at most 170. */
  lemma ListingFitsIff(n: nat)
    requires Pid(n)
    ensures (forall pids: seq<int> :: |pids| == n && (forall i :: 0 <= i < n ==> Pid(pids[i])) ==> |Listed(pids)| <= BUFFSIZE)
      <==> n <= 170
  {
    if n <= 170 {
      forall pids: seq<int> | |pids| == n && (forall i :: 0 <= i < n ==> Pid(pids[i]))
        ensures |Listed(pids)| <= BUFFSIZE
      {
        SmallListing(pids);
      }
    } else {
      var pids := seq(n, _ => LONG);
      LongListing(pids);
      assert |Listed(pids)| > BUFFSIZE;
    }
  }

  lemma LongListing(pids: seq<int>)
    requires |pids| > 170 && forall i :: 0 <= i < |pids| ==> pids[i] == LONG
    ensures |Listed(pids)| > BUFFSIZE
  {
    LongLine();
    ConcatOf(Lines(pids), 12);
  }

  lemma SmallListing(pids: seq<int>)
    requires |pids| <= 170 && forall i :: 0 <= i < |pids| ==> Pid(pids[i])
    ensures |Listed(pids)| <= BUFFSIZE
  {
    forall i | 0 <= i < |pids|
      ensures |Lines(pids)[i]| <= 12
    {
      LineIsReadable(pids[i]);
    }
    ConcatAtMost(Lines(pids), 12);
    ThreeDigits(|pids|);
  }

  lemma ThreeDigits(n: nat)
    requires n < 1000
    ensures |Line(n)| <= 4
  {
    assert Tens(1) == 10 && Tens(2) == 100 && Tens(3) == 1000;
    AtMostDigits(n, 3);
  }
}
