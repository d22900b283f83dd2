/** From the text a client writes to the step that the scheduler takes. */
module EntryPoint {
  import opened Load
  import opened Admission
  import opened Options
  import Sch = Scheduler
  import Txt = Text
  import Cmd = Commands
  import Mp2
  import Listing

  /** The scheduler's event for a parsed command, at a given time. */
  function EventOf(c: Cmd.Command, now: nat): Option<Sch.Event> {
    match c
    case Register(pid, period, computation) => Some(Sch.Register(pid, Claim(period, computation)))
    case Yield(pid) => Some(Sch.Yield(pid, now))
    case Deregister(pid) => Some(Sch.Deregister(pid))
    case Nothing => None
  }

  /** What a command does to the scheduler. */
  function Performed(s: Sch.Sched, c: Cmd.Command, now: nat): Sch.Sched {
    match EventOf(c, now)
    case Some(e) => Sch.Step(Machine, s, e)
    case None => s
  }

  /** What a write of the given text does to the scheduler. */
  function Written(s: Sch.Sched, text: string, now: nat): Sch.Sched
    requires |text| >= 2
  {
    Performed(s, Cmd.Parse(Cmd.Buffer(text)), now)
  }

  /**
    The write callback as a whole: parse the buffer, call the entry point.  A yield must name
    a listed process, since the source dereferences what its search returns.
   */
  method WriteCallback(m: Mp2.Module, buff: array<char>, jiffies: nat)
    requires m.Valid() && buff.Length >= 3 && Txt.Terminated(buff[..]) && jiffies > 0
    requires Cmd.Parse(buff[..]).Yield? ==> !Mp2.Unlisted(Mp2.Views(m.head), Cmd.Parse(buff[..]).pid)
    modifies buff, m, m.head
    ensures m.Valid() && buff[..] == old(buff[..])
    ensures m.View() == Performed(old(m.View()), Cmd.Parse(old(buff[..])), jiffies)
  {
    var c := Cmd.MyWrite(buff);
    Execute(m, c, jiffies);
  }

  method Execute(m: Mp2.Module, c: Cmd.Command, jiffies: nat)
    requires m.Valid() && jiffies > 0
    requires c.Yield? ==> !Mp2.Unlisted(Mp2.Views(m.head), c.pid)
    modifies m, m.head
    ensures m.Valid() && m.View() == Performed(old(m.View()), c, jiffies)
  {
    match c
    case Register(pid, period, computation) =>
      var ret := m.RegEntry(pid, period, computation);
    case Yield(pid) =>
      YieldListed(m, pid, jiffies);
    case Deregister(pid) =>
      DeregisterAny(m, pid);
    case Nothing =>
  }

  method YieldListed(m: Mp2.Module, pid: int, jiffies: nat)
    requires m.Valid() && jiffies > 0 && !Mp2.Unlisted(Mp2.Views(m.head), pid)
    modifies m, m.head
    ensures m.Valid() && m.View() == Sch.Step(Machine, old(m.View()), Sch.Yield(pid, jiffies))
  {
    ghost var s := m.View();
    Mp2.LookupAgrees(s.tasks, pid);
    m.YieldEntry(pid, jiffies, Sch.FindByPid(s.tasks, pid).value);
  }

  method DeregisterAny(m: Mp2.Module, pid: int)
    requires m.Valid()
    modifies m, m.head
    ensures m.Valid() && m.View() == Sch.Step(Machine, old(m.View()), Sch.Deregister(pid))
  {
    Mp2.LookupAgrees(m.View().tasks, pid);
    var ret, i := m.DeregEntry(pid);
  }

  /** The client's three lines have the three effects they are meant to have. */
  lemma ClientLinesAct(s: Sch.Sched, pid: nat, period: nat, computation: nat, now: nat)
    requires pid < 0x8000_0000 && period < 0x8000_0000 && computation < 0x8000_0000
    ensures Written(s, Cmd.PrintRegister(pid, period, computation), now)
      == Sch.RegisterStep(Machine, s, pid, Claim(period, computation))
    ensures Written(s, Cmd.PrintYield(pid), now) == Sch.Step(Machine, s, Sch.Yield(pid, now))
    ensures Written(s, Cmd.PrintDeregister(pid), now) == Sch.Step(Machine, s, Sch.Deregister(pid))
  {
    Cmd.RegisterRoundTrip(pid, period, computation);
    Cmd.YieldRoundTrip(pid);
    Cmd.DeregisterRoundTrip(pid);
  }

  /** Text with another first letter leaves the scheduler as it was. */
  lemma OtherTextDoesNothing(s: Sch.Sched, text: string, now: nat)
    requires |text| >= 2 && text[0] !in {'R', 'Y', 'D'}
    ensures Written(s, text, now) == s
  {
    Cmd.OtherLettersDoNothing(text);
  }

  /**
    A registration line without its newline and with a one-digit computation is accepted in
    every state: it lists process 0 and erases the running fraction.
   */
  lemma BareLineForgetsTheLoad(s: Sch.Sched, pid: nat, period: nat, computation: nat, now: nat)
    requires pid < 0x8000_0000 && period < 0x8000_0000 && computation < 10
    ensures Written(s, "R," + Txt.Digits(pid) + "," + Txt.Digits(period) + "," + Txt.Digits(computation), now)
      == s.(ledger := Ledger(0, 0), tasks := s.tasks + [Sch.Task(0, Claim(0, 0), Sch.Sleeping, 0, None)])
  {
    Cmd.RegisterWithoutNewline(pid, period, computation);
    ZeroClaimErases(s.ledger);
    ZeroRegisters(s, now);
  }

  lemma ZeroRegisters(s: Sch.Sched, now: nat)
    requires Admit(Machine, s.ledger, Claim(0, 0)) == Verdict(true, Ledger(0, 0))
    ensures Performed(s, Cmd.Register(0, 0, 0), now)
      == s.(ledger := Ledger(0, 0), tasks := s.tasks + [Sch.Task(0, Claim(0, 0), Sch.Sleeping, 0, None)])
  {
  }

  lemma ZeroClaimErases(l: Ledger)
    ensures Admit(Machine, l, Claim(0, 0)) == Verdict(true, Ledger(0, 0))
  {
  }

  lemma SomeDigits()
    ensures Txt.Digits(7) == "7" && Txt.Digits(2) == "2"
    ensures Txt.Digits(12) == "12" && Txt.Digits(100) == "100" && Txt.Digits(30) == "30"
  {
    assert Txt.Digits(1) == "1" && Txt.Digits(3) == "3";
    assert Txt.Digits(12) == Txt.Digits(1) + "2";
    assert Txt.Digits(10) == Txt.Digits(1) + "0";
    assert Txt.Digits(100) == Txt.Digits(10) + "0";
    assert Txt.Digits(30) == Txt.Digits(3) + "0";
  }

  /** The texts themselves, for example. */
  lemma ForExample()
    ensures Cmd.PrintRegister(12, 100, 30) == "R,12,100,30\n"
    ensures Cmd.PrintYield(12) == "Y,12\n" && Cmd.PrintDeregister(12) == "D,12\n"
    ensures Listing.Listed([12, 7]) == "2\n12\n7\n\0"
  {
    SomeDigits();
    ListingOfTwo(12, 7);
  }

  lemma ConcatOfTwo(x: string, y: string)
    ensures Listing.Concat([x, y]) == x + y
  {
    assert [x, y][1..] == [y] && [y][1..] == [];
    assert Listing.Concat([]) == "";
    assert Listing.Concat([y]) == y;
  }

  lemma ListingOfTwo(p: int, q: int)
    ensures Listing.Listed([p, q]) == Listing.Line(2) + (Listing.Line(p) + Listing.Line(q)) + "\0"
  {
    ConcatOfTwo(Listing.Line(p), Listing.Line(q));
    assert Listing.Lines([p, q]) == [Listing.Line(p), Listing.Line(q)];
  }

  // ---------------------------------------------------------------------------
  // A listing that does not fit
  // ---------------------------------------------------------------------------

  /** One process, of a pid that takes twelve characters, registers `n` times for nothing. */
  function Crowd(n: nat): seq<Sch.Event> {
    if n == 0 then [] else Crowd(n - 1) + [Sch.Register(Listing.LONG, Claim(1, 0))]
  }

  function PidsOf(s: Sch.Sched): (pids: seq<int>)
    ensures |pids| == |s.tasks| && forall i :: 0 <= i < |pids| ==> pids[i] == s.tasks[i].pid
  {
    seq(|s.tasks|, i requires 0 <= i < |s.tasks| => s.tasks[i].pid)
  }

  lemma OneMore(s: Sch.Sched)
    requires s.ledger.numerator == 0
    ensures var z := Sch.Step(Machine, s, Sch.Register(Listing.LONG, Claim(1, 0)));
      z.ledger.numerator == 0 && z.tasks == s.tasks + [Sch.Task(Listing.LONG, Claim(1, 0), Sch.Sleeping, 0, None)]
  {
  }

  /** Every registration is accepted. */
  lemma {:induction false} CrowdIsListed(threads: map<int, Sch.Thread>, n: nat)
    ensures var s := Sch.Run(Machine, threads, Crowd(n));
      s.ledger.numerator == 0 && |s.tasks| == n && forall i :: 0 <= i < n ==> s.tasks[i].pid == Listing.LONG
  {
    if n > 0 {
      CrowdIsListed(threads, n - 1);
      OneMore(Sch.Run(Machine, threads, Crowd(n - 1)));
      Sch.RunSnoc(Machine, threads, Crowd(n - 1), Sch.Register(Listing.LONG, Claim(1, 0)));
    }
  }

  /** A run reaches a list whose listing exceeds the buffers of the read callback. */
  lemma CrowdedListing(threads: map<int, Sch.Thread>, n: nat)
    requires n > 170
    ensures |Listing.Listed(PidsOf(Sch.Run(Machine, threads, Crowd(n))))| > Listing.BUFFSIZE
  {
    CrowdIsListed(threads, n);
    Listing.LongListing(PidsOf(Sch.Run(Machine, threads, Crowd(n))));
  }
}
