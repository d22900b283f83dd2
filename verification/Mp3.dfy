/**
  The profiler module as it is written: task structures and the sample buffer updated in
  place.  Every entry point is proved to perform the corresponding step of the state machine.
 */
module Mp3 {
  import opened Load
  import opened Sampler

  /** One `mp3_task_struct`; its counters are uninitialized memory at first. */
  class TaskStruct {
    const pid: int
    var usage: Counters

    constructor (pid: int, junk: Counters)
      ensures View() == Entry(pid, junk)
    {
      this.pid, usage := pid, junk;
    }

    function View(): Entry
      reads this
    {
      Entry(pid, usage)
    }
  }

  ghost function Views(ts: seq<TaskStruct>): (es: seq<Entry>)
    reads ts
    ensures |es| == |ts| && forall i :: 0 <= i < |ts| ==> es[i] == ts[i].View()
  {
    seq(|ts|, i requires 0 <= i < |ts| reads ts => ts[i].View())
  }

  /** The entries read by a pass, the processes it leaves, and its three column sums. */
  datatype Progress = Progress(done: seq<Entry>, left: map<int, Counters>, minor: nat, major: nat, cpu: nat)

  function Pass(es: seq<Entry>, ps: map<int, Counters>): Progress {
    var done := Collect(es, ps);
    Progress(done, After(es, ps), ColumnSum(Minor, done), ColumnSum(Major, done), ColumnSum(Cpu, done))
  }

  lemma ColumnSnoc(col: Column, done: seq<Entry>, e: Entry)
    ensures ColumnSum(col, done + [e]) == ColumnSum(col, done) + Get(col, e.last)
  {
  }

  lemma CollectSnoc(es: seq<Entry>, ps: map<int, Counters>, k: nat)
    requires k < |es|
    ensures Collect(es[..k + 1], ps) == Collect(es[..k], ps) + [ReadEntry(es[k], After(es[..k], ps))]
    ensures After(es[..k + 1], ps) == Zeroed(es[k].pid, After(es[..k], ps))
  {
    assert es[..k + 1][..k] == es[..k];
  }

  /** One more entry of the pass. */
  lemma PassSnoc(es: seq<Entry>, ps: map<int, Counters>, k: nat)
    requires k < |es|
    ensures var g := Pass(es[..k], ps);
      var e := ReadEntry(es[k], g.left);
      Pass(es[..k + 1], ps) == Progress(g.done + [e], Zeroed(es[k].pid, g.left),
        g.minor + Get(Minor, e.last), g.major + Get(Major, e.last), g.cpu + Get(Cpu, e.last))
  {
    var g := Pass(es[..k], ps);
    var e := ReadEntry(es[k], g.left);
    CollectSnoc(es, ps, k);
    ColumnSnoc(Minor, g.done, e);
    ColumnSnoc(Major, g.done, e);
    ColumnSnoc(Cpu, g.done, e);
  }

  /** Four words spliced in are the row that the state machine writes. */
  lemma RowIsSpliced(v: seq<int>, offset: nat, r: Row)
    requires Fits(offset, |v|)
    ensures var w := v[..offset] + Words(r) + v[offset + 4..];
      WriteRow(v, offset, r) == if offset + 4 >= ELEMENTS then w else w[offset + 4 := SENTINEL]
  {
  }

  /** A pass over the list followed by an appended row is the work step. */
  lemma Appended(p: Prof, y: Prof, z: Prof, r: Row, now: nat)
    requires !p.full && Fits(p.offset, |p.vm|)
    requires y == p.(head := Collect(p.head, p.procs), procs := After(p.head, p.procs))
    requires r == SampleOf(y.head, now)
    requires z == y.(vm := WriteRow(y.vm, y.offset, r), offset := y.offset + 4, full := y.offset + 4 >= ELEMENTS, queued := true)
    ensures z == WorkStep(p, now)
  {
  }

  /** What the work item does does not depend on whether it is still queued. */
  lemma WorkIgnoresQueue(p: Prof, now: nat)
    ensures p.full || Fits(p.offset, |p.vm|) ==> WorkStep(p.(queued := false), now) == WorkStep(p, now)
    ensures p.full ==> WorkStep(p, now) == p.(queued := false)
  {
  }

  class Module {
    const vm: array<int>
    var offset: nat
    var full: bool
    var head: seq<TaskStruct>
    var queued: bool
    var procs: map<int, Counters>

    ghost predicate Valid()
      reads this
    {
      Distinct(head)
    }

    ghost function View(): Prof
      reads this, vm, head
    {
      Prof(vm[..], offset, full, Views(head), queued, procs, false)
    }

    constructor (vm: array<int>, procs: map<int, Counters>)
      ensures Valid() && View() == Init(vm[..], procs)
    {
      this.vm, this.procs := vm, procs;
      offset, full, head, queued := 0, false, [], false;
    }

    /** Copy the counters of a living process out and zero them; returns -1 if there is no such process. */
    method GetCpuUse(t: TaskStruct) returns (ret: int)
      modifies t, this`procs
      ensures t.View() == ReadEntry(old(t.View()), old(procs)) && procs == Zeroed(t.pid, old(procs))
      ensures ret == if t.pid in old(procs) then 0 else -1
      ensures t.pid in old(procs) ==>
        var c := old(procs)[t.pid];
        && t.usage.minor == c.minor && t.usage.major == c.major && t.usage.utime == c.utime && t.usage.stime == c.stime
        && t.pid in procs && procs[t.pid].minor == procs[t.pid].major == procs[t.pid].utime == procs[t.pid].stime == 0
      ensures t.pid !in old(procs) ==> t.usage == old(t.usage) && procs == old(procs)
    {
      ret := -1;
      if t.pid in procs {
        t.usage := procs[t.pid];
        procs := procs[t.pid := NONE];
        ret := 0;
      }
    }

    /** The index of the first entry with the given pid, or -1. */
    method GetByPid(pid: int) returns (i: int)
      ensures i == Find(Views(head), pid)
    {
      i := 0;
      while i < |head|
        invariant 0 <= i <= |head|
        invariant forall j :: 0 <= j < i ==> Views(head)[j].pid != pid
      {
        if head[i].pid == pid {
          assert Views(head)[i].pid == pid;
          return;
        }
        i := i + 1;
      }
      i := -1;
    }

    method RegEntry(pid: int, junk: Counters) returns (ret: int)
      requires Valid()
      modifies this
      ensures Valid() && View() == RegisterStep(old(View()), pid, junk)
      ensures ret == if pid in old(procs) then 0 else 1
    {
      var t := new TaskStruct(pid, junk);
      if pid !in procs {
        return 1;
      }
      if head == [] {
        queued := true;
      }
      head := head + [t];
      assert Views(head) == old(Views(head)) + [t.View()];
      ret := 0;
    }

    method UnregEntry(pid: int)
      requires Valid()
      modifies this
      ensures Valid() && View() == UnregisterStep(old(View()), pid)
    {
      var i := GetByPid(pid);
      if i == -1 {
        return;
      }
      DistinctWithout(head, i);
      head := head[..i] + head[i + 1..];
      assert Views(head) == Without(old(Views(head)), i);
      if head == [] {
        offset := 0;
        queued := false;
      }
    }

    /** Read every entry in turn and accumulate the three columns. */
    method Accumulate() returns (minor: nat, major: nat, cpu: nat)
      requires Valid()
      modifies head, this`procs
      ensures Views(head) == Collect(old(Views(head)), old(procs)) && procs == After(old(Views(head)), old(procs))
      ensures minor == ColumnSum(Minor, Views(head)) && major == ColumnSum(Major, Views(head))
      ensures cpu == ColumnSum(Cpu, Views(head))
    {
      ghost var es, ps := Views(head), procs;
      minor, major, cpu := ReadAll(es, ps);
      assert es[..|head|] == es;
      assert Views(head) == Collect(es, ps);
    }

    method ReadAll(ghost es: seq<Entry>, ghost ps: map<int, Counters>) returns (minor: nat, major: nat, cpu: nat)
      requires Valid() && es == Views(head) && ps == procs
      modifies head, this`procs
      ensures Midway(es, ps, |head|, minor, major, cpu)
    {
      minor, major, cpu := 0, 0, 0;
      for k := 0 to |head|
        invariant Midway(es, ps, k, minor, major, cpu)
      {
        minor, major, cpu := ReadNext(k, minor, major, cpu, es, ps);
      }
    }

    /** The pass has read the first `k` entries; the others are as they were. */
    ghost predicate Midway(es: seq<Entry>, ps: map<int, Counters>, k: nat, minor: nat, major: nat, cpu: nat)
      reads this, head
    {
      && k <= |head| == |es|
      && Pass(es[..k], ps) == Progress(Collect(es[..k], ps), procs, minor, major, cpu)
      && forall i :: 0 <= i < |head| ==> head[i].View() == if i < k then Collect(es[..k], ps)[i] else es[i]
    }

    method ReadNext(k: nat, minor: nat, major: nat, cpu: nat, ghost es: seq<Entry>, ghost ps: map<int, Counters>)
      returns (minor': nat, major': nat, cpu': nat)
      requires Valid() && k < |head| && Midway(es, ps, k, minor, major, cpu)
      modifies head[k], this`procs
      ensures Midway(es, ps, k + 1, minor', major', cpu')
    {
      PassSnoc(es, ps, k);
      minor', major', cpu' := AddIn(head[k], minor, major, cpu);
    }

    /** Read one entry and add what it then holds to the sums. */
    method AddIn(t: TaskStruct, minor: nat, major: nat, cpu: nat) returns (minor': nat, major': nat, cpu': nat)
      modifies t, this`procs
      ensures t.View() == ReadEntry(old(t.View()), old(procs)) && procs == Zeroed(t.pid, old(procs))
      ensures minor' == minor + Get(Minor, t.View().last) && major' == major + Get(Major, t.View().last)
      ensures cpu' == cpu + Get(Cpu, t.View().last)
    {
      var ret := GetCpuUse(t);
      minor' := minor + t.usage.minor;
      major' := major + t.usage.major;
      cpu' := cpu + (t.usage.stime + t.usage.utime);
    }

    /** Write a sample at the offset, word by word. */
    method WriteSample(tmps: seq<int>)
      requires |tmps| == 4 && offset + 4 <= vm.Length
      modifies vm
      ensures vm[..] == old(vm[..])[..offset] + tmps + old(vm[..])[offset + 4..]
    {
      for index := 0 to 4
        invariant forall j :: 0 <= j < vm.Length ==>
          vm[j] == if offset <= j < offset + index then tmps[j - offset] else old(vm[j])
      {
        vm[offset + index] := tmps[index];
      }
    }

    /** Append a row, mark the buffer full or put the sentinel behind it, and queue the work again. */
    method Append(r: Row)
      requires Fits(offset, vm.Length)
      modifies this`offset, this`full, this`queued, vm
      ensures View() == old(View()).(vm := WriteRow(old(vm[..]), old(offset), r), offset := old(offset) + 4,
                                     full := old(full) || old(offset) + 4 >= ELEMENTS, queued := true)
    {
      RowIsSpliced(vm[..], offset, r);
      WriteSample(Words(r));
      Advance();
      queued := true;
    }

    /** Move the offset on; mark the buffer full or put the sentinel there. */
    method Advance()
      requires offset + 4 >= ELEMENTS || offset + 4 < vm.Length
      modifies this`offset, this`full, vm
      ensures offset == old(offset) + 4
      ensures full == (old(full) || offset >= ELEMENTS)
      ensures vm[..] == if offset >= ELEMENTS then old(vm[..]) else old(vm[..])[offset := SENTINEL]
    {
      offset := offset + 4;
      if offset >= ELEMENTS {
        full := true;
      } else {
        vm[offset] := SENTINEL;
      }
    }

    /** A work item that starts to run is no longer queued. */
    method Dequeue()
      modifies this`queued
      ensures View() == old(View()).(queued := false)
    {
      queued := false;
    }

    /** The work item, taken off the queue to run at time `jiffies`; what it writes lies within the buffer. */
    method WorkqueueCallback(jiffies: nat)
      requires Valid() && queued && (full || Fits(offset, vm.Length))
      modifies this`offset, this`full, this`queued, this`procs, vm, head
      ensures Valid() && View() == WorkStep(old(View()), jiffies)
      ensures !old(full) ==> offset == old(offset) + 4 && vm[old(offset)] == jiffies
    {
      ghost var p := View();
      Dequeue();
      WorkIgnoresQueue(p, jiffies);
      if full {
        return;
      }
      TakeSample(jiffies);
    }

    method TakeSample(jiffies: nat)
      requires Valid() && !full && Fits(offset, vm.Length)
      modifies this`offset, this`full, this`queued, this`procs, vm, head
      ensures Valid() && View() == WorkStep(old(View()), jiffies)
      ensures offset == old(offset) + 4 && vm[old(offset)] == jiffies
    {
      var minor, major, cpu := Accumulate();
      var r := Row(jiffies, minor, major, cpu);
      ghost var y := View();
      RowIsTimed(vm[..], offset, r);
      Append(r);
      Appended(old(View()), y, View(), r, jiffies);
    }
  }
}
