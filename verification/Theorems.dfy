/** What the runs of the concurrent list guarantee, stated on the machine itself. */
module Theorems {
  import opened ListSpec
  import opened Pipeline
  import opened Machine
  import opened Chains
  import opened Invariant
  import opened Abstraction
  import opened Refinement

  /** The state a run reaches. */
  function Reached(schedule: seq<Event>): Config
    requires Execute(INITIAL, schedule).Ok?
  {
    Execute(INITIAL, schedule).c
  }

  /** Safe reclamation: under no schedule is freed memory touched, anything freed twice, an
      unwritten byte read, a lock released that is not held, or a mutex destroyed in use. */
  lemma NoRunFaults(schedule: seq<Event>)
    ensures Execute(INITIAL, schedule).Ok?
  {
    var _ := RunSound(schedule);
  }

  /** Serialisability: a finished call has the result it gets when all calls that locked the
      header run one at a time, in the order in which they locked it. */
  lemma Serialisable(schedule: seq<Event>, t: nat)
    requires Execute(INITIAL, schedule).Ok? && t < |Reached(schedule).threads|
    requires Reached(schedule).threads[t].pc.Done?
    ensures var c := Reached(schedule);
            t in Serial(c.entered).results && c.threads[t].pc.r == Serial(c.entered).results[t]
  {
    var ch := RunSound(schedule);
    var c := Reached(schedule);
    assert ThreadOk(c, ch, t, c.threads[t]);
    SettledResult(c, ch, t);
  }

  /** The same for a call that has already committed to its result. */
  lemma SettledResult(c: Config, ch: seq<Addr>, t: nat)
    requires Sound(c, ch) && t < |c.threads|
    requires (El(c.threads[t].pc) != NULL ==> El(c.threads[t].pc) in c.cells) && Promise(c, c.threads[t]).Some?
    ensures t in Serial(c.entered).results && Promise(c, c.threads[t]).value == Serial(c.entered).results[t]
  {
    var p := Abs(c, ch);
    assert t in p.done && p.done[t] == Promise(c, c.threads[t]).value;
    NoToken(c, ch, t);
    DrainOwners(p.stations, t);
  }

  /** A thread committed to its result has no token in the pipeline. */
  lemma NoToken(c: Config, ch: seq<Addr>, t: nat)
    requires Inv(c, ch) && t < |c.threads|
    requires (El(c.threads[t].pc) != NULL ==> El(c.threads[t].pc) in c.cells) && Promise(c, c.threads[t]).Some?
    ensures forall j :: 0 <= j < |ch| && View(c, ch)[j].tok.Some? ==> View(c, ch)[j].tok.value.tid != t
  {
    assert ThreadOk(c, ch, t, c.threads[t]);
    assert TokenPlace(c.threads[t]) == NULL;
    forall j | 0 <= j < |ch| && View(c, ch)[j].tok.Some? ensures View(c, ch)[j].tok.value.tid != t {
      assert ch[j] in ch;
      assert TokenPlace(c.threads[View(c, ch)[j].tok.value.tid]) == ch[j];
    }
  }

  /** From `a` on, the nextEntry pointers spell out exactly these elements, each complete. */
  ghost predicate Spells(c: Config, a: Addr, l: seq<Elem>)
    decreases |l|
  {
    if l == [] then a == NULL else
      && a in c.cells && c.cells[a].named && Full(c.cells[a])
      && Elem(c.cells[a].id, c.cells[a].payload.data) == l[0]
      && Spells(c, c.cells[a].next, l[1..])
  }

  ghost predicate Quiescent(c: Config) {
    forall u :: 0 <= u < |c.threads| ==> c.threads[u].pc.Done?
  }

  /** When every call has returned, the list in memory is the one the serial history leaves,
      no other node is allocated, and every lock is free. */
  lemma FinalList(schedule: seq<Event>)
    requires Execute(INITIAL, schedule).Ok? && Quiescent(Reached(schedule))
    ensures var c := Reached(schedule);
            && LIST in c.cells && Spells(c, c.cells[LIST].next, Serial(c.entered).list)
            && |c.cells| == 1 + |Serial(c.entered).list|
            && forall a :: a in c.cells ==> c.cells[a].usage.Open? && (a != LIST ==> c.cells[a].content.Open?)
  {
    var ch := RunSound(schedule);
    var c := Reached(schedule);
    QuietLocks(c, ch);
    QuietDrain(c, ch);
    assert ch[0] in ch;
    SpellsFrom(c, ch, 0);
    QuietCells(c, ch);
  }

  /** removeAllElements empties the list: if it is the last to enter, then at rest the header is
      all there is. */
  lemma RemoveAllEmpties(schedule: seq<Event>)
    requires Execute(INITIAL, schedule).Ok? && Quiescent(Reached(schedule))
    requires var log := Reached(schedule).entered; log != [] && log[|log| - 1].op.RemoveAll?
    ensures var c := Reached(schedule); c.cells.Keys == {LIST} && c.cells[LIST].next == NULL
  {
    FinalList(schedule);
    var c := Reached(schedule);
    assert |Serial(c.entered).list| == 0;
    OnlyKey(c.cells.Keys, LIST);
  }

  lemma OnlyKey(s: set<nat>, a: nat)
    requires a in s && |s| == 1
    ensures s == {a}
  {
    assert |s - {a}| == 0;
  }

  lemma QuietLocks(c: Config, ch: seq<Addr>)
    requires Inv(c, ch) && Quiescent(c)
    ensures forall a :: a in c.cells ==> a in ch && c.cells[a].usage.Open? && (a != LIST ==> c.cells[a].content.Open?)
  {
    forall u | 0 <= u < |c.threads|
      ensures Private(c.threads[u]) == NULL && !HoldsContent(c.threads[u].pc)
      ensures forall a :: !HoldsUsage(c.threads[u].pc, a)
    {
      DoneHoldsNothing(c.threads[u]);
    }
    forall a | a in c.cells ensures a in ch && c.cells[a].usage.Open? && (a != LIST ==> c.cells[a].content.Open?) {
      assert LockOk(c, a) && Owned(c, ch, a);
      if a != LIST { assert NodeOk(c.cells[a]); }
    }
  }

  lemma DoneHoldsNothing(th: Thread)
    requires th.pc.Done?
    ensures Private(th) == NULL && !HoldsContent(th.pc) && forall a :: !HoldsUsage(th.pc, a)
  {
  }

  lemma {:induction false} DrainIdle(s: seq<Station>)
    requires forall i :: 0 <= i < |s| ==> s[i].tok.None?
    ensures |Drain(s).list| == |s| && forall i :: 0 <= i < |s| ==> Drain(s).list[i] == s[i].elem
  {
    if s != [] { DrainIdle(s[1..]); }
  }

  lemma QuietDrain(c: Config, ch: seq<Addr>)
    requires Sound(c, ch) && Quiescent(c)
    ensures |Serial(c.entered).list| == |ch| - 1
    ensures forall i :: 1 <= i < |ch| ==>
              ch[i] in c.cells && Full(c.cells[ch[i]]) && c.cells[ch[i]].named
              && Serial(c.entered).list[i - 1] == Elem(c.cells[ch[i]].id, c.cells[ch[i]].payload.data)
  {
    QuietLocks(c, ch);
    var s := View(c, ch);
    forall i | 0 <= i < |ch| ensures s[i].tok.None? { assert ch[i] in ch; }
    DrainIdle(s);
    forall i | 1 <= i < |ch|
      ensures ch[i] in c.cells && Full(c.cells[ch[i]]) && c.cells[ch[i]].named
              && Serial(c.entered).list[i - 1] == Elem(c.cells[ch[i]].id, c.cells[ch[i]].payload.data)
    {
      assert ch[i] in ch && ch[i] != ch[0];
      assert NodeOk(c.cells[ch[i]]);
      assert Serial(c.entered).list[i - 1] == Drain(s).list[i] == s[i].elem;
    }
  }

  lemma {:induction false} SpellsFrom(c: Config, ch: seq<Addr>, i: nat)
    requires Sound(c, ch) && Quiescent(c) && i < |ch| && |Serial(c.entered).list| == |ch| - 1
    ensures ch[i] in c.cells && Spells(c, c.cells[ch[i]].next, Serial(c.entered).list[i..])
    decreases |ch| - i
  {
    QuietDrain(c, ch);
    QuietLocks(c, ch);
    var l := Serial(c.entered).list;
    assert ch[i] in ch;
    assert LinkOk(c, ch, ch[i]);
    IndexAt(ch, i);
    if i + 1 < |ch| {
      SpellsFrom(c, ch, i + 1);
      assert l[i..][1..] == l[i + 1..];
      assert ch[i + 1] in ch;
    }
  }

  function Elements(ch: seq<nat>): set<nat> {
    set a | a in ch
  }

  lemma {:induction false} DistinctSize(ch: seq<nat>)
    requires Distinct(ch)
    ensures |Elements(ch)| == |ch|
  {
    if ch != [] {
      var init, last := ch[..|ch| - 1], ch[|ch| - 1];
      DistinctSize(init);
      assert ch == init + [last];
      assert last !in init;
      assert Elements(ch) == Elements(init) + {last};
    }
  }

  lemma QuietCells(c: Config, ch: seq<Addr>)
    requires Inv(c, ch) && Quiescent(c)
    ensures |c.cells| == |ch|
  {
    QuietLocks(c, ch);
    DistinctSize(ch);
    assert c.cells.Keys == Elements(ch);
    assert |c.cells| == |c.cells.Keys|;
  }

  // ----- the shape of the heap in every reachable state

  /** Thread `u` owns node `a` privately: not yet published, or being taken apart. */
  ghost predicate OwnedBy(c: Config, u: nat, a: Addr) {
    u < |c.threads| && a != NULL && Private(c.threads[u]) == a
  }

  /** A lock is recorded as thread `u`'s exactly at the program points that hold it. */
  ghost predicate LocksMatch(c: Config, a: Addr, u: nat)
    requires a in c.cells && u < |c.threads|
  {
    && (c.cells[a].usage == Held(u) <==> HoldsUsage(c.threads[u].pc, a))
    && (c.cells[a].content == Held(u) <==> HoldsContent(c.threads[u].pc) && El(c.threads[u].pc) == a)
  }

  /** Conservation: in every reachable state the chain from the header is finite, free of cycles
      and null-terminated, and every allocated node is in it or privately owned by exactly one
      thread, never both; locks are recorded as held exactly by the threads that hold them. */
  lemma ShapeAlways(schedule: seq<Event>) returns (ch: seq<Addr>)
    requires Execute(INITIAL, schedule).Ok?
    ensures var c := Reached(schedule);
            && ch != [] && ch[0] == LIST && Distinct(ch)
            && (forall i :: 0 <= i < |ch| ==> ch[i] in c.cells)
            && (forall i :: 0 <= i < |ch| ==>
                  c.cells[ch[i]].next == (if i + 1 < |ch| then ch[i + 1] else NULL) || Severed(c, ch[i]))
    ensures var c := Reached(schedule);
            && (forall a :: a in c.cells ==> (a in ch <==> !exists u: nat :: OwnedBy(c, u, a)))
            && (forall a, u: nat, v: nat :: OwnedBy(c, u, a) && OwnedBy(c, v, a) ==> u == v)
    ensures var c := Reached(schedule);
            forall a, u: nat :: a in c.cells && u < |c.threads| ==> LocksMatch(c, a, u)
  {
    ch := RunSound(schedule);
    var c := Reached(schedule);
    forall i | 0 <= i < |ch|
      ensures ch[i] in c.cells
      ensures c.cells[ch[i]].next == (if i + 1 < |ch| then ch[i + 1] else NULL) || Severed(c, ch[i])
    {
      assert ch[i] in ch;
      assert LinkOk(c, ch, ch[i]);
      IndexAt(ch, i);
    }
    ShapeOwners(c, ch);
    ShapeLocks(c, ch);
  }

  lemma ShapeOwners(c: Config, ch: seq<Addr>)
    requires Inv(c, ch)
    ensures forall a :: a in c.cells ==> (a in ch <==> !exists u: nat :: OwnedBy(c, u, a))
    ensures forall a, u: nat, v: nat :: OwnedBy(c, u, a) && OwnedBy(c, v, a) ==> u == v
  {
    forall a | a in c.cells ensures a in ch <==> !exists u: nat :: OwnedBy(c, u, a) {
      assert Owned(c, ch, a);
      if a in ch {
        forall u: nat ensures !OwnedBy(c, u, a) {
          if u < |c.threads| { assert ThreadOk(c, ch, u, c.threads[u]); }
        }
      } else {
        var u :| 0 <= u < |c.threads| && Private(c.threads[u]) == a;
        assert OwnedBy(c, u, a);
      }
    }
    forall a, u: nat, v: nat | OwnedBy(c, u, a) && OwnedBy(c, v, a) ensures u == v {
      assert u < v || v < u || u == v;
    }
  }

  lemma ShapeLocks(c: Config, ch: seq<Addr>)
    requires Inv(c, ch)
    ensures forall a, u: nat :: a in c.cells && u < |c.threads| ==> LocksMatch(c, a, u)
  {
    forall a, u: nat | a in c.cells && u < |c.threads| ensures LocksMatch(c, a, u) {
      assert LockOk(c, a);
      assert ThreadOk(c, ch, u, c.threads[u]);
    }
  }

  /** Only an UPDATE ever leaves a payload incomplete, and only while it owns the content lock. */
  lemma PayloadFull(c: Config, ch: seq<Addr>, a: Addr)
    requires Inv(c, ch) && a in ch && a != LIST
    ensures a in c.cells
    ensures Updating(c, a) || (Full(c.cells[a]) && AbsData(c, a) == c.cells[a].payload.data)
  {
    assert LockOk(c, a) && NodeOk(c.cells[a]);
    var x := c.cells[a];
    if x.content.Held? && !Updating(c, a) {
      assert ThreadOk(c, ch, x.content.tid, c.threads[x.content.tid]);
    }
  }

  /** An UPDATE owns the element's content lock. */
  ghost predicate Updating(c: Config, a: Addr)
    requires a in c.cells
  {
    var l := c.cells[a].content;
    l.Held? && l.tid < |c.threads| && c.threads[l.tid].op.Update?
  }

  // ----- the serial order respects real time

  lemma {:induction false} RunSplit(s1: seq<Event>, s2: seq<Event>)
    requires Execute(INITIAL, s1 + s2).Ok?
    ensures Execute(INITIAL, s1).Ok?
    ensures var c, d := Reached(s1), Reached(s1 + s2);
            && |c.threads| <= |d.threads| && c.entered <= d.entered
    decreases |s2|
  {
    if s2 == [] {
      assert s1 + s2 == s1;
    } else {
      var s := s1 + s2;
      assert s[..|s| - 1] == s1 + s2[..|s2| - 1];
      RunSplit(s1, s2[..|s2| - 1]);
      var c := Reached(s[..|s| - 1]);
      match s[|s| - 1]
      case Call(_) =>
      case Run(t, a) =>
        if t < |c.threads| && Step(c, t, a).Ok? { StepProgram(c, t, a); }
    }
  }

  lemma RunRecorded(schedule: seq<Event>)
    ensures Execute(INITIAL, schedule).Ok? && Recorded(Reached(schedule))
  {
    var _ := RunSound(schedule);
  }

  /** Linearisability: the place of a call in the serial order is fixed between its start and
      its return, so a call that returned before another started comes before it. */
  lemma RealTimeOrder(s1: seq<Event>, s2: seq<Event>, t: nat, u: nat)
    requires Execute(INITIAL, s1 + s2).Ok? && Execute(INITIAL, s1).Ok?
    requires t < |Reached(s1).threads| && Reached(s1).threads[t].pc.Done?
    requires |Reached(s1).threads| <= u < |Reached(s1 + s2).threads| && HasEntered(Reached(s1 + s2).threads[u])
    ensures exists i, j :: 0 <= i < j < |Reached(s1 + s2).entered|
              && Reached(s1 + s2).entered[i].tid == t && Reached(s1 + s2).entered[j].tid == u
  {
    RunRecorded(s1);
    RunRecorded(s1 + s2);
    RunSplit(s1, s2);
    var c, d := Reached(s1), Reached(s1 + s2);
    assert Listed(c, t) && Listed(d, u);
    var i :| 0 <= i < |c.entered| && c.entered[i].tid == t;
    var j :| 0 <= j < |d.entered| && d.entered[j].tid == u;
    assert d.entered[i] == c.entered[i];
    forall k | 0 <= k < |c.entered| ensures d.entered[k].tid != u {
      assert d.entered[k] == c.entered[k];
    }
  }
}
