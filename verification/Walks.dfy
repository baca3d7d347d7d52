/** How far one call walks: it meets at most the elements that are there when the run starts
    and one more for each call that locked the header before it. */
module Walks {
  import opened ListSpec
  import opened Machine
  import opened Chains
  import opened Invariant
  import opened Simulation
  import opened Refinement
  import opened Theorems
  import opened Order
  import opened Termination

  /** The event is a step in which call `t` follows a pointer to a next element. */
  predicate Finds(c: Config, e: Event, t: nat) {
    && e.Run? && e.t == t < |c.threads| && c.threads[t].pc.Look? && Step(c, t, e.a).Ok?
    && c.threads[t].pc.at in c.cells && c.cells[c.threads[t].pc.at].next != NULL
  }

  /** How many elements call `t` walks to in the course of `more`. */
  function Visits(c: Config, t: nat, more: seq<Event>): nat {
    if more == [] then 0 else
      var init := more[..|more| - 1];
      Visits(c, t, init) + match Execute(c, init)
                           case Ok(d) => if Finds(d, more[|more| - 1], t) then 1 else 0
                           case _ => 0
  }

  /** Of the calls in `log`, those that may still add an element. */
  function StillAppending(ths: seq<Thread>, log: seq<Entry>): nat {
    if log == [] then 0
    else (if log[0].tid < |ths| then Pend(ths[log[0].tid]) else 0) + StillAppending(ths, log[1..])
  }

  /** The calls that locked the header before `t` (all, if `t` has not). */
  function Earlier(c: Config, t: nat): seq<Entry> {
    c.entered[..Rank(c.entered, t)]
  }

  /** The longest the chain can be when `t` walks it. */
  function Horizon(c: Config, ch: seq<Addr>, t: nat): nat {
    |ch| + StillAppending(c.threads, Earlier(c, t))
  }

  predicate Walking(pc: Pc) { pc.Look? || Adjacent(pc) || Severs(pc) }

  function StillAhead(ch: seq<Addr>, n: int, pc: Pc): int {
    if Walking(pc) then n - 1 - IndexOf(ch, At(pc)) - (if Adjacent(pc) then 1 else 0) else 0
  }

  /** How many elements `t` can still walk to. */
  function Todo(c: Config, ch: seq<Addr>, t: nat): int {
    if t < |c.threads| && HasEntered(c.threads[t]) then StillAhead(ch, Horizon(c, ch, t), c.threads[t].pc)
    else Horizon(c, ch, t) - 1
  }

  // ----- who may still append

  lemma {:induction false} AppendingFrame(ths: seq<Thread>, ths': seq<Thread>, v: nat, log: seq<Entry>)
    requires v < |ths| <= |ths'| && forall u :: 0 <= u < |ths| && u != v ==> ths'[u] == ths[u]
    requires forall i :: 0 <= i < |log| ==> log[i].tid < |ths| && log[i].tid != v
    ensures StillAppending(ths', log) == StillAppending(ths, log)
  {
    if log != [] { AppendingFrame(ths, ths', v, log[1..]); }
  }

  lemma {:induction false} AppendingUpdate(ths: seq<Thread>, ths': seq<Thread>, v: nat, log: seq<Entry>)
    requires v < |ths| == |ths'| && forall u :: 0 <= u < |ths| && u != v ==> ths'[u] == ths[u]
    requires forall i :: 0 <= i < |log| ==> log[i].tid < |ths|
    requires forall i, j :: 0 <= i < j < |log| ==> log[i].tid != log[j].tid
    requires Rank(log, v) < |log|
    ensures StillAppending(ths', log) + Pend(ths[v]) == StillAppending(ths, log) + Pend(ths'[v])
  {
    if log[0].tid == v { AppendingFrame(ths, ths', v, log[1..]); } else { AppendingUpdate(ths, ths', v, log[1..]); }
  }

  lemma {:induction false} AppendingSnoc(ths: seq<Thread>, log: seq<Entry>, e: Entry)
    requires e.tid < |ths|
    ensures StillAppending(ths, log + [e]) == StillAppending(ths, log) + Pend(ths[e.tid])
  {
    if log == [] {
      assert ([] + [e])[1..] == [];
    } else {
      AppendingSnoc(ths, log[1..], e);
      assert (log + [e])[1..] == log[1..] + [e];
    }
  }

  lemma PendStep(c: Config, v: nat, a: Addr)
    requires v < |c.threads| && Step(c, v, a).Ok?
    ensures v < |Step(c, v, a).c.threads| && Pend(Step(c, v, a).c.threads[v]) <= Pend(c.threads[v])
    ensures c.threads[v].pc.Link? && Appends(c.threads[v].op) ==>
              Pend(Step(c, v, a).c.threads[v]) + 1 == Pend(c.threads[v])
  {
    if UsesElement(c.threads[v].pc) || c.threads[v].pc.Drop? { PendUse(c, v, a); } else { PendWalk(c, v, a); }
  }

  /** What the stepping call changes among the calls recorded in `log`. */
  lemma AppendingStep(c: Config, v: nat, d: Config, log: seq<Entry>)
    requires OneThread(c, v, d) && Pend(d.threads[v]) <= Pend(c.threads[v])
    requires forall i :: 0 <= i < |log| ==> log[i].tid < |c.threads|
    requires forall i, j :: 0 <= i < j < |log| ==> log[i].tid != log[j].tid
    ensures StillAppending(d.threads, log) <= StillAppending(c.threads, log)
    ensures Rank(log, v) < |log| ==>
              StillAppending(d.threads, log) + Pend(c.threads[v]) <= StillAppending(c.threads, log) + Pend(d.threads[v])
  {
    if Rank(log, v) < |log| { AppendingUpdate(c.threads, d.threads, v, log); }
    else { AppendingFrame(c.threads, d.threads, v, log); }
  }

  /** The calls before `t` after the step: the same, and one more if it is entering before `t`. */
  lemma EarlierGrows(c: Config, v: nat, d: Config, t: nat)
    requires Recorded(c) && OneThread(c, v, d)
    ensures Earlier(d, t) == Earlier(c, t)
            || (Earlier(d, t) == Earlier(c, t) + [Entry(v, c.threads[v].op)] && Rank(c.entered, v) == |c.entered|)
  {
    var log, e := c.entered, Entry(v, c.threads[v].op);
    RankSnoc(log, e, t);
    EnteredRank(c, v);
    assert log + [] == log;
    if Rank(log, t) == |log| && c.threads[v].pc.LockList? {
      if v != t { RankAbsent(log + [e], t); }
      assert log[..|log|] == log && (log + [e])[..|log|] == log && (log + [e])[..|log| + 1] == log + [e];
    }
  }

  /** A step changes what is ahead of `t` only by what it does to the stepping call's own share. */
  lemma EarlierStep(c: Config, v: nat, d: Config, t: nat)
    requires Recorded(c) && OneThread(c, v, d) && Pend(d.threads[v]) <= Pend(c.threads[v])
    ensures StillAppending(d.threads, Earlier(d, t)) - Rank(d.entered, t) <=
            StillAppending(c.threads, Earlier(c, t)) - Rank(c.entered, t)
    ensures Rank(c.entered, v) < Rank(c.entered, t) ==>
              StillAppending(d.threads, Earlier(d, t)) - Rank(d.entered, t) + Pend(c.threads[v]) <=
              StillAppending(c.threads, Earlier(c, t)) - Rank(c.entered, t) + Pend(d.threads[v])
  {
    var before := Earlier(c, t);
    assert |before| == Rank(c.entered, t) && |Earlier(d, t)| == Rank(d.entered, t);
    RankTake(c.entered, |before|, v);
    AppendingStep(c, v, d, before);
    EarlierGrows(c, v, d, t);
    if Earlier(d, t) != before { AppendingSnoc(d.threads, before, Entry(v, c.threads[v].op)); }
  }

  lemma RankAbsent(log: seq<Entry>, t: nat)
    requires forall i :: 0 <= i < |log| ==> log[i].tid != t
    ensures Rank(log, t) == |log|
  {
  }

  lemma RankTake(log: seq<Entry>, r: nat, v: nat)
    requires r <= |log|
    ensures Rank(log, v) < r ==> Rank(log[..r], v) < r
    ensures Rank(log, v) >= r ==> forall i :: 0 <= i < r ==> log[..r][i].tid != v
  {
    var i := Rank(log, v);
    if i < r { assert log[..r][i].tid == v; }
  }

  /** The horizon of `t` grows only by calls that lock the header before it. */
  lemma HorizonStep(c: Config, ch: seq<Addr>, v: nat, a: Addr, t: nat)
    requires Inv(c, ch) && Recorded(c) && v < |c.threads| && Step(c, v, a).Ok?
    requires c.threads[v].pc.Link? ==> Rank(c.entered, v) < Rank(c.entered, t)
    ensures var d, ch' := Step(c, v, a).c, NextChain(c, ch, v);
            Horizon(d, ch', t) - Rank(d.entered, t) + (if c.threads[v].pc.LockContent? && Removes(c.threads[v].op) then 1 else 0)
            <= Horizon(c, ch, t) - Rank(c.entered, t)
  {
    StepProgram(c, v, a);
    PendStep(c, v, a);
    EarlierStep(c, v, Step(c, v, a).c, t);
    assert ThreadOk(c, ch, v, c.threads[v]);
    if c.threads[v].pc.LockContent? { SuccFacts(ch, At(c.threads[v].pc)); }
  }

  // ----- the walking call's own steps

  ghost predicate Nearer(c: Config, ch: seq<Addr>, t: nat, a: Addr, n: int) {
    && t < |c.threads| && Step(c, t, a).Ok? && t < |Step(c, t, a).c.threads|
    && var taken := if c.threads[t].pc.LockContent? && Removes(c.threads[t].op) then 1 else 0;
       StillAhead(NextChain(c, ch, t), n - taken, Step(c, t, a).c.threads[t].pc)
       + (if Finds(c, Run(t, a), t) then 1 else 0) <= StillAhead(ch, n, c.threads[t].pc)
  }

  lemma LookNearer(c: Config, ch: seq<Addr>, t: nat, a: Addr, n: int)
    requires LocalInv(c, ch, t) && Step(c, t, a).Ok? && n >= |ch| && c.threads[t].pc.Look?
    ensures Nearer(c, ch, t, a, n)
  {
    SuccFacts(ch, At(c.threads[t].pc));
  }

  lemma WalkNearer(c: Config, ch: seq<Addr>, t: nat, a: Addr, n: int)
    requires LocalInv(c, ch, t) && Step(c, t, a).Ok? && n >= |ch| && Adjacent(c.threads[t].pc) && !c.threads[t].pc.LockContent?
    ensures Nearer(c, ch, t, a, n)
  {
    if c.threads[t].pc.HandOver? { HandOverNearer(c, ch, t, a, n); } else { SuccFacts(ch, At(c.threads[t].pc)); }
  }

  lemma HandOverNearer(c: Config, ch: seq<Addr>, t: nat, a: Addr, n: int)
    requires LocalInv(c, ch, t) && Step(c, t, a).Ok? && n >= |ch| && c.threads[t].pc.HandOver?
    ensures Nearer(c, ch, t, a, n)
  {
    SuccFacts(ch, At(c.threads[t].pc));
  }

  lemma ContentNearer(c: Config, ch: seq<Addr>, t: nat, a: Addr, n: int)
    requires LocalInv(c, ch, t) && Step(c, t, a).Ok? && n >= |ch| && c.threads[t].pc.LockContent?
    ensures Nearer(c, ch, t, a, n)
  {
    AfterContentPoint(c, t, a);
    SuccFacts(ch, At(c.threads[t].pc));
    if Removes(c.threads[t].op) { IndexWithout(ch, IndexOf(ch, El(c.threads[t].pc))); }
  }

  lemma AfterContentPoint(c: Config, t: nat, a: Addr)
    requires t < |c.threads| && Step(c, t, a).Ok? && c.threads[t].pc.LockContent?
    ensures var pc, d := c.threads[t].pc, Step(c, t, a).c;
            && |d.threads| == |c.threads|
            && (if Removes(c.threads[t].op) then d.threads[t].pc == Drop(At(pc), El(pc), NULL, 0)
                else !Walking(d.threads[t].pc))
  {
  }

  lemma SeversNearer(c: Config, ch: seq<Addr>, t: nat, a: Addr, n: int)
    requires LocalInv(c, ch, t) && Step(c, t, a).Ok? && n >= |ch| && Severs(c.threads[t].pc)
    ensures Nearer(c, ch, t, a, n)
  {
  }

  lemma DoneWalking(c: Config, ch: seq<Addr>, t: nat, a: Addr, n: int)
    requires t < |c.threads| && Step(c, t, a).Ok? && HasEntered(c.threads[t]) && !Walking(c.threads[t].pc)
    ensures Nearer(c, ch, t, a, n)
  {
    StaysOff(c, t, a);
  }

  lemma StaysOff(c: Config, t: nat, a: Addr)
    requires t < |c.threads| && Step(c, t, a).Ok? && PastWalk(c.threads[t].pc)
    ensures t < |Step(c, t, a).c.threads| && PastWalk(Step(c, t, a).c.threads[t].pc)
  {
    if Reading(c.threads[t].pc) { StaysOffReading(c, t, a); }
    else if Writing(c.threads[t].pc) { StaysOffWriting(c, t, a); }
    else { StaysOffEnding(c, t, a); }
  }

  lemma StaysOffReading(c: Config, t: nat, a: Addr)
    requires t < |c.threads| && Step(c, t, a).Ok? && Reading(c.threads[t].pc)
    ensures t < |Step(c, t, a).c.threads| && PastWalk(Step(c, t, a).c.threads[t].pc)
  {
  }

  lemma StaysOffWriting(c: Config, t: nat, a: Addr)
    requires t < |c.threads| && Step(c, t, a).Ok? && Writing(c.threads[t].pc)
    ensures t < |Step(c, t, a).c.threads| && PastWalk(Step(c, t, a).c.threads[t].pc)
  {
  }

  lemma StaysOffEnding(c: Config, t: nat, a: Addr)
    requires t < |c.threads| && Step(c, t, a).Ok? && PastWalk(c.threads[t].pc)
    requires !Reading(c.threads[t].pc) && !Writing(c.threads[t].pc)
    ensures t < |Step(c, t, a).c.threads| && PastWalk(Step(c, t, a).c.threads[t].pc)
  {
  }

  lemma OwnNearer(c: Config, ch: seq<Addr>, t: nat, a: Addr, n: int)
    requires LocalInv(c, ch, t) && Step(c, t, a).Ok? && n >= |ch| && HasEntered(c.threads[t])
    ensures Nearer(c, ch, t, a, n)
  {
    var pc := c.threads[t].pc;
    if pc.Look? { LookNearer(c, ch, t, a, n); }
    else if pc.LockContent? { ContentNearer(c, ch, t, a, n); }
    else if Adjacent(pc) { WalkNearer(c, ch, t, a, n); }
    else if Severs(pc) { SeversNearer(c, ch, t, a, n); }
    else { DoneWalking(c, ch, t, a, n); }
  }

  /** Whoever links a new element in entered before every call that is still walking. */
  lemma LinkerIsEarlier(c: Config, ch: seq<Addr>, v: nat, t: nat)
    requires Inv(c, ch) && Recorded(c) && Ordered(c, ch) && v < |c.threads| && c.threads[v].pc.Link? && v != t
    requires t < |c.threads| && HasEntered(c.threads[t]) ==> Walking(c.threads[t].pc)
    ensures Rank(c.entered, v) < Rank(c.entered, t)
  {
    EnteredRank(c, v);
    if t < |c.threads| && HasEntered(c.threads[t]) {
      assert ThreadOk(c, ch, v, c.threads[v]) && ThreadOk(c, ch, t, c.threads[t]);
      LastIsEarlier(c, ch, v, t);
    } else {
      RankUnentered(c, t);
    }
  }

  lemma LastIsEarlier(c: Config, ch: seq<Addr>, v: nat, t: nat)
    requires Shape(c, ch) && Ordered(c, ch) && v < |c.threads| && t < |c.threads| && v != t
    requires Placed(c, ch, v, c.threads[v]) && Placed(c, ch, t, c.threads[t])
    requires At(c.threads[v].pc) != NULL && At(c.threads[t].pc) != NULL && Succ(ch, At(c.threads[v].pc)) == NULL
    ensures Rank(c.entered, v) < Rank(c.entered, t)
  {
    var x, y := At(c.threads[t].pc), At(c.threads[v].pc);
    SuccFacts(ch, y);
    IndexAt(ch, IndexOf(ch, x));
    assert InOrder(c, ch, x, y);
  }

  lemma RankUnentered(c: Config, t: nat)
    requires Recorded(c) && !(t < |c.threads| && HasEntered(c.threads[t]))
    ensures Rank(c.entered, t) == |c.entered|
  {
  }

  /** What a step can do to the number of elements still ahead of `t`. */
  ghost predicate Counts(c: Config, ch: seq<Addr>, e: Event, d: Config, ch': seq<Addr>, t: nat) {
    Todo(d, ch', t) + (if Finds(c, e, t) then 1 else 0) - Rank(d.entered, t) <= Todo(c, ch, t) - Rank(c.entered, t)
  }

  /** Another call's step leaves `t` where it is and at most brings the end nearer. */
  lemma OthersStep(c: Config, ch: seq<Addr>, v: nat, a: Addr, t: nat)
    requires Inv(c, ch) && Recorded(c) && Ordered(c, ch) && v < |c.threads| && Step(c, v, a).Ok? && v != t
    requires Respects(c, ch, Step(c, v, a).c, NextChain(c, ch, v), v)
    ensures Counts(c, ch, Run(v, a), Step(c, v, a).c, NextChain(c, ch, v), t)
  {
    StepProgram(c, v, a);
    var d, ch' := Step(c, v, a).c, NextChain(c, ch, v);
    if t < |c.threads| && HasEntered(c.threads[t]) {
      RankStays(c, v, d, t);
      if Walking(c.threads[t].pc) {
        if c.threads[v].pc.Link? { LinkerIsEarlier(c, ch, v, t); }
        HorizonStep(c, ch, v, a, t);
        StandsFirm(c, ch, v, a, t);
      }
    } else {
      if c.threads[v].pc.Link? { LinkerIsEarlier(c, ch, v, t); }
      HorizonStep(c, ch, v, a, t);
    }
  }

  lemma RankStays(c: Config, v: nat, d: Config, t: nat)
    requires Recorded(c) && OneThread(c, v, d) && t < |c.threads| && HasEntered(c.threads[t])
    ensures Rank(d.entered, t) == Rank(c.entered, t)
  {
    EnteredRank(c, t);
    RankPrefix(c.entered, d.entered, t);
  }

  lemma StandsFirm(c: Config, ch: seq<Addr>, v: nat, a: Addr, t: nat)
    requires Inv(c, ch) && v < |c.threads| && Step(c, v, a).Ok? && t < |c.threads| && t != v && Walking(c.threads[t].pc)
    requires Respects(c, ch, Step(c, v, a).c, NextChain(c, ch, v), v)
    ensures IndexOf(NextChain(c, ch, v), At(c.threads[t].pc)) >= IndexOf(ch, At(c.threads[t].pc))
              - (if c.threads[v].pc.LockContent? && Removes(c.threads[v].op) then 1 else 0)
  {
    assert ThreadOk(c, ch, t, c.threads[t]);
    NewLinkFree(c, ch, v, a);
    IndexShift(c, ch, v, At(c.threads[t].pc));
  }

  lemma OwnEarlier(c: Config, t: nat, d: Config)
    requires Recorded(c) && OneThread(c, t, d)
    ensures Rank(d.entered, t) == Rank(c.entered, t)
    ensures StillAppending(d.threads, Earlier(d, t)) == StillAppending(c.threads, Earlier(c, t))
  {
    var log, r := c.entered, Rank(c.entered, t);
    AppendingFrame(c.threads, d.threads, t, log[..r]);
    RankSnoc(log, Entry(t, c.threads[t].op), t);
    EnteredRank(c, t);
    assert log + [] == log;
    assert Earlier(d, t) == log[..r];
  }

  /** The call's own step. */
  lemma OwnStep(c: Config, ch: seq<Addr>, t: nat, a: Addr)
    requires Inv(c, ch) && Recorded(c) && t < |c.threads| && Step(c, t, a).Ok?
    ensures Counts(c, ch, Run(t, a), Step(c, t, a).c, NextChain(c, ch, t), t)
  {
    var d := Step(c, t, a).c;
    StepProgram(c, t, a);
    OwnEarlier(c, t, d);
    Localize(c, ch, t);
    if !HasEntered(c.threads[t]) {
      Entering(c, ch, t, a);
    } else if Walking(c.threads[t].pc) {
      OwnNearer(c, ch, t, a, Horizon(c, ch, t));
      ChainLength(c, ch, t);
    } else {
      DoneWalking(c, ch, t, a, Horizon(d, NextChain(c, ch, t), t));
    }
  }

  lemma ChainLength(c: Config, ch: seq<Addr>, t: nat)
    requires LocalInv(c, ch, t) && Walking(c.threads[t].pc)
    ensures |NextChain(c, ch, t)| == |ch| - (if c.threads[t].pc.LockContent? && Removes(c.threads[t].op) then 1 else 0)
  {
    if c.threads[t].pc.LockContent? { SuccFacts(ch, At(c.threads[t].pc)); }
  }

  lemma Entering(c: Config, ch: seq<Addr>, t: nat, a: Addr)
    requires LocalInv(c, ch, t) && Step(c, t, a).Ok? && !HasEntered(c.threads[t])
    ensures var th' := Step(c, t, a).c.threads[t];
            (HasEntered(th') ==> forall n :: StillAhead(ch, n, th'.pc) == n - 1) && NextChain(c, ch, t) == ch
  {
    IndexAt(ch, 0);
  }

  // ----- a walk visits every place up to where it stands

  /** How many elements lie up to where the call stands, counting the one it is dealing with. */
  function Place(ch: seq<Addr>, pc: Pc): nat {
    IndexOf(ch, At(pc)) + (if Adjacent(pc) then 1 else 0)
  }

  /** If `t` is walking, `v` visits brought it where it is, or more. */
  ghost predicate Reaches(c: Config, ch: seq<Addr>, t: nat, v: nat) {
    t < |c.threads| && HasEntered(c.threads[t]) && Walking(c.threads[t].pc) ==> Place(ch, c.threads[t].pc) <= v
  }

  /** The call's own step takes it one place further at most, and only by a visit. */
  ghost predicate OnePlace(c: Config, ch: seq<Addr>, t: nat, a: Addr) {
    && t < |c.threads| && Step(c, t, a).Ok? && t < |Step(c, t, a).c.threads|
    && (Walking(Step(c, t, a).c.threads[t].pc) ==>
          Place(ch, Step(c, t, a).c.threads[t].pc) <= Place(ch, c.threads[t].pc) + (if Finds(c, Run(t, a), t) then 1 else 0))
  }

  lemma LookPlace(c: Config, ch: seq<Addr>, t: nat, a: Addr)
    requires LocalInv(c, ch, t) && Step(c, t, a).Ok? && c.threads[t].pc.Look?
    ensures OnePlace(c, ch, t, a)
  {
  }

  lemma AdjacentPlace(c: Config, ch: seq<Addr>, t: nat, a: Addr)
    requires LocalInv(c, ch, t) && Step(c, t, a).Ok? && Adjacent(c.threads[t].pc) && !c.threads[t].pc.HandOver?
    ensures OnePlace(c, ch, t, a)
  {
  }

  lemma HandOverPlace(c: Config, ch: seq<Addr>, t: nat, a: Addr)
    requires LocalInv(c, ch, t) && Step(c, t, a).Ok? && c.threads[t].pc.HandOver?
    ensures OnePlace(c, ch, t, a)
  {
    SuccFacts(ch, At(c.threads[t].pc));
  }

  lemma SeversPlace(c: Config, ch: seq<Addr>, t: nat, a: Addr)
    requires LocalInv(c, ch, t) && Step(c, t, a).Ok? && Severs(c.threads[t].pc)
    ensures OnePlace(c, ch, t, a)
  {
  }

  lemma OwnPlace(c: Config, ch: seq<Addr>, t: nat, a: Addr)
    requires LocalInv(c, ch, t) && Step(c, t, a).Ok? && Walking(c.threads[t].pc)
    ensures OnePlace(c, ch, t, a)
  {
    var pc := c.threads[t].pc;
    if pc.Look? { LookPlace(c, ch, t, a); }
    else if pc.HandOver? { HandOverPlace(c, ch, t, a); }
    else if Adjacent(pc) { AdjacentPlace(c, ch, t, a); }
    else { SeversPlace(c, ch, t, a); }
  }

  /** No step brings a place of the chain further from the header. */
  lemma PlaceStays(c: Config, ch: seq<Addr>, v: nat, a: Addr)
    requires Distinct(ch) && ch != [] && v < |c.threads| && a in ch && a in NextChain(c, ch, v)
    requires c.threads[v].pc.Link? ==> c.threads[v].node !in ch
    ensures IndexOf(NextChain(c, ch, v), a) <= IndexOf(ch, a)
  {
    match c.threads[v].pc
    case Link(_) => IndexAppend(ch, c.threads[v].node);
    case LockContent(_, el) =>
      if Removes(c.threads[v].op) && IndexOf(ch, el) < |ch| { IndexWithout(ch, IndexOf(ch, el)); }
    case _ =>
  }

  lemma WalkerInChain(c: Config, ch: seq<Addr>, t: nat)
    requires Inv(c, ch) && t < |c.threads| && Walking(c.threads[t].pc)
    ensures At(c.threads[t].pc) != NULL && At(c.threads[t].pc) in ch
  {
    assert ThreadOk(c, ch, t, c.threads[t]);
  }

  lemma StepReaches(c: Config, ch: seq<Addr>, v: nat, a: Addr, t: nat, n: nat)
    requires Inv(c, ch) && v < |c.threads| && Step(c, v, a).Ok? && Reaches(c, ch, t, n)
    requires Inv(Step(c, v, a).c, NextChain(c, ch, v))
    ensures Reaches(Step(c, v, a).c, NextChain(c, ch, v), t, n + (if Finds(c, Run(v, a), t) then 1 else 0))
  {
    StepProgram(c, v, a);
    var d := Step(c, v, a).c;
    if t < |c.threads| && HasEntered(d.threads[t]) && Walking(d.threads[t].pc) {
      WalkerInChain(d, NextChain(c, ch, v), t);
      if v == t { OwnReaches(c, ch, t, a, n); } else { WalkerInChain(c, ch, t); }
      StandsIn(c, ch, v, a, At(d.threads[t].pc));
    }
  }

  /** A place where a thread stands was in the chain before. */
  lemma StandsIn(c: Config, ch: seq<Addr>, v: nat, a: Addr, at: Addr)
    requires Inv(c, ch) && v < |c.threads| && Step(c, v, a).Ok? && at in NextChain(c, ch, v) && at in ch
    ensures IndexOf(NextChain(c, ch, v), at) <= IndexOf(ch, at)
  {
    NewLinkFree(c, ch, v, a);
    PlaceStays(c, ch, v, at);
  }

  lemma OwnReaches(c: Config, ch: seq<Addr>, t: nat, a: Addr, n: nat)
    requires Inv(c, ch) && t < |c.threads| && Step(c, t, a).Ok? && Reaches(c, ch, t, n)
    requires OneThread(c, t, Step(c, t, a).c) && HasEntered(Step(c, t, a).c.threads[t]) && Walking(Step(c, t, a).c.threads[t].pc)
    requires At(Step(c, t, a).c.threads[t].pc) != NULL
    ensures Place(ch, Step(c, t, a).c.threads[t].pc) <= n + (if Finds(c, Run(t, a), t) then 1 else 0)
    ensures At(Step(c, t, a).c.threads[t].pc) in ch
  {
    Localize(c, ch, t);
    if !HasEntered(c.threads[t]) {
      FirstPlace(c, ch, t, a);
    } else {
      WasWalking(c, t, a);
      OwnPlace(c, ch, t, a);
      WalksOn(c, ch, t, a);
    }
  }

  lemma WasWalking(c: Config, t: nat, a: Addr)
    requires t < |c.threads| && Step(c, t, a).Ok? && t < |Step(c, t, a).c.threads| && HasEntered(c.threads[t])
    requires Walking(Step(c, t, a).c.threads[t].pc)
    ensures Walking(c.threads[t].pc)
  {
    if !Walking(c.threads[t].pc) {
      StaysOff(c, t, a);
      assert false;
    }
  }

  lemma WalksOn(c: Config, ch: seq<Addr>, t: nat, a: Addr)
    requires LocalInv(c, ch, t) && Step(c, t, a).Ok? && t < |Step(c, t, a).c.threads| && Walking(c.threads[t].pc)
    requires At(Step(c, t, a).c.threads[t].pc) != NULL
    ensures At(Step(c, t, a).c.threads[t].pc) in ch
  {
    AdvancesStep(c, t, a);
    if c.threads[t].pc.HandOver? { SuccFacts(ch, At(c.threads[t].pc)); }
  }

  lemma FirstPlace(c: Config, ch: seq<Addr>, t: nat, a: Addr)
    requires LocalInv(c, ch, t) && Step(c, t, a).Ok? && !HasEntered(c.threads[t]) && HasEntered(Step(c, t, a).c.threads[t])
    ensures Step(c, t, a).c.threads[t].pc == Look(LIST) && IndexOf(ch, LIST) == 0
  {
    IndexAt(ch, 0);
  }

  // ----- whole runs

  lemma CallCounts(c: Config, ch: seq<Addr>, op: Op, t: nat)
    requires Recorded(c)
    ensures Counts(c, ch, Call(op), Fire(c, Call(op)).c, ch, t)
  {
    var d := Fire(c, Call(op)).c;
    CallHorizon(c, ch, op, t);
    if t < |c.threads| { assert d.threads[t] == c.threads[t]; }
    else if t < |d.threads| { assert !HasEntered(d.threads[t]); }
  }

  lemma CallHorizon(c: Config, ch: seq<Addr>, op: Op, t: nat)
    requires Recorded(c)
    ensures var d := Fire(c, Call(op)).c;
            d.entered == c.entered && Horizon(d, ch, t) == Horizon(c, ch, t)
  {
    AppendingCall(c.threads, Fire(c, Call(op)).c.threads, Earlier(c, t));
  }

  lemma {:induction false} AppendingCall(ths: seq<Thread>, ths': seq<Thread>, log: seq<Entry>)
    requires ths <= ths' && forall i :: 0 <= i < |log| ==> log[i].tid < |ths|
    ensures StillAppending(ths', log) == StillAppending(ths, log)
  {
    if log != [] { AppendingCall(ths, ths', log[1..]); }
  }

  ghost predicate InLine(c: Config, ch: seq<Addr>) {
    Sound(c, ch) && Ordered(c, ch)
  }

  lemma FireCounts(c: Config, ch: seq<Addr>, e: Event, t: nat, n: nat) returns (ch': seq<Addr>)
    requires InLine(c, ch) && Reaches(c, ch, t, n)
    ensures Fire(c, e).Ok? && InLine(Fire(c, e).c, ch') && Counts(c, ch, e, Fire(c, e).c, ch', t)
    ensures Reaches(Fire(c, e).c, ch', t, n + (if Finds(c, e, t) then 1 else 0))
  {
    ch' := ch;
    NoFault(c, ch, e);
    match e
    case Call(op) =>
      CallSound(c, ch, op);
      CallOrdered(c, ch, op);
      CallCounts(c, ch, op, t);
      CallReaches(c, ch, op, t, n);
    case Run(v, a) =>
      if v < |c.threads| && Step(c, v, a).Ok? {
        ch' := NextChain(c, ch, v);
        StepOrdered(c, ch, v, a);
        StepCounts(c, ch, v, a, t);
        StepReaches(c, ch, v, a, t, n);
      }
  }

  lemma CallReaches(c: Config, ch: seq<Addr>, op: Op, t: nat, n: nat)
    requires Reaches(c, ch, t, n)
    ensures Reaches(Fire(c, Call(op)).c, ch, t, n)
  {
    var d := Fire(c, Call(op)).c;
    if t < |c.threads| { assert d.threads[t] == c.threads[t]; }
    else if t < |d.threads| { assert !HasEntered(d.threads[t]); }
  }

  lemma StepCounts(c: Config, ch: seq<Addr>, v: nat, a: Addr, t: nat)
    requires InLine(c, ch) && v < |c.threads| && Step(c, v, a).Ok?
    ensures Counts(c, ch, Run(v, a), Step(c, v, a).c, NextChain(c, ch, v), t)
  {
    StepSimulates(c, ch, v, a);
    if v == t { OwnStep(c, ch, t, a); } else { OthersStep(c, ch, v, a, t); }
  }

  lemma {:induction false} VisitsWithin(c: Config, ch: seq<Addr>, t: nat, more: seq<Event>) returns (ch': seq<Addr>)
    requires InLine(c, ch) && Reaches(c, ch, t, 0)
    ensures Execute(c, more).Ok? && InLine(Execute(c, more).c, ch') && Reaches(Execute(c, more).c, ch', t, Visits(c, t, more))
    ensures var d := Execute(c, more).c;
            Visits(c, t, more) + Todo(d, ch', t) - Rank(d.entered, t) <= Todo(c, ch, t) - Rank(c.entered, t)
    decreases |more|
  {
    ch' := ch;
    if more != [] {
      var init, e := more[..|more| - 1], more[|more| - 1];
      ch' := VisitsWithin(c, ch, t, init);
      ch' := FireCounts(Execute(c, init).c, ch', e, t, Visits(c, t, init));
      ExecuteSnoc(c, more);
    }
  }

  lemma TodoNonNegative(c: Config, ch: seq<Addr>, t: nat)
    requires Inv(c, ch)
    ensures Todo(c, ch, t) >= 0
  {
    if t < |c.threads| && HasEntered(c.threads[t]) && Walking(c.threads[t].pc) {
      assert ThreadOk(c, ch, t, c.threads[t]);
      SuccFacts(ch, At(c.threads[t].pc));
    }
  }

  /** Bounded walks: a call that has not locked the header yet will walk to at most the elements
      now in the chain, those that the calls already inside may still append, and one for each
      call that locks the header between now and then. */
  lemma WalkBounded(schedule: seq<Event>, more: seq<Event>, t: nat) returns (ch: seq<Addr>)
    requires Execute(INITIAL, schedule).Ok? && Execute(Reached(schedule), more).Ok?
    requires t < |Reached(schedule).threads| ==> !HasEntered(Reached(schedule).threads[t])
    ensures Sound(Reached(schedule), ch)
    ensures var c, d := Reached(schedule), Execute(Reached(schedule), more).c;
            Visits(c, t, more) <= |ch| - 1 + StillAppending(c.threads, c.entered) + Rank(d.entered, t) - |c.entered|
  {
    ch := RunOrdered(schedule);
    var c := Reached(schedule);
    var ch' := VisitsWithin(c, ch, t, more);
    TodoNonNegative(Execute(c, more).c, ch', t);
    RankUnentered(c, t);
    assert c.entered[..|c.entered|] == c.entered;
  }

  lemma {:induction false} NoneAppending(ths: seq<Thread>, log: seq<Entry>)
    requires forall u :: 0 <= u < |ths| ==> ths[u].pc.Done?
    ensures StillAppending(ths, log) == 0
  {
    if log != [] { NoneAppending(ths, log[1..]); }
  }

  /** From a state in which no call is under way: at most the length of the list, and one for
      each call that entered since and before it. */
  lemma WalkFromRest(schedule: seq<Event>, more: seq<Event>, t: nat)
    requires Execute(INITIAL, schedule).Ok? && Execute(Reached(schedule), more).Ok?
    requires Quiescent(Reached(schedule)) && t >= |Reached(schedule).threads|
    ensures var c, d := Reached(schedule), Execute(Reached(schedule), more).c;
            Visits(c, t, more) <= |Serial(c.entered).list| + Rank(d.entered, t) - |c.entered|
  {
    var ch := WalkBounded(schedule, more, t);
    NoneAppending(Reached(schedule).threads, Reached(schedule).entered);
    QuietDrain(Reached(schedule), ch);
  }

  /** A walk visits elements and does not skip any: wherever a call stands in the chain, it has
      visited at least as many elements as lie up to there. */
  lemma WalkReaches(schedule: seq<Event>, more: seq<Event>, t: nat) returns (ch: seq<Addr>)
    requires Execute(INITIAL, schedule).Ok? && Execute(Reached(schedule), more).Ok?
    requires t < |Reached(schedule).threads| ==> !HasEntered(Reached(schedule).threads[t])
    ensures var c, d := Reached(schedule), Execute(Reached(schedule), more).c;
            Sound(d, ch) && Reaches(d, ch, t, Visits(c, t, more))
  {
    ch := RunOrdered(schedule);
    ch := VisitsWithin(Reached(schedule), ch, t, more);
  }

  /** From rest the first call to enter has visited exactly the elements up to where it stands,
      while the chain has its length. */
  lemma WalkExact(schedule: seq<Event>, more: seq<Event>, t: nat) returns (ch: seq<Addr>)
    requires Execute(INITIAL, schedule).Ok? && Execute(Reached(schedule), more).Ok?
    requires Quiescent(Reached(schedule)) && t >= |Reached(schedule).threads|
    requires var d := Execute(Reached(schedule), more).c;
             t < |d.threads| && HasEntered(d.threads[t]) && Walking(d.threads[t].pc)
             && Rank(d.entered, t) == |Reached(schedule).entered|
    ensures var c, d := Reached(schedule), Execute(Reached(schedule), more).c;
            && Sound(d, ch)
            && (|ch| - 1 == |Serial(c.entered).list| ==> Visits(c, t, more) == Place(ch, d.threads[t].pc))
  {
    var c := Reached(schedule);
    var from := RunOrdered(schedule);
    ch := VisitsWithin(c, from, t, more);
    RankUnentered(c, t);
    assert c.entered[..|c.entered|] == c.entered;
    NoneAppending(c.threads, c.entered);
    QuietDrain(c, from);
  }
}
