/** Nothing ever gets stuck, and any finite set of calls finishes within a computable number
    of steps. */
module Progress {
  import opened Machine
  import opened Chains
  import opened Invariant
  import opened Refinement
  import opened Theorems

  // ----- deadlock freedom

  ghost predicate CanStep(c: Config, t: nat) {
    t < |c.threads| && exists a :: Step(c, t, a).Ok?
  }

  /** The thread waits for a lock that is taken. */
  predicate Stuck(c: Config, t: nat)
    requires t < |c.threads|
  {
    var pc := c.threads[t].pc;
    || (WaitsUsage(pc) in c.cells && c.cells[WaitsUsage(pc)].usage.Held?)
    || (WaitsContent(pc) in c.cells && c.cells[WaitsContent(pc)].content.Held?)
  }

  /** malloc can always return some address that is not in use. */
  lemma FreshAddress(s: set<nat>) returns (a: nat)
    ensures a !in s && a != NULL
  {
    a := 1;
    var rest := s;
    while rest != {}
      invariant forall x :: x in s && x !in rest ==> x < a
      invariant a >= 1
      decreases rest
    {
      var x :| x in rest;
      if x >= a { a := x + 1; }
      rest := rest - {x};
    }
  }

  /** Why a step can be blocked. */
  ghost predicate BlockedFor(c: Config, t: nat, a: Addr)
    requires t < |c.threads|
  {
    var pc := c.threads[t].pc;
    pc.Done? || ((pc.Create? || pc.CreateAtEnd?) && (a in c.cells || a == NULL)) || Stuck(c, t)
  }

  lemma WhyBlockedWalk(c: Config, t: nat, a: Addr)
    requires t < |c.threads| && Step(c, t, a).Blocked? && !UsesElement(c.threads[t].pc) && !c.threads[t].pc.Drop?
    ensures BlockedFor(c, t, a)
  {
  }

  lemma WhyBlockedUse(c: Config, t: nat, a: Addr)
    requires t < |c.threads| && Step(c, t, a).Blocked? && (UsesElement(c.threads[t].pc) || c.threads[t].pc.Drop?)
    ensures BlockedFor(c, t, a)
  {
  }

  /** A thread that has not returned can step unless it waits for a taken lock. */
  lemma StepsUnlessStuck(c: Config, ch: seq<Addr>, t: nat)
    requires Inv(c, ch) && t < |c.threads| && !c.threads[t].pc.Done? && !Stuck(c, t)
    ensures CanStep(c, t)
  {
    var a := FreshAddress(c.cells.Keys);
    StepSimulates(c, ch, t, a);
    if Step(c, t, a).Blocked? {
      if UsesElement(c.threads[t].pc) || c.threads[t].pc.Drop? { WhyBlockedUse(c, t, a); }
      else { WhyBlockedWalk(c, t, a); }
    }
    assert Step(c, t, a).Ok?;
  }

  lemma HolderNotDone(c: Config, a: Addr)
    requires a in c.cells && LockOk(c, a)
    ensures c.cells[a].usage.Held? ==> !c.threads[c.cells[a].usage.tid].pc.Done?
    ensures c.cells[a].content.Held? ==>
              var pc := c.threads[c.cells[a].content.tid].pc;
              !pc.Done? && WaitsUsage(pc) == NULL && WaitsContent(pc) == NULL
  {
  }

  /** If a chain lock is taken, someone at or beyond it can step: lock ranks grow down the chain. */
  lemma {:induction false} SomeoneBeyond(c: Config, ch: seq<Addr>, i: nat)
    requires Inv(c, ch) && i < |ch| && ch[i] in c.cells && c.cells[ch[i]].usage.Held?
    ensures exists t: nat :: CanStep(c, t)
    decreases |ch| - i
  {
    assert LockOk(c, ch[i]);
    HolderNotDone(c, ch[i]);
    var u := c.cells[ch[i]].usage.tid;
    assert ThreadOk(c, ch, u, c.threads[u]);
    if Stuck(c, u) {
      HolderStuck(c, ch, u, i);
      if c.threads[u].pc.LockContent? {
        ContentHolderSteps(c, ch, El(c.threads[u].pc));
      } else {
        assert ch[i + 1] in ch;
        SomeoneBeyond(c, ch, i + 1);
      }
    } else {
      StepsUnlessStuck(c, ch, u);
    }
  }

  lemma HolderStuck(c: Config, ch: seq<Addr>, u: nat, i: nat)
    requires Inv(c, ch) && i < |ch| && ch[i] in c.cells && c.cells[ch[i]].usage == Held(u) && u < |c.threads|
    requires HoldsUsage(c.threads[u].pc, ch[i]) && Stuck(c, u)
    requires ThreadOk(c, ch, u, c.threads[u])
    ensures if c.threads[u].pc.LockContent? then
              El(c.threads[u].pc) in c.cells && c.cells[El(c.threads[u].pc)].content.Held?
            else i + 1 < |ch| && ch[i + 1] in c.cells && c.cells[ch[i + 1]].usage.Held?
  {
    SuccFacts(ch, At(c.threads[u].pc));
    IndexAt(ch, i);
  }

  lemma ContentHolderSteps(c: Config, ch: seq<Addr>, el: Addr)
    requires Inv(c, ch) && el in c.cells && c.cells[el].content.Held?
    ensures exists t: nat :: CanStep(c, t)
  {
    assert LockOk(c, el);
    HolderNotDone(c, el);
    var u := c.cells[el].content.tid;
    assert NULL !in c.cells;
    StepsUnlessStuck(c, ch, u);
  }

  lemma SomeoneCanStep(c: Config, ch: seq<Addr>)
    requires Inv(c, ch) && !Quiescent(c)
    ensures exists t: nat :: CanStep(c, t)
  {
    var u :| 0 <= u < |c.threads| && !c.threads[u].pc.Done?;
    assert NULL !in c.cells;
    if !Stuck(c, u) {
      StepsUnlessStuck(c, ch, u);
    } else if WaitsContent(c.threads[u].pc) in c.cells {
      ContentHolderSteps(c, ch, WaitsContent(c.threads[u].pc));
    } else {
      assert ThreadOk(c, ch, u, c.threads[u]);
      assert ch[0] in ch;
      if At(c.threads[u].pc) != NULL { SuccFacts(ch, At(c.threads[u].pc)); }
      SomeoneBeyond(c, ch, IndexOf(ch, WaitsUsage(c.threads[u].pc)));
    }
  }

  /** Deadlock freedom: in every reachable state with an unfinished call, some thread can step. */
  lemma NoDeadlock(schedule: seq<Event>)
    requires Execute(INITIAL, schedule).Ok? && !Quiescent(Reached(schedule))
    ensures exists t: nat :: CanStep(Reached(schedule), t)
  {
    var ch := RunSound(schedule);
    SomeoneCanStep(Reached(schedule), ch);
  }
}
