/** Calls never overtake each other: walking down the chain, the holders of the element locks
    get strictly older, in the order in which they locked the header; and so over a whole run
    each element's locks are granted in that order. */
module Order {
  import opened ListSpec
  import opened Machine
  import opened Chains
  import opened Invariant
  import opened Abstraction
  import opened Simulation
  import opened Refinement
  import opened Theorems

  /** Position of a call in the serial history (its length, if it has not entered). */
  function Rank(log: seq<Entry>, t: nat): (i: nat)
    ensures i <= |log| && (i < |log| ==> log[i].tid == t)
    ensures forall j :: 0 <= j < i ==> log[j].tid != t
  {
    if log == [] || log[0].tid == t then 0 else 1 + Rank(log[1..], t)
  }

  lemma RankSnoc(log: seq<Entry>, e: Entry, t: nat)
    ensures Rank(log, t) < |log| ==> Rank(log + [e], t) == Rank(log, t)
    ensures Rank(log, t) == |log| && e.tid == t ==> Rank(log + [e], t) == |log|
  {
    var i, d := Rank(log, t), log + [e];
    if i < |log| { assert d[i].tid == t; } else if e.tid == t { assert d[|log|].tid == t; }
    forall j | 0 <= j < i ensures d[j].tid != t {}
  }

  lemma EnteredRank(c: Config, t: nat)
    requires Recorded(c) && t < |c.threads|
    ensures HasEntered(c.threads[t]) <==> Rank(c.entered, t) < |c.entered|
  {
    if HasEntered(c.threads[t]) {
      assert Listed(c, t);
      var i :| 0 <= i < |c.entered| && c.entered[i].tid == t;
      assert !(i < Rank(c.entered, t));
    }
  }

  /** Of two held chain locks, the one nearer the header is held by the later call. */
  ghost predicate InOrder(c: Config, ch: seq<Addr>, a: Addr, b: Addr)
    requires a in c.cells && b in c.cells
  {
    c.cells[a].usage.Held? && c.cells[b].usage.Held? && IndexOf(ch, a) < IndexOf(ch, b) ==>
      || c.cells[a].usage.tid == c.cells[b].usage.tid
      || Rank(c.entered, c.cells[b].usage.tid) < Rank(c.entered, c.cells[a].usage.tid)
  }

  ghost predicate Ordered(c: Config, ch: seq<Addr>) {
    forall a, b :: a in ch && b in ch && a in c.cells && b in c.cells ==> InOrder(c, ch, a, b)
  }

  /** A lock the stepping thread gains is the header's, or that of the element after one it holds. */
  ghost predicate Gains(c: Config, ch: seq<Addr>, t: nat, d: Config, a: Addr)
    requires t < |c.threads| && t < |d.threads|
  {
    HoldsUsage(d.threads[t].pc, a) && !HoldsUsage(c.threads[t].pc, a) ==>
      || (a == LIST && c.threads[t].pc.LockList?)
      || (!c.threads[t].pc.LockList? && At(c.threads[t].pc) != NULL && a == El(c.threads[t].pc) && Adjacent(c.threads[t].pc)
          && At(d.threads[t].pc) == At(c.threads[t].pc))
  }

  lemma GainsWalk(c: Config, ch: seq<Addr>, t: nat, a0: Addr, a: Addr)
    requires LocalInv(c, ch, t) && Step(c, t, a0).Ok? && !UsesElement(c.threads[t].pc) && !c.threads[t].pc.Drop?
    ensures |Step(c, t, a0).c.threads| == |c.threads| && Gains(c, ch, t, Step(c, t, a0).c, a)
  {
  }

  lemma GainsUse(c: Config, ch: seq<Addr>, t: nat, a0: Addr, a: Addr)
    requires t < |c.threads| && Step(c, t, a0).Ok? && UsesElement(c.threads[t].pc)
    requires c.threads[t].pc.LockElem? ==> At(c.threads[t].pc) != NULL
    ensures |Step(c, t, a0).c.threads| == |c.threads| && Gains(c, ch, t, Step(c, t, a0).c, a)
  {
  }

  lemma GainsDrop(c: Config, ch: seq<Addr>, t: nat, a0: Addr, a: Addr)
    requires t < |c.threads| && Step(c, t, a0).Ok? && c.threads[t].pc.Drop?
    ensures |Step(c, t, a0).c.threads| == |c.threads| && Gains(c, ch, t, Step(c, t, a0).c, a)
  {
  }

  lemma GainsAll(c: Config, ch: seq<Addr>, t: nat, a0: Addr, a: Addr)
    requires LocalInv(c, ch, t) && Step(c, t, a0).Ok?
    ensures |Step(c, t, a0).c.threads| == |c.threads| && Gains(c, ch, t, Step(c, t, a0).c, a)
  {
    if UsesElement(c.threads[t].pc) { GainsUse(c, ch, t, a0, a); }
    else if c.threads[t].pc.Drop? { GainsDrop(c, ch, t, a0, a); }
    else { GainsWalk(c, ch, t, a0, a); }
  }

  /** The chain after a step keeps the relative order of what it keeps. */
  lemma WithoutOrder(ch: seq<Addr>, k: nat, a: Addr, b: Addr)
    requires Distinct(ch) && k < |ch| && a in ch && b in ch && a in Without(ch, k) && b in Without(ch, k)
    ensures IndexOf(Without(ch, k), a) < IndexOf(Without(ch, k), b) <==> IndexOf(ch, a) < IndexOf(ch, b)
  {
    IndexWithout(ch, k);
  }

  lemma ChainOrder(c: Config, ch: seq<Addr>, t: nat, a: Addr, b: Addr)
    requires Distinct(ch) && t < |c.threads| && a in ch && b in ch
    requires a in NextChain(c, ch, t) && b in NextChain(c, ch, t)
    requires c.threads[t].pc.Link? ==> c.threads[t].node !in ch
    ensures IndexOf(NextChain(c, ch, t), a) < IndexOf(NextChain(c, ch, t), b) <==> IndexOf(ch, a) < IndexOf(ch, b)
  {
    match c.threads[t].pc
    case Link(_) => IndexAppend(ch, c.threads[t].node);
    case LockContent(_, el) =>
      if Removes(c.threads[t].op) && IndexOf(ch, el) < |ch| { WithoutOrder(ch, IndexOf(ch, el), a, b); }
    case _ =>
  }

  /** Where a lock held after the step comes from. */
  ghost predicate Origin(c: Config, ch: seq<Addr>, t: nat, a: Addr, v: nat)
    requires t < |c.threads|
  {
    && a in ch && a in c.cells
    && (|| c.cells[a].usage == Held(v)
        || (v == t && a == LIST && c.threads[t].pc.LockList?)
        || (v == t && !c.threads[t].pc.LockList? && At(c.threads[t].pc) in ch && At(c.threads[t].pc) in c.cells
            && c.cells[At(c.threads[t].pc)].usage == Held(t) && IndexOf(ch, a) == IndexOf(ch, At(c.threads[t].pc)) + 1))
  }

  lemma HeldOrigin(c: Config, ch: seq<Addr>, t: nat, a0: Addr, a: Addr)
    requires Inv(c, ch) && t < |c.threads| && Step(c, t, a0).Ok?
    requires var d := Step(c, t, a0).c;
             && Inv(d, NextChain(c, ch, t)) && Respects(c, ch, d, NextChain(c, ch, t), t)
             && a in NextChain(c, ch, t) && a in ch && a in d.cells && d.cells[a].usage.Held?
    ensures Origin(c, ch, t, a, Step(c, t, a0).c.cells[a].usage.tid)
  {
    var d, ch' := Step(c, t, a0).c, NextChain(c, ch, t);
    if d.cells[a].usage.tid != t {
      HeldBefore(c, ch, d, ch', t, a);
    } else {
      assert LockOk(d, a);
      Localize(c, ch, t);
      GainsAll(c, ch, t, a0, a);
      if HoldsUsage(c.threads[t].pc, a) {
        assert ThreadOk(c, ch, t, c.threads[t]);
      } else if !c.threads[t].pc.LockList? {
        SuccFacts(ch, At(c.threads[t].pc));
      }
    }
  }

  /** A holder's rank is its old one, or the last if it is only entering now. */
  ghost predicate RankKept(c: Config, t: nat, a: Addr, v: nat, log: seq<Entry>)
    requires a in c.cells && t < |c.threads|
  {
    if c.cells[a].usage == Held(v) || !c.threads[t].pc.LockList? then Rank(log, v) == Rank(c.entered, v) < |c.entered|
    else v == t && Rank(log, v) == |c.entered|
  }

  /** Comparing two locks by where they come from. */
  lemma OriginsInOrder(c: Config, ch: seq<Addr>, t: nat, a: Addr, v: nat, b: Addr, w: nat, log: seq<Entry>)
    requires Distinct(ch) && ch != [] && ch[0] == LIST && Ordered(c, ch) && t < |c.threads|
    requires Origin(c, ch, t, a, v) && Origin(c, ch, t, b, w) && v != w && IndexOf(ch, a) < IndexOf(ch, b)
    requires RankKept(c, t, a, v, log) && RankKept(c, t, b, w, log)
    ensures Rank(log, w) < Rank(log, v)
  {
    IndexAt(ch, 0);
    if c.cells[a].usage == Held(v) {
      if c.cells[b].usage == Held(w) {
        assert InOrder(c, ch, a, b);
      } else {
        assert w == t;
        var at := At(c.threads[t].pc);
        assert InOrder(c, ch, a, at);
        assert a != at;
        IndexAt(ch, IndexOf(ch, a));
        IndexAt(ch, IndexOf(ch, at));
      }
    } else if c.threads[t].pc.LockList? {
      assert c.cells[b].usage == Held(w);
    } else {
      assert InOrder(c, ch, At(c.threads[t].pc), b);
    }
  }

  lemma OldRank(c: Config, ch: seq<Addr>, t: nat, a: Addr, v: nat, log: seq<Entry>)
    requires Inv(c, ch) && Recorded(c) && t < |c.threads| && v < |c.threads| && Origin(c, ch, t, a, v)
    requires log == c.entered + (if c.threads[t].pc.LockList? then [Entry(t, c.threads[t].op)] else [])
    ensures RankKept(c, t, a, v, log)
  {
    EnteredRank(c, v);
    RankSnoc(c.entered, Entry(t, c.threads[t].op), v);
    assert c.entered + [] == c.entered;
    if c.cells[a].usage == Held(v) {
      assert LockOk(c, a);
    } else if !c.threads[t].pc.LockList? {
      assert LockOk(c, At(c.threads[t].pc));
    }
  }

  lemma StepOrdered(c: Config, ch: seq<Addr>, t: nat, a0: Addr)
    requires Sound(c, ch) && Ordered(c, ch) && t < |c.threads| && Step(c, t, a0).Ok?
    ensures Sound(Step(c, t, a0).c, NextChain(c, ch, t)) && Ordered(Step(c, t, a0).c, NextChain(c, ch, t))
  {
    StepSound(c, ch, t, a0);
    StepSimulates(c, ch, t, a0);
    StepProgram(c, t, a0);
    var d, ch' := Step(c, t, a0).c, NextChain(c, ch, t);
    NewLinkFree(c, ch, t, a0);
    forall a, b | a in ch' && b in ch' && a in d.cells && b in d.cells ensures InOrder(d, ch', a, b) {
      if d.cells[a].usage.Held? && d.cells[b].usage.Held? && IndexOf(ch', a) < IndexOf(ch', b)
         && d.cells[a].usage.tid != d.cells[b].usage.tid {
        PairInOrder(c, ch, t, a0, a, b);
      }
    }
  }

  /** The node that a Link publishes is unlocked, and new to the chain. */
  lemma NewLinkFree(c: Config, ch: seq<Addr>, t: nat, a0: Addr)
    requires Inv(c, ch) && t < |c.threads| && Step(c, t, a0).Ok?
    ensures c.threads[t].pc.Link? ==>
              var x := c.threads[t].node;
              x !in ch && x in Step(c, t, a0).c.cells && Step(c, t, a0).c.cells[x].usage.Open?
    ensures forall a :: a in NextChain(c, ch, t) ==> a in ch || (c.threads[t].pc.Link? && a == c.threads[t].node)
  {
    assert ThreadOk(c, ch, t, c.threads[t]);
    if c.threads[t].pc.Link? { assert Private(c.threads[t]) == c.threads[t].node; }
  }

  lemma PairInOrder(c: Config, ch: seq<Addr>, t: nat, a0: Addr, a: Addr, b: Addr)
    requires Inv(c, ch) && Recorded(c) && Ordered(c, ch) && t < |c.threads| && Step(c, t, a0).Ok?
    requires var d, ch' := Step(c, t, a0).c, NextChain(c, ch, t);
             && Inv(d, ch') && Respects(c, ch, d, ch', t) && OneThread(c, t, d)
             && a in ch' && b in ch' && a in ch && b in ch && a in d.cells && b in d.cells
             && d.cells[a].usage.Held? && d.cells[b].usage.Held?
             && d.cells[a].usage.tid != d.cells[b].usage.tid && IndexOf(ch', a) < IndexOf(ch', b)
    requires c.threads[t].pc.Link? ==> c.threads[t].node !in ch
    ensures var d := Step(c, t, a0).c;
            Rank(d.entered, d.cells[b].usage.tid) < Rank(d.entered, d.cells[a].usage.tid)
  {
    var d := Step(c, t, a0).c;
    ChainOrder(c, ch, t, a, b);
    HeldOrigin(c, ch, t, a0, a);
    HeldOrigin(c, ch, t, a0, b);
    assert LockOk(d, a) && LockOk(d, b);
    OldRank(c, ch, t, a, d.cells[a].usage.tid, d.entered);
    OldRank(c, ch, t, b, d.cells[b].usage.tid, d.entered);
    OriginsInOrder(c, ch, t, a, d.cells[a].usage.tid, b, d.cells[b].usage.tid, d.entered);
  }

  lemma CallOrdered(c: Config, ch: seq<Addr>, op: Op)
    requires Ordered(c, ch)
    ensures Ordered(Fire(c, Call(op)).c, ch)
  {
    var d := Fire(c, Call(op)).c;
    forall a, b | a in ch && b in ch && a in d.cells && b in d.cells ensures InOrder(d, ch, a, b) {
      assert InOrder(c, ch, a, b);
    }
  }

  lemma NoFault(c: Config, ch: seq<Addr>, e: Event)
    requires Sound(c, ch)
    ensures Fire(c, e).Ok?
  {
    var _ := FireSound(c, ch, e);
  }

  lemma FireOrdered(c: Config, ch: seq<Addr>, e: Event) returns (ch': seq<Addr>)
    requires Sound(c, ch) && Ordered(c, ch)
    ensures Fire(c, e).Ok? && Sound(Fire(c, e).c, ch') && Ordered(Fire(c, e).c, ch')
  {
    ch' := ch;
    match e
    case Call(op) =>
      CallSound(c, ch, op);
      CallOrdered(c, ch, op);
    case Run(t, a) =>
      NoFault(c, ch, e);
      if t < |c.threads| && Step(c, t, a).Ok? {
        StepOrdered(c, ch, t, a);
        ch' := NextChain(c, ch, t);
      }
  }

  lemma {:induction false} RunOrdered(schedule: seq<Event>) returns (ch: seq<Addr>)
    ensures Execute(INITIAL, schedule).Ok?
    ensures Sound(Execute(INITIAL, schedule).c, ch) && Ordered(Execute(INITIAL, schedule).c, ch)
  {
    if schedule == [] {
      ch := [LIST];
      InitialSound();
    } else {
      ch := RunOrdered(schedule[..|schedule| - 1]);
      ch := FireOrdered(Execute(INITIAL, schedule[..|schedule| - 1]).c, ch, schedule[|schedule| - 1]);
    }
  }

  /** If `a` is held by an earlier call than `b`, then `a` is further down the chain. */
  ghost predicate Ahead(c: Config, ch: seq<Addr>, a: Addr, b: Addr)
    requires a in c.cells && b in c.cells
  {
    var x, y := c.cells[a].usage, c.cells[b].usage;
    x.Held? && y.Held? && Rank(c.entered, x.tid) < Rank(c.entered, y.tid) ==> IndexOf(ch, b) < IndexOf(ch, a)
  }

  /** No overtaking, in every reachable state: of two calls, the one that locked the header
      first holds element locks only strictly further down the chain than any the other holds. */
  lemma NoOvertaking(schedule: seq<Event>) returns (ch: seq<Addr>)
    requires Execute(INITIAL, schedule).Ok?
    ensures Sound(Reached(schedule), ch)
    ensures var c := Reached(schedule);
            forall a, b :: a in ch && b in ch && a in c.cells && b in c.cells ==> Ahead(c, ch, a, b)
  {
    ch := RunOrdered(schedule);
    var c := Reached(schedule);
    forall a, b | a in ch && b in ch && a in c.cells && b in c.cells ensures Ahead(c, ch, a, b) {
      assert InOrder(c, ch, a, b);
      IndexAt(ch, IndexOf(ch, a));
      IndexAt(ch, IndexOf(ch, b));
    }
  }

  // ----- grants over whole runs

  ghost predicate Dropping(c: Config, el: Addr) {
    exists v :: 0 <= v < |c.threads| && c.threads[v].pc.Drop? && El(c.threads[v].pc) == el
  }

  /** Call `t` has passed `el` for good: `el` lies strictly nearer the header than where `t`
      stands, or has been taken out and is only waiting to be freed. */
  ghost predicate Passed(c: Config, ch: seq<Addr>, t: nat, el: Addr) {
    && t < |c.threads| && HasEntered(c.threads[t]) && el != NULL && el in c.cells
    && (el in ch || Dropping(c, el))
    && (el in ch && At(c.threads[t].pc) != NULL ==> IndexOf(ch, el) < IndexOf(ch, At(c.threads[t].pc)))
  }

  /** Where a thread stands changes only by handing over to the next element or letting go. */
  ghost predicate Advances(p: Pc, q: Pc) {
    At(q) == At(p) || At(q) == NULL || (p.HandOver? && At(q) == El(p)) || (p.LockList? && At(q) == LIST)
  }

  lemma AdvancesUse(c: Config, t: nat, a: Addr)
    requires t < |c.threads| && Step(c, t, a).Ok? && UsesElement(c.threads[t].pc)
    ensures |Step(c, t, a).c.threads| == |c.threads| && Advances(c.threads[t].pc, Step(c, t, a).c.threads[t].pc)
  {
  }

  lemma AdvancesWalk(c: Config, t: nat, a: Addr)
    requires t < |c.threads| && Step(c, t, a).Ok? && !UsesElement(c.threads[t].pc) && Fits(c.threads[t])
    ensures |Step(c, t, a).c.threads| == |c.threads| && Advances(c.threads[t].pc, Step(c, t, a).c.threads[t].pc)
  {
  }

  lemma AdvancesStep(c: Config, t: nat, a: Addr)
    requires t < |c.threads| && Step(c, t, a).Ok? && Fits(c.threads[t])
    ensures |Step(c, t, a).c.threads| == |c.threads| && Advances(c.threads[t].pc, Step(c, t, a).c.threads[t].pc)
  {
    if UsesElement(c.threads[t].pc) { AdvancesUse(c, t, a); } else { AdvancesWalk(c, t, a); }
  }

  /** An element leaves the chain only into the hands of the call that removes it. */
  lemma TakenOutIsDropping(c: Config, ch: seq<Addr>, v: nat, a: Addr, el: Addr)
    requires v < |c.threads| && Step(c, v, a).Ok? && el in ch && el !in NextChain(c, ch, v)
    requires Shape(c, ch)
    ensures Dropping(Step(c, v, a).c, el)
  {
    var pc := c.threads[v].pc;
    assert !pc.Link?;
    assert pc.LockContent? && Removes(c.threads[v].op) && IndexOf(ch, pc.el) < |ch|;
    IndexWithout(ch, IndexOf(ch, pc.el));
    assert el == pc.el;
    assert Step(c, v, a).c.threads[v].pc == Drop(pc.at, el, NULL, 0);
  }

  /** An element taken out is never linked in again, and is freed only by the call that took it. */
  lemma DroppingStays(c: Config, ch: seq<Addr>, v: nat, a: Addr, el: Addr)
    requires Shape(c, ch) && Apart(c) && v < |c.threads| && Step(c, v, a).Ok? && OneThread(c, v, Step(c, v, a).c)
    requires el != NULL && el !in ch && Dropping(c, el) && el in Step(c, v, a).c.cells
    ensures el !in NextChain(c, ch, v) && Dropping(Step(c, v, a).c, el)
  {
    var w :| 0 <= w < |c.threads| && c.threads[w].pc.Drop? && El(c.threads[w].pc) == el;
    if v == w {
      DropGoesOn(c, v, a);
    } else {
      assert Private(c.threads[w]) == el;
      var d, pc := Step(c, v, a).c, c.threads[v].pc;
      assert d.threads[w] == c.threads[w];
      if pc.Link? { assert Private(c.threads[v]) == c.threads[v].node != el; }
      if pc.LockContent? && IndexOf(ch, pc.el) < |ch| { WithoutDistinct(ch, IndexOf(ch, pc.el)); }
    }
  }

  lemma DropGoesOn(c: Config, v: nat, a: Addr)
    requires v < |c.threads| && Step(c, v, a).Ok? && c.threads[v].pc.Drop?
    requires El(c.threads[v].pc) in Step(c, v, a).c.cells
    ensures Dropping(Step(c, v, a).c, El(c.threads[v].pc))
  {
    assert Step(c, v, a).c.threads[v].pc.Drop?;
  }

  /** Both elements stay in the chain: `el` stays behind wherever `t` now stands. */
  lemma PassedInChain(c: Config, ch: seq<Addr>, v: nat, a: Addr, t: nat, el: Addr)
    requires Inv(c, ch) && Passed(c, ch, t, el) && v < |c.threads| && Step(c, v, a).Ok?
    requires var d, ch' := Step(c, v, a).c, NextChain(c, ch, v);
             && OneThread(c, v, d) && el in ch && el in ch' && At(d.threads[t].pc) != NULL && At(d.threads[t].pc) in ch'
    ensures var d, ch' := Step(c, v, a).c, NextChain(c, ch, v);
            IndexOf(ch', el) < IndexOf(ch', At(d.threads[t].pc))
  {
    var d, pc := Step(c, v, a).c, c.threads[t].pc;
    assert ThreadOk(c, ch, t, c.threads[t]) && ThreadOk(c, ch, v, c.threads[v]);
    AdvancesStep(c, v, a);
    NewLinkFree(c, ch, v, a);
    if v == t && pc.HandOver? { SuccFacts(ch, At(pc)); }
    assert At(d.threads[t].pc) in ch && IndexOf(ch, el) < IndexOf(ch, At(d.threads[t].pc));
    ChainOrder(c, ch, v, el, At(d.threads[t].pc));
  }

  lemma PassedStep(c: Config, ch: seq<Addr>, v: nat, a: Addr, t: nat, el: Addr)
    requires Sound(c, ch) && Passed(c, ch, t, el) && v < |c.threads| && Step(c, v, a).Ok?
    requires el in Step(c, v, a).c.cells
    ensures Sound(Step(c, v, a).c, NextChain(c, ch, v)) && Passed(Step(c, v, a).c, NextChain(c, ch, v), t, el)
  {
    StepSound(c, ch, v, a);
    StepProgram(c, v, a);
    var d, ch' := Step(c, v, a).c, NextChain(c, ch, v);
    if el !in ch {
      DroppingStays(c, ch, v, a, el);
    } else if el !in ch' {
      TakenOutIsDropping(c, ch, v, a, el);
    } else if At(d.threads[t].pc) != NULL {
      assert ThreadOk(d, ch', t, d.threads[t]);
      PassedInChain(c, ch, v, a, t, el);
    }
  }

  lemma PassedCall(c: Config, ch: seq<Addr>, op: Op, t: nat, el: Addr)
    requires Passed(c, ch, t, el)
    ensures Passed(Fire(c, Call(op)).c, ch, t, el)
  {
    if el !in ch {
      var v :| 0 <= v < |c.threads| && c.threads[v].pc.Drop? && El(c.threads[v].pc) == el;
      assert Fire(c, Call(op)).c.threads[v] == c.threads[v];
    }
  }

  lemma PassedFire(c: Config, ch: seq<Addr>, e: Event, t: nat, el: Addr) returns (ch': seq<Addr>)
    requires SoundAndPassed(c, ch, t, el) && Fire(c, e).Ok? && el in Fire(c, e).c.cells
    ensures SoundAndPassed(Fire(c, e).c, ch', t, el)
  {
    ch' := ch;
    match e
    case Call(op) =>
      CallSound(c, ch, op);
      PassedCall(c, ch, op, t, el);
    case Run(v, a) =>
      if v < |c.threads| && Step(c, v, a).Ok? {
        PassedStep(c, ch, v, a, t, el);
        ch' := NextChain(c, ch, v);
      }
  }

  /** The node is not freed while `s2` runs after `s1` (addresses are used again after a free). */
  ghost predicate StaysAllocated(s1: seq<Event>, s2: seq<Event>, el: Addr) {
    forall k :: 0 <= k <= |s2| ==> AllocatedAfter(s1 + s2[..k], el)
  }

  ghost predicate AllocatedAfter(schedule: seq<Event>, el: Addr) {
    Execute(INITIAL, schedule).Ok? && el in Reached(schedule).cells
  }

  lemma AllocatedThroughout(s1: seq<Event>, s2: seq<Event>, el: Addr)
    requires StaysAllocated(s1, s2, el)
    ensures AllocatedAfter(s1, el) && AllocatedAfter(s1 + s2, el)
    ensures s2 != [] ==>
              var init, e := s2[..|s2| - 1], s2[|s2| - 1];
              && StaysAllocated(s1, init, el) && AllocatedAfter(s1 + init, el)
              && Fire(Reached(s1 + init), e) == Execute(INITIAL, s1 + s2)
  {
    assert s2[..0] == [] && s1 + [] == s1 && s2[..|s2|] == s2;
    assert AllocatedAfter(s1 + s2[..0], el) && AllocatedAfter(s1 + s2[..|s2|], el);
    if s2 != [] {
      var init, e, s := s2[..|s2| - 1], s2[|s2| - 1], s1 + s2;
      assert s[..|s| - 1] == s1 + init && s[|s| - 1] == e;
      assert AllocatedAfter(s1 + init, el);
      forall k | 0 <= k <= |init| ensures AllocatedAfter(s1 + init[..k], el) {
        assert init[..k] == s2[..k];
      }
      ExecuteSnoc(INITIAL, s);
    }
  }

  ghost predicate SoundAndPassed(c: Config, ch: seq<Addr>, t: nat, el: Addr) {
    Sound(c, ch) && Passed(c, ch, t, el)
  }

  lemma {:induction false} StaysPassed(s1: seq<Event>, s2: seq<Event>, ch: seq<Addr>, t: nat, el: Addr)
    returns (ch': seq<Addr>)
    requires StaysAllocated(s1, s2, el) && Execute(INITIAL, s1).Ok? && Execute(INITIAL, s1 + s2).Ok?
    requires SoundAndPassed(Reached(s1), ch, t, el)
    ensures SoundAndPassed(Reached(s1 + s2), ch', t, el)
    decreases |s2|
  {
    AllocatedThroughout(s1, s2, el);
    if s2 == [] {
      assert s1 + s2 == s1;
      ch' := ch;
    } else {
      ch' := StaysPassed(s1, s2[..|s2| - 1], ch, t, el);
      ch' := PassedFire(Reached(s1 + s2[..|s2| - 1]), ch', s2[|s2| - 1], t, el);
    }
  }

  /** A call that entered before the holder of an element's usage lock has passed the element. */
  lemma EarlierHasPassed(schedule: seq<Event>, t: nat, u: nat, el: Addr) returns (ch: seq<Addr>)
    requires HeldByLater(schedule, t, u, el)
    ensures SoundAndPassed(Reached(schedule), ch, t, el)
  {
    ch := NoOvertaking(schedule);
    var c := Reached(schedule);
    assert ThreadOk(c, ch, t, c.threads[t]) && ThreadOk(c, ch, u, c.threads[u]) && LockOk(c, el);
    EnteredRank(c, t);
    HolderPlace(c, ch, u, el);
    if el in ch && At(c.threads[t].pc) != NULL { assert Ahead(c, ch, At(c.threads[t].pc), el); }
  }

  /** A held usage lock is that of an element in the chain, or of one being taken apart. */
  lemma HolderPlace(c: Config, ch: seq<Addr>, u: nat, el: Addr)
    requires Shape(c, ch) && u < |c.threads| && ThreadOk(c, ch, u, c.threads[u]) && HoldsUsage(c.threads[u].pc, el)
    ensures el in ch || Dropping(c, el)
  {
    if c.threads[u].pc.Drop? && El(c.threads[u].pc) == el { assert Dropping(c, el); }
    else if Adjacent(c.threads[u].pc) { SuccFacts(ch, At(c.threads[u].pc)); }
  }

  /** `u` holds the usage lock of `el`, and `t` locked the header before `u` did. */
  ghost predicate HeldByLater(schedule: seq<Event>, t: nat, u: nat, el: Addr) {
    && Execute(INITIAL, schedule).Ok?
    && var c := Reached(schedule);
       && t < |c.threads| && u < |c.threads| && Rank(c.entered, t) < Rank(c.entered, u)
       && el in c.cells && c.cells[el].usage == Held(u)
  }

  /** A call that has passed an element is not at a point that asks for its locks. */
  lemma PassedNeverAsks(c: Config, ch: seq<Addr>, t: nat, el: Addr)
    requires Inv(c, ch) && Passed(c, ch, t, el)
    ensures WaitsContent(c.threads[t].pc) != el && WaitsUsage(c.threads[t].pc) != el
  {
    assert ThreadOk(c, ch, t, c.threads[t]);
    if Adjacent(c.threads[t].pc) { SuccFacts(ch, At(c.threads[t].pc)); }
  }

  /** Once a call holds an element's usage lock, no call that locked the header earlier asks for
      either of that element's locks again, in any continuation that does not free the element. */
  lemma EarlierNeverAsks(s1: seq<Event>, s2: seq<Event>, t: nat, u: nat, el: Addr)
    requires HeldByLater(s1, t, u, el) && StaysAllocated(s1, s2, el) && Execute(INITIAL, s1 + s2).Ok?
    ensures t < |Reached(s1 + s2).threads|
    ensures WaitsContent(Reached(s1 + s2).threads[t].pc) != el
    ensures WaitsUsage(Reached(s1 + s2).threads[t].pc) != el
  {
    var ch := EarlierHasPassed(s1, t, u, el);
    ch := StaysPassed(s1, s2, ch, t, el);
    PassedNeverAsks(Reached(s1 + s2), ch, t, el);
  }

  lemma RankPrefix(log: seq<Entry>, more: seq<Entry>, t: nat)
    requires log <= more
    ensures Rank(log, t) < |log| ==> Rank(more, t) == Rank(log, t)
    ensures Rank(log, t) == |log| ==> Rank(more, t) >= |log|
  {
    var i, j := Rank(log, t), Rank(more, t);
    assert forall k :: 0 <= k < |log| ==> more[k] == log[k];
    if j < |log| { assert log[j].tid == t; }
    if i < |log| { assert more[i].tid == t; }
  }

  /** `t` is at the step that acquires the content lock of `el`. */
  ghost predicate AsksContent(schedule: seq<Event>, t: nat, el: Addr) {
    && Execute(INITIAL, schedule).Ok? && t < |Reached(schedule).threads| && el != NULL
    && WaitsContent(Reached(schedule).threads[t].pc) == el
  }

  /** A call that asks for an element's content lock holds the element's usage lock. */
  lemma AskerHolds(schedule: seq<Event>, t: nat, u: nat, el: Addr)
    requires AsksContent(schedule, u, el) && t != u
    ensures var c := Reached(schedule);
            && Rank(c.entered, u) < |c.entered| && Rank(c.entered, t) != Rank(c.entered, u)
            && (Rank(c.entered, t) < Rank(c.entered, u) ==> HeldByLater(schedule, t, u, el))
  {
    var ch := RunSound(schedule);
    var c := Reached(schedule);
    assert ThreadOk(c, ch, u, c.threads[u]);
    EnteredRank(c, u);
  }

  /** Content locks are granted in entry order: of two calls at the acquiring step for the same
      element at two points of a run, the one that is there first locked the header first. */
  lemma GrantedInEntryOrder(s1: seq<Event>, s2: seq<Event>, u: nat, t: nat, el: Addr)
    requires AsksContent(s1, u, el) && AsksContent(s1 + s2, t, el) && u != t && StaysAllocated(s1, s2, el)
    ensures Rank(Reached(s1 + s2).entered, u) < Rank(Reached(s1 + s2).entered, t)
  {
    AskerHolds(s1, t, u, el);
    if HeldByLater(s1, t, u, el) {
      EarlierNeverAsks(s1, s2, t, u, el);
      assert false;
    } else {
      RunSplit(s1, s2);
      RankPrefix(Reached(s1).entered, Reached(s1 + s2).entered, u);
      RankPrefix(Reached(s1).entered, Reached(s1 + s2).entered, t);
    }
  }
}
