/** What the machine counts as a fault, said directly: which memory each step uses, which locks it
    takes, releases and destroys, and what it may find there. */
module Faults {
  import opened ListSpec
  import opened Machine
  import opened Invariant
  import opened Simulation
  import opened Refinement
  import opened Theorems

  /** The node whose memory the next step reads or writes (NULL: none). */
  function Uses(pc: Pc): Addr {
    match pc
    case LockList => LIST
    case Look(at) => at
    case Compare(_, el) => el
    case LockNext(_, el) => el
    case Note(_, el) => el
    case HandOver(at, _) => at
    case Link(at) => at
    case LockElem(_, el) => el
    case LockContent(_, el) => el
    case EarlyRelease(_) => LIST
    case UnlockElem(_, el) => el
    case LateRelease(at, _) => at
    case ReadSize(_, el) => el
    case CopyOut(_, el, _) => el
    case FreePayload(el) => el
    case AllocPayload(el) => el
    case CopyIn(el) => el
    case WriteSize(el) => el
    case UnlockContent(_, el, _) => el
    case Drop(_, el, _, _) => el
    case Unlink(at, _) => at
    case Release(at, _) => at
    case _ => NULL
  }

  predicate TakesUsage(pc: Pc) { pc.LockList? || pc.LockNext? || pc.LockElem? }

  predicate GivesUsage(pc: Pc) {
    pc.HandOver? || pc.EarlyRelease? || pc.UnlockElem? || pc.LateRelease? || pc.Release? || (pc.Drop? && pc.stage == 1)
  }

  predicate GivesContent(pc: Pc) { pc.UnlockContent? || (pc.Drop? && pc.stage == 2) }

  /** Points that read, write or free the payload block. */
  predicate UsesPayload(pc: Pc) { pc.CopyOut? || pc.FreePayload? || pc.CopyIn? || (pc.Drop? && pc.stage == 5) }

  /** Points that read or free the ID. */
  predicate UsesName(pc: Pc) { pc.Compare? || pc.Note? || (pc.Drop? && pc.stage == 6) }

  ghost predicate Awaited(c: Config, a: Addr) {
    exists u :: 0 <= u < |c.threads| && WaitsUsage(c.threads[u].pc) == a
  }

  ghost predicate ContentAwaited(c: Config, a: Addr) {
    exists u :: 0 <= u < |c.threads| && WaitsContent(c.threads[u].pc) == a
  }

  /** A lock is used against the rules: taken or released after its destruction, released by
      another than its owner, or destroyed while it is held or awaited. */
  ghost predicate LockMisused(c: Config, t: nat, x: Cell, a: Addr)
    requires t < |c.threads|
  {
    var pc := c.threads[t].pc;
    || (TakesUsage(pc) && x.usage.Destroyed?)
    || (pc.LockContent? && x.content.Destroyed?)
    || (GivesUsage(pc) && x.usage != Held(t))
    || (GivesContent(pc) && x.content != Held(t))
    || (pc.Drop? && pc.stage == 3 && (!x.usage.Open? || Awaited(c, a)))
    || (pc.Drop? && pc.stage == 4 && (!x.content.Open? || ContentAwaited(c, a)))
  }

  /** A payload or an ID is used after it was freed, a character is read that was never written,
      or one is written beyond the block. */
  predicate DataMisused(th: Thread, x: Cell) {
    || (UsesPayload(th.pc) && x.payload.Freed?)
    || (UsesName(th.pc) && !x.named)
    || (th.pc.CopyOut? && x.payload.Block? && |th.buf| != th.pc.size && |th.buf| >= |x.payload.data|)
    || (th.pc.CopyIn? && th.op.Update? && x.payload.Block? && |x.payload.data| != |th.op.data|
        && (|x.payload.data| > |th.op.data| || |x.payload.data| >= x.payload.cap))
  }

  /** The next step of thread `t` uses memory or a lock against the rules. */
  ghost predicate Misuse(c: Config, t: nat)
    requires t < |c.threads|
  {
    var a := Uses(c.threads[t].pc);
    && !c.threads[t].pc.Create? && !c.threads[t].pc.CreateAtEnd? && !c.threads[t].pc.Done?
    && (a !in c.cells || LockMisused(c, t, c.cells[a], a) || DataMisused(c.threads[t], c.cells[a]))
  }

  lemma FaultsUsing(c: Config, t: nat, a: Addr)
    requires t < |c.threads| && Fits(c.threads[t]) && UsesElement(c.threads[t].pc)
    ensures Step(c, t, a).Fault? <==> Misuse(c, t)
  {
  }

  lemma FaultsDropping(c: Config, t: nat, a: Addr)
    requires t < |c.threads| && Fits(c.threads[t]) && c.threads[t].pc.Drop?
    ensures Step(c, t, a).Fault? <==> Misuse(c, t)
  {
  }

  lemma FaultsWalking(c: Config, t: nat, a: Addr)
    requires t < |c.threads| && Fits(c.threads[t]) && !UsesElement(c.threads[t].pc) && !c.threads[t].pc.Drop?
    ensures Step(c, t, a).Fault? <==> Misuse(c, t)
  {
  }

  /** The machine faults exactly on misuse. */
  lemma FaultsAreMisuses(c: Config, t: nat, a: Addr)
    requires t < |c.threads| && Fits(c.threads[t])
    ensures Step(c, t, a).Fault? <==> Misuse(c, t)
  {
    if UsesElement(c.threads[t].pc) { FaultsUsing(c, t, a); }
    else if c.threads[t].pc.Drop? { FaultsDropping(c, t, a); }
    else { FaultsWalking(c, t, a); }
  }

  /** In no reachable state is any thread about to misuse memory or a lock. */
  lemma NoMisuse(schedule: seq<Event>, t: nat)
    requires Execute(INITIAL, schedule).Ok? && t < |Reached(schedule).threads|
    ensures !Misuse(Reached(schedule), t)
  {
    var ch := RunSound(schedule);
    var c := Reached(schedule);
    assert ThreadOk(c, ch, t, c.threads[t]);
    FaultsAreMisuses(c, t, 0);
    StepSimulates(c, ch, t, 0);
  }

  // ----- nothing is left behind

  /** What removeElement has destroyed and freed so far. */
  ghost predicate Dismantled(th: Thread, x: Cell) {
    th.pc.Drop? ==>
      && (4 <= th.pc.stage ==> x.usage.Destroyed?)
      && (5 <= th.pc.stage ==> x.content.Destroyed?)
      && (6 <= th.pc.stage ==> x.payload.Freed?)
      && (7 <= th.pc.stage ==> !x.named)
  }

  ghost predicate AllDismantled(c: Config) {
    forall u :: 0 <= u < |c.threads| && El(c.threads[u].pc) in c.cells ==> Dismantled(c.threads[u], c.cells[El(c.threads[u].pc)])
  }

  lemma OwnDismantled(c: Config, t: nat, a: Addr)
    requires t < |c.threads| && Step(c, t, a).Ok? && c.threads[t].pc.Drop? && AllDismantled(c)
    ensures var d := Step(c, t, a).c;
            t < |d.threads| && (El(d.threads[t].pc) in d.cells ==> Dismantled(d.threads[t], d.cells[El(d.threads[t].pc)]))
  {
  }

  lemma StartsWhole(c: Config, t: nat, a: Addr)
    requires t < |c.threads| && Step(c, t, a).Ok? && !c.threads[t].pc.Drop?
    ensures var d := Step(c, t, a).c;
            t < |d.threads| && (d.threads[t].pc.Drop? ==> d.threads[t].pc.stage == 0)
  {
    if UsesElement(c.threads[t].pc) { UsersStayWhole(c, t, a); }
  }

  lemma UsersStayWhole(c: Config, t: nat, a: Addr)
    requires t < |c.threads| && Step(c, t, a).Ok? && UsesElement(c.threads[t].pc)
    ensures t < |Step(c, t, a).c.threads| && !Step(c, t, a).c.threads[t].pc.Drop?
  {
  }

  lemma StepDismantled(c: Config, ch: seq<Addr>, t: nat, a: Addr)
    requires Inv(c, ch) && t < |c.threads| && Step(c, t, a).Ok? && AllDismantled(c)
    ensures AllDismantled(Step(c, t, a).c)
  {
    StepSimulates(c, ch, t, a);
    var d := Step(c, t, a).c;
    if c.threads[t].pc.Drop? { OwnDismantled(c, t, a); } else { StartsWhole(c, t, a); }
    forall u | 0 <= u < |d.threads| && El(d.threads[u].pc) in d.cells ensures Dismantled(d.threads[u], d.cells[El(d.threads[u].pc)]) {
      if u != t { OthersDismantled(c, ch, d, NextChain(c, ch, t), t, u); }
    }
  }

  lemma OthersDismantled(c: Config, ch: seq<Addr>, d: Config, ch': seq<Addr>, t: nat, u: nat)
    requires ThreadsOk(c, ch) && Respects(c, ch, d, ch', t) && AllDismantled(c) && u < |c.threads| && u != t
    requires El(d.threads[u].pc) in d.cells
    ensures Dismantled(d.threads[u], d.cells[El(d.threads[u].pc)])
  {
    assert ThreadOk(c, ch, u, c.threads[u]);
    if c.threads[u].pc.Drop? {
      assert Private(c.threads[u]) == El(c.threads[u].pc);
      assert Kept(c, d, ch', Private(c.threads[u]));
    }
  }

  lemma {:induction false} RunDismantled(schedule: seq<Event>) returns (ch: seq<Addr>)
    ensures Execute(INITIAL, schedule).Ok? && Sound(Execute(INITIAL, schedule).c, ch)
    ensures AllDismantled(Execute(INITIAL, schedule).c)
  {
    if schedule == [] {
      ch := [LIST];
      InitialSound();
    } else {
      var init, e := schedule[..|schedule| - 1], schedule[|schedule| - 1];
      ch := RunDismantled(init);
      FireDismantled(Execute(INITIAL, init).c, ch, e);
      ch := FireSound(Execute(INITIAL, init).c, ch, e);
      ExecuteSnoc(INITIAL, schedule);
    }
  }

  lemma FireDismantled(c: Config, ch: seq<Addr>, e: Event)
    requires Inv(c, ch) && AllDismantled(c)
    ensures Fire(c, e).Ok? ==> AllDismantled(Fire(c, e).c)
  {
    match e
    case Call(op) =>
      var d := Fire(c, e).c;
      forall u | 0 <= u < |d.threads| && El(d.threads[u].pc) in d.cells ensures Dismantled(d.threads[u], d.cells[El(d.threads[u].pc)]) {
        if u < |c.threads| { assert d.threads[u] == c.threads[u]; }
      }
    case Run(t, a) => if t < |c.threads| && Step(c, t, a).Ok? { StepDismantled(c, ch, t, a); }
  }

  /** Only the last step of removeElement frees a node. */
  lemma FreedAtTheEnd(c: Config, t: nat, a: Addr, x: Addr)
    requires t < |c.threads| && Step(c, t, a).Ok? && Fits(c.threads[t]) && x in c.cells && x !in Step(c, t, a).c.cells
    ensures c.threads[t].pc.Drop? && c.threads[t].pc.stage == 7 && x == El(c.threads[t].pc)
  {
    if UsesElement(c.threads[t].pc) { UsersFreeNothing(c, t, a); }
  }

  lemma UsersFreeNothing(c: Config, t: nat, a: Addr)
    requires t < |c.threads| && Step(c, t, a).Ok? && UsesElement(c.threads[t].pc)
    ensures c.cells.Keys <= Step(c, t, a).c.cells.Keys
  {
  }

  /** Nothing is left behind: whenever a step frees a node, both its mutexes have been destroyed
      and its payload and its ID have been freed. */
  lemma NothingLeftBehind(schedule: seq<Event>, t: nat, a: Addr, x: Addr)
    requires Execute(INITIAL, schedule).Ok? && t < |Reached(schedule).threads| && Step(Reached(schedule), t, a).Ok?
    requires x in Reached(schedule).cells && x !in Step(Reached(schedule), t, a).c.cells
    ensures var y := Reached(schedule).cells[x]; y.usage.Destroyed? && y.content.Destroyed? && y.payload.Freed? && !y.named
  {
    var ch := RunDismantled(schedule);
    var c := Reached(schedule);
    assert ThreadOk(c, ch, t, c.threads[t]);
    FreedAtTheEnd(c, t, a, x);
    assert El(c.threads[t].pc) in c.cells;
  }
}
