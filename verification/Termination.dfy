/** A bound on the steps that any finite set of calls can still take. Each step a thread takes
    lowers its own share by at least one and raises nobody's. */
module Termination {
  import opened ListSpec
  import opened Machine
  import opened Chains
  import opened Invariant
  import opened Simulation
  import opened Refinement
  import opened Theorems
  import opened Progress

  function DataLen(op: Op): nat {
    if Appends(op) || op.Update? then |op.data| else 0
  }

  ghost predicate SmallCell(x: Cell, p: nat) {
    x.size <= p && (x.payload.Block? ==> |x.payload.data| <= p)
  }

  /** No payload is longer than `p`. */
  ghost predicate Sized(c: Config, p: nat) {
    && (forall t :: 0 <= t < |c.threads| ==> DataLen(c.threads[t].op) <= p)
    && (forall a :: a in c.cells ==> SmallCell(c.cells[a], p))
  }

  /** An operation that may still add an element. */
  function Pend(th: Thread): nat {
    if Appends(th.op) && !th.pc.Release? && !th.pc.Done? then 1 else 0
  }

  function PendSum(ths: seq<Thread>): nat {
    if ths == [] then 0 else Pend(ths[0]) + PendSum(ths[1..])
  }

  /** The longest the chain can still become. */
  function Room(c: Config, ch: seq<Addr>): nat {
    |ch| + PendSum(c.threads)
  }

  const PER_ELEMENT: int := 20

  /** Steps a walk can still take from `at`. */
  function Walk(ch: seq<Addr>, n: int, p: nat, at: Addr): int {
    PER_ELEMENT * (n - IndexOf(ch, at)) + p + 40
  }

  /** One thread's share of the bound. */
  function Left(c: Config, ch: seq<Addr>, n: int, p: nat, th: Thread): int {
    match th.pc
    case Create => Walk(ch, n, p, LIST) + 2
    case LockList => Walk(ch, n, p, LIST) + 1
    case Look(at) => Walk(ch, n, p, at)
    case Compare(at, _) => Walk(ch, n, p, at) - 1
    case LockNext(at, _) => Walk(ch, n, p, at) - 2
    case Note(at, _) => Walk(ch, n, p, at) - 3
    case HandOver(at, _) => Walk(ch, n, p, at) - 4
    case CreateAtEnd(_) => 4
    case Link(_) => 3
    case LockElem(at, _) => Walk(ch, n, p, at) - 3
    case LockContent(at, _) => Walk(ch, n, p, at) - 4
    case EarlyRelease(_) => p + 9
    case UnlockElem(_, _) => p + 8
    case LateRelease(_, _) => p + 7
    case FreePayload(_) => p + 6
    case AllocPayload(_) => p + 5
    case CopyIn(el) =>
      4 + DataLen(th.op) - (if el in c.cells && c.cells[el].payload.Block? then |c.cells[el].payload.data| else 0)
    case WriteSize(_) => 3
    case ReadSize(_, _) => p + 4
    case CopyOut(_, _, size) => 3 + size - |th.buf|
    case UnlockContent(_, _, _) => 2
    case Drop(_, _, _, stage) => 8 - stage + AfterUnlink(ch, n, p, th.op)
    case Unlink(_, _) => AfterUnlink(ch, n, p, th.op)
    case Release(_, _) => 1
    case Done(_) => 0
  }

  function AfterUnlink(ch: seq<Addr>, n: int, p: nat, op: Op): int {
    if op.RemoveAll? then Walk(ch, n, p, LIST) + 1 else 2
  }

  /** The bound for all threads together. */
  function LeftSum(c: Config, ch: seq<Addr>, n: int, p: nat, ths: seq<Thread>): int {
    if ths == [] then 0 else Left(c, ch, n, p, ths[0]) + LeftSum(c, ch, n, p, ths[1..])
  }

  function Budget(c: Config, ch: seq<Addr>, p: nat): int {
    LeftSum(c, ch, Room(c, ch), p, c.threads)
  }

  // ----- each thread's share

  /** The thread has left the walk: what it still does depends on its payload only. */
  predicate PastWalk(pc: Pc) {
    Reading(pc) || Writing(pc) || pc.UnlockContent? || pc.Release? || pc.Done? || pc.CreateAtEnd? || pc.Link?
  }

  lemma LeftPastWalk(c: Config, ch: seq<Addr>, n: int, p: nat, t: nat)
    requires LocalInv(c, ch, t) && PastWalk(c.threads[t].pc)
    ensures Left(c, ch, n, p, c.threads[t]) >= 0
    ensures !c.threads[t].pc.Done? ==> Left(c, ch, n, p, c.threads[t]) > 0
  {
  }

  lemma LeftOnWalk(c: Config, ch: seq<Addr>, n: int, p: nat, t: nat)
    requires LocalInv(c, ch, t) && n >= |ch| && !PastWalk(c.threads[t].pc)
    ensures Left(c, ch, n, p, c.threads[t]) > 0
  {
    IndexAt(ch, 0);
    var th := c.threads[t];
    if At(th.pc) != NULL { SuccFacts(ch, At(th.pc)); }
  }

  lemma LeftNonNegative(c: Config, ch: seq<Addr>, n: int, p: nat, t: nat)
    requires LocalInv(c, ch, t) && n >= |ch|
    ensures Left(c, ch, n, p, c.threads[t]) >= 0
    ensures !c.threads[t].pc.Done? ==> Left(c, ch, n, p, c.threads[t]) > 0
  {
    if PastWalk(c.threads[t].pc) { LeftPastWalk(c, ch, n, p, t); } else { LeftOnWalk(c, ch, n, p, t); }
  }

  /** The stepping thread's share goes down. */
  ghost predicate Shrinks(c: Config, ch: seq<Addr>, t: nat, d: Config, ch': seq<Addr>, n: int, n': int, p: nat) {
    t < |c.threads| && t < |d.threads| && Left(d, ch', n', p, d.threads[t]) < Left(c, ch, n, p, c.threads[t])
  }

  predicate Reading(pc: Pc) { pc.EarlyRelease? || pc.UnlockElem? || pc.ReadSize? || pc.CopyOut? }

  predicate Writing(pc: Pc) { pc.LateRelease? || pc.FreePayload? || pc.AllocPayload? || pc.CopyIn? || pc.WriteSize? }

  lemma OwnReleasing(c: Config, ch: seq<Addr>, t: nat, a: Addr, n: int, p: nat)
    requires LocalInv(c, ch, t) && (c.threads[t].pc.EarlyRelease? || c.threads[t].pc.UnlockElem?) && Step(c, t, a).Ok? && Sized(c, p)
    ensures Shrinks(c, ch, t, Step(c, t, a).c, ch, n, n, p)
  {
  }

  lemma OwnCopyingOut(c: Config, ch: seq<Addr>, t: nat, a: Addr, n: int, p: nat)
    requires LocalInv(c, ch, t) && (c.threads[t].pc.ReadSize? || c.threads[t].pc.CopyOut?) && Step(c, t, a).Ok? && Sized(c, p)
    ensures Shrinks(c, ch, t, Step(c, t, a).c, ch, n, n, p)
  {
    assert SmallCell(c.cells[El(c.threads[t].pc)], p);
  }

  lemma OwnReading(c: Config, ch: seq<Addr>, t: nat, a: Addr, n: int, p: nat)
    requires LocalInv(c, ch, t) && Reading(c.threads[t].pc) && Step(c, t, a).Ok? && Sized(c, p)
    ensures Shrinks(c, ch, t, Step(c, t, a).c, ch, n, n, p)
  {
    if c.threads[t].pc.EarlyRelease? || c.threads[t].pc.UnlockElem? { OwnReleasing(c, ch, t, a, n, p); } else { OwnCopyingOut(c, ch, t, a, n, p); }
  }

  lemma OwnCopyingIn(c: Config, ch: seq<Addr>, t: nat, a: Addr, n: int, p: nat)
    requires LocalInv(c, ch, t) && (c.threads[t].pc.CopyIn? || c.threads[t].pc.WriteSize?) && Step(c, t, a).Ok?
    ensures Shrinks(c, ch, t, Step(c, t, a).c, ch, n, n, p)
  {
  }

  lemma OwnReplacing(c: Config, ch: seq<Addr>, t: nat, a: Addr, n: int, p: nat)
    requires LocalInv(c, ch, t) && (c.threads[t].pc.LateRelease? || c.threads[t].pc.FreePayload? || c.threads[t].pc.AllocPayload?) && Step(c, t, a).Ok? && Sized(c, p)
    ensures Shrinks(c, ch, t, Step(c, t, a).c, ch, n, n, p)
  {
    assert DataLen(c.threads[t].op) <= p;
  }

  lemma OwnWriting(c: Config, ch: seq<Addr>, t: nat, a: Addr, n: int, p: nat)
    requires LocalInv(c, ch, t) && Writing(c.threads[t].pc) && Step(c, t, a).Ok? && Sized(c, p)
    ensures Shrinks(c, ch, t, Step(c, t, a).c, ch, n, n, p)
  {
    if c.threads[t].pc.CopyIn? || c.threads[t].pc.WriteSize? { OwnCopyingIn(c, ch, t, a, n, p); } else { OwnReplacing(c, ch, t, a, n, p); }
  }

  lemma OwnLockElem(c: Config, ch: seq<Addr>, t: nat, a: Addr, n: int, p: nat)
    requires LocalInv(c, ch, t) && c.threads[t].pc.LockElem? && Step(c, t, a).Ok?
    ensures Shrinks(c, ch, t, Step(c, t, a).c, ch, n, n, p)
  {
  }

  lemma OwnUnlockContent(c: Config, ch: seq<Addr>, t: nat, a: Addr, n: int, p: nat)
    requires LocalInv(c, ch, t) && c.threads[t].pc.UnlockContent? && Step(c, t, a).Ok?
    ensures Shrinks(c, ch, t, Step(c, t, a).c, ch, n, n, p)
  {
  }

  lemma OwnRelease(c: Config, ch: seq<Addr>, t: nat, a: Addr, n: int, p: nat)
    requires LocalInv(c, ch, t) && (c.threads[t].pc.Release? || c.threads[t].pc.Done?) && Step(c, t, a).Ok?
    ensures Shrinks(c, ch, t, Step(c, t, a).c, ch, n, n, p)
  {
  }

  lemma OwnEnding(c: Config, ch: seq<Addr>, t: nat, a: Addr, n: int, p: nat)
    requires LocalInv(c, ch, t) && Step(c, t, a).Ok?
    requires var pc := c.threads[t].pc; pc.UnlockContent? || pc.Release? || pc.LockElem? || pc.Done?
    ensures Shrinks(c, ch, t, Step(c, t, a).c, ch, n, n, p)
  {
    if c.threads[t].pc.LockElem? { OwnLockElem(c, ch, t, a, n, p); }
    else if c.threads[t].pc.UnlockContent? { OwnUnlockContent(c, ch, t, a, n, p); }
    else { OwnRelease(c, ch, t, a, n, p); }
  }

  lemma OwnUnlink(c: Config, ch: seq<Addr>, t: nat, a: Addr, n: int, p: nat)
    requires LocalInv(c, ch, t) && Step(c, t, a).Ok? && c.threads[t].pc.Unlink?
    ensures Shrinks(c, ch, t, Step(c, t, a).c, ch, n, n, p)
  {
  }

  lemma OwnDrop(c: Config, ch: seq<Addr>, t: nat, a: Addr, n: int, p: nat)
    requires LocalInv(c, ch, t) && c.threads[t].pc.Drop? && Step(c, t, a).Ok?
    ensures Shrinks(c, ch, t, Step(c, t, a).c, ch, n, n, p)
  {
  }

  lemma OwnLook(c: Config, ch: seq<Addr>, t: nat, a: Addr, n: int, p: nat)
    requires LocalInv(c, ch, t) && Step(c, t, a).Ok? && n >= |ch| && (c.threads[t].pc.LockList? || c.threads[t].pc.Look?)
    ensures Shrinks(c, ch, t, Step(c, t, a).c, ch, n, n, p)
  {
    if c.threads[t].pc.Look? { OwnFind(c, ch, t, a, n, p); }
  }

  lemma OwnFind(c: Config, ch: seq<Addr>, t: nat, a: Addr, n: int, p: nat)
    requires LocalInv(c, ch, t) && Step(c, t, a).Ok? && n >= |ch| && c.threads[t].pc.Look?
    ensures Shrinks(c, ch, t, Step(c, t, a).c, ch, n, n, p)
  {
    SuccFacts(ch, At(c.threads[t].pc));
  }

  lemma OwnCompare(c: Config, ch: seq<Addr>, t: nat, a: Addr, n: int, p: nat)
    requires LocalInv(c, ch, t) && Step(c, t, a).Ok? && n >= |ch| && c.threads[t].pc.Compare?
    ensures Shrinks(c, ch, t, Step(c, t, a).c, ch, n, n, p)
  {
    SuccFacts(ch, At(c.threads[t].pc));
  }

  lemma OwnHandOver(c: Config, ch: seq<Addr>, t: nat, a: Addr, n: int, p: nat)
    requires LocalInv(c, ch, t) && Step(c, t, a).Ok? && n >= |ch|
    requires var pc := c.threads[t].pc; pc.LockNext? || pc.Note? || pc.HandOver?
    ensures Shrinks(c, ch, t, Step(c, t, a).c, ch, n, n, p)
  {
    SuccFacts(ch, At(c.threads[t].pc));
  }

  lemma OwnWalk(c: Config, ch: seq<Addr>, t: nat, a: Addr, n: int, p: nat)
    requires LocalInv(c, ch, t) && Step(c, t, a).Ok? && n >= |ch|
    requires var pc := c.threads[t].pc; pc.Compare? || pc.LockNext? || pc.Note? || pc.HandOver?
    ensures Shrinks(c, ch, t, Step(c, t, a).c, ch, n, n, p)
  {
    if c.threads[t].pc.Compare? { OwnCompare(c, ch, t, a, n, p); } else { OwnHandOver(c, ch, t, a, n, p); }
  }

  lemma OwnBuild(c: Config, ch: seq<Addr>, t: nat, a: Addr, n: int, p: nat, ch': seq<Addr>)
    requires LocalInv(c, ch, t) && Step(c, t, a).Ok?
    requires var pc := c.threads[t].pc; pc.Create? || pc.CreateAtEnd? || pc.Link?
    requires ch' != [] && ch != [] && ch'[0] == ch[0]
    ensures Shrinks(c, ch, t, Step(c, t, a).c, ch', n, n, p)
  {
  }

  lemma OwnContent(c: Config, ch: seq<Addr>, t: nat, a: Addr, n: int, p: nat, ch': seq<Addr>)
    requires LocalInv(c, ch, t) && Step(c, t, a).Ok? && n >= |ch| && c.threads[t].pc.LockContent?
    requires ch' != [] && ch'[0] == LIST
    ensures Shrinks(c, ch, t, Step(c, t, a).c, ch', n, if Removes(c.threads[t].op) then n - 1 else n, p)
  {
    IndexAt(ch, 0);
    SuccFacts(ch, At(c.threads[t].pc));
  }

  /** A smaller horizon never raises a share. */
  lemma LeftMonotone(c: Config, ch: seq<Addr>, n: int, n': int, p: nat, th: Thread)
    requires n' <= n
    ensures Left(c, ch, n', p, th) <= Left(c, ch, n, p, th)
  {
  }

  // ----- the horizon

  lemma {:induction false} PendUpdate(ths: seq<Thread>, t: nat, th: Thread)
    requires t < |ths|
    ensures PendSum(ths[t := th]) == PendSum(ths) - Pend(ths[t]) + Pend(th)
  {
    if t == 0 {
      assert ths[t := th][1..] == ths[1..];
    } else {
      PendUpdate(ths[1..], t - 1, th);
      assert ths[t := th][1..] == ths[1..][t - 1 := th];
    }
  }

  lemma PendUse(c: Config, t: nat, a: Addr)
    requires t < |c.threads| && Step(c, t, a).Ok? && (UsesElement(c.threads[t].pc) || c.threads[t].pc.Drop?)
    ensures t < |Step(c, t, a).c.threads| && Pend(Step(c, t, a).c.threads[t]) <= Pend(c.threads[t])
  {
  }

  lemma PendWalk(c: Config, t: nat, a: Addr)
    requires t < |c.threads| && Step(c, t, a).Ok? && !UsesElement(c.threads[t].pc) && !c.threads[t].pc.Drop?
    ensures t < |Step(c, t, a).c.threads|
    ensures c.threads[t].pc.Link? && Appends(c.threads[t].op) ==>
              Pend(Step(c, t, a).c.threads[t]) + 1 <= Pend(c.threads[t])
    ensures Pend(Step(c, t, a).c.threads[t]) <= Pend(c.threads[t])
  {
  }

  /** The horizon never grows, and shrinks when an element is taken out. */
  lemma RoomStep(c: Config, ch: seq<Addr>, t: nat, a: Addr)
    requires Inv(c, ch) && t < |c.threads| && Step(c, t, a).Ok?
    ensures Room(Step(c, t, a).c, NextChain(c, ch, t)) <= Room(c, ch)
    ensures c.threads[t].pc.LockContent? && Removes(c.threads[t].op) ==>
              Room(Step(c, t, a).c, NextChain(c, ch, t)) <= Room(c, ch) - 1
  {
    StepProgram(c, t, a);
    var d := Step(c, t, a).c;
    if UsesElement(c.threads[t].pc) || c.threads[t].pc.Drop? { PendUse(c, t, a); } else { PendWalk(c, t, a); }
    assert d.threads == c.threads[t := d.threads[t]];
    PendUpdate(c.threads, t, d.threads[t]);
    assert ThreadOk(c, ch, t, c.threads[t]);
    if c.threads[t].pc.LockContent? { SuccFacts(ch, At(c.threads[t].pc)); }
  }

  /** Positions nearer the tail than the change keep their distance to the horizon. */
  lemma IndexShift(c: Config, ch: seq<Addr>, t: nat, a: Addr)
    requires Distinct(ch) && ch != [] && t < |c.threads| && a in ch && a in NextChain(c, ch, t)
    requires c.threads[t].pc.Link? ==> c.threads[t].node !in ch
    ensures IndexOf(NextChain(c, ch, t), a) >=
            IndexOf(ch, a) - (if c.threads[t].pc.LockContent? && Removes(c.threads[t].op) then 1 else 0)
  {
    match c.threads[t].pc
    case Link(_) => SuccAppend(ch, c.threads[t].node);
    case LockContent(_, el) =>
      if Removes(c.threads[t].op) && IndexOf(ch, el) < |ch| { IndexWithout(ch, IndexOf(ch, el)); }
    case _ =>
  }

  lemma OtherLeft(c: Config, ch: seq<Addr>, d: Config, ch': seq<Addr>, n: int, n': int, p: nat, t: nat, u: nat)
    requires Respects(c, ch, d, ch', t) && u < |c.threads| && u != t && ThreadOk(c, ch, u, c.threads[u])
    requires n' <= n && ch != [] && ch' != [] && ch'[0] == ch[0] == LIST
    requires At(c.threads[u].pc) != NULL ==>
               n' - IndexOf(ch', At(c.threads[u].pc)) <= n - IndexOf(ch, At(c.threads[u].pc))
    ensures Left(d, ch', n', p, d.threads[u]) <= Left(c, ch, n, p, c.threads[u])
  {
    var th := c.threads[u];
    if HoldsContent(th.pc) { assert d.cells[El(th.pc)].payload == c.cells[El(th.pc)].payload; }
  }

  lemma OwnShare(c: Config, ch: seq<Addr>, t: nat, a: Addr, n: int, p: nat, ch': seq<Addr>)
    requires LocalInv(c, ch, t) && Step(c, t, a).Ok? && Sized(c, p) && n >= |ch|
    requires ch' == NextChain(c, ch, t) && ch' != [] && ch'[0] == ch[0] && !c.threads[t].pc.LockContent?
    ensures Shrinks(c, ch, t, Step(c, t, a).c, ch', n, n, p)
  {
    var pc := c.threads[t].pc;
    if Reading(pc) { OwnReading(c, ch, t, a, n, p); }
    else if Writing(pc) { OwnWriting(c, ch, t, a, n, p); }
    else if pc.Drop? { OwnDrop(c, ch, t, a, n, p); }
    else if pc.Unlink? { OwnUnlink(c, ch, t, a, n, p); }
    else if pc.LockList? || pc.Look? { OwnLook(c, ch, t, a, n, p); }
    else if pc.Compare? || pc.LockNext? || pc.Note? || pc.HandOver? { OwnWalk(c, ch, t, a, n, p); }
    else if pc.Create? || pc.CreateAtEnd? || pc.Link? { OwnBuild(c, ch, t, a, n, p, ch'); }
    else { OwnEnding(c, ch, t, a, n, p); }
  }

  lemma OwnLeft(c: Config, ch: seq<Addr>, t: nat, a: Addr, n: int, n': int, p: nat, ch': seq<Addr>)
    requires LocalInv(c, ch, t) && Step(c, t, a).Ok? && Sized(c, p) && n >= |ch| && n' <= n
    requires ch' == NextChain(c, ch, t) && ch' != [] && ch'[0] == ch[0]
    requires c.threads[t].pc.LockContent? && Removes(c.threads[t].op) ==> n' <= n - 1
    ensures Shrinks(c, ch, t, Step(c, t, a).c, ch', n, n', p)
  {
    var m := if c.threads[t].pc.LockContent? && Removes(c.threads[t].op) then n - 1 else n;
    if c.threads[t].pc.LockContent? { OwnContent(c, ch, t, a, n, p, ch'); } else { OwnShare(c, ch, t, a, n, p, ch'); }
    LeftMonotone(Step(c, t, a).c, ch', m, n', p, Step(c, t, a).c.threads[t]);
  }

  lemma {:induction false} SumShrinks(c: Config, ch: seq<Addr>, n: int, d: Config, ch': seq<Addr>, n': int, p: nat,
                                      ths: seq<Thread>, ths': seq<Thread>)
    requires |ths| == |ths'|
    requires forall u :: 0 <= u < |ths| ==> Left(d, ch', n', p, ths'[u]) <= Left(c, ch, n, p, ths[u])
    ensures LeftSum(d, ch', n', p, ths') <= LeftSum(c, ch, n, p, ths)
    ensures (exists t :: 0 <= t < |ths| && Left(d, ch', n', p, ths'[t]) < Left(c, ch, n, p, ths[t])) ==>
              LeftSum(d, ch', n', p, ths') < LeftSum(c, ch, n, p, ths)
  {
    if ths != [] { SumShrinks(c, ch, n, d, ch', n', p, ths[1..], ths'[1..]); }
  }

  /** Every step that is not just waiting lowers the budget. */
  lemma BudgetShrinks(c: Config, ch: seq<Addr>, t: nat, a: Addr, p: nat)
    requires Inv(c, ch) && Sized(c, p) && t < |c.threads| && Step(c, t, a).Ok?
    ensures var d, ch' := Step(c, t, a).c, NextChain(c, ch, t);
            Inv(d, ch') && Budget(d, ch', p) < Budget(c, ch, p)
  {
    StepSimulates(c, ch, t, a);
    RoomStep(c, ch, t, a);
    Localize(c, ch, t);
    var d, ch' := Step(c, t, a).c, NextChain(c, ch, t);
    var n, n' := Room(c, ch), Room(d, ch');
    OwnLeft(c, ch, t, a, n, n', p, ch');
    OthersLeft(c, ch, t, a, p);
    SumShrinks(c, ch, n, d, ch', n', p, c.threads, d.threads);
  }

  lemma OthersLeft(c: Config, ch: seq<Addr>, t: nat, a: Addr, p: nat)
    requires Inv(c, ch) && t < |c.threads| && Step(c, t, a).Ok?
    requires Shape(Step(c, t, a).c, NextChain(c, ch, t)) && Respects(c, ch, Step(c, t, a).c, NextChain(c, ch, t), t)
    ensures var d, ch' := Step(c, t, a).c, NextChain(c, ch, t);
            forall u :: 0 <= u < |c.threads| && u != t ==>
              Left(d, ch', Room(d, ch'), p, d.threads[u]) <= Left(c, ch, Room(c, ch), p, c.threads[u])
  {
    var d, ch' := Step(c, t, a).c, NextChain(c, ch, t);
    RoomStep(c, ch, t, a);
    forall u | 0 <= u < |c.threads| && u != t
      ensures Left(d, ch', Room(d, ch'), p, d.threads[u]) <= Left(c, ch, Room(c, ch), p, c.threads[u])
    {
      OthersDistance(c, ch, t, a, u);
      OtherLeft(c, ch, d, ch', Room(c, ch), Room(d, ch'), p, t, u);
    }
  }

  lemma OthersDistance(c: Config, ch: seq<Addr>, t: nat, a: Addr, u: nat)
    requires Inv(c, ch) && t < |c.threads| && Step(c, t, a).Ok? && u < |c.threads| && u != t
    requires Respects(c, ch, Step(c, t, a).c, NextChain(c, ch, t), t)
    ensures ThreadOk(c, ch, u, c.threads[u])
    ensures At(c.threads[u].pc) != NULL ==>
              Room(Step(c, t, a).c, NextChain(c, ch, t)) - IndexOf(NextChain(c, ch, t), At(c.threads[u].pc)) <=
              Room(c, ch) - IndexOf(ch, At(c.threads[u].pc))
  {
    assert ThreadOk(c, ch, u, c.threads[u]) && ThreadOk(c, ch, t, c.threads[t]);
    RoomStep(c, ch, t, a);
    if At(c.threads[u].pc) != NULL {
      if c.threads[t].pc.Link? { assert Private(c.threads[t]) == c.threads[t].node; }
      IndexShift(c, ch, t, At(c.threads[u].pc));
    }
  }

  // ----- payload sizes

  lemma SizedWalk(c: Config, t: nat, a: Addr, p: nat)
    requires Sized(c, p) && t < |c.threads| && Step(c, t, a).Ok?
    requires !UsesElement(c.threads[t].pc) && !c.threads[t].pc.Drop?
    ensures forall x :: x in Step(c, t, a).c.cells ==> SmallCell(Step(c, t, a).c.cells[x], p)
  {
    assert DataLen(c.threads[t].op) <= p;
  }

  lemma SizedUse(c: Config, t: nat, a: Addr, p: nat)
    requires Sized(c, p) && t < |c.threads| && Step(c, t, a).Ok? && UsesElement(c.threads[t].pc)
    ensures forall x :: x in Step(c, t, a).c.cells ==> SmallCell(Step(c, t, a).c.cells[x], p)
  {
    assert DataLen(c.threads[t].op) <= p;
    if El(c.threads[t].pc) in c.cells { assert SmallCell(c.cells[El(c.threads[t].pc)], p); }
  }

  lemma SizedDrop(c: Config, t: nat, a: Addr, p: nat)
    requires Sized(c, p) && t < |c.threads| && Step(c, t, a).Ok? && c.threads[t].pc.Drop?
    ensures forall x :: x in Step(c, t, a).c.cells ==> SmallCell(Step(c, t, a).c.cells[x], p)
  {
  }

  lemma SizedStep(c: Config, t: nat, a: Addr, p: nat)
    requires Sized(c, p) && t < |c.threads| && Step(c, t, a).Ok?
    ensures Sized(Step(c, t, a).c, p)
  {
    StepProgram(c, t, a);
    if UsesElement(c.threads[t].pc) { SizedUse(c, t, a, p); }
    else if c.threads[t].pc.Drop? { SizedDrop(c, t, a, p); }
    else { SizedWalk(c, t, a, p); }
    var d := Step(c, t, a).c;
    forall u | 0 <= u < |d.threads| ensures DataLen(d.threads[u].op) <= p {
      assert DataLen(c.threads[u].op) <= p;
    }
  }

  // ----- whole runs without new calls

  ghost predicate OnlyRuns(schedule: seq<Event>) {
    forall i :: 0 <= i < |schedule| ==> schedule[i].Run?
  }

  /** How many events of the schedule are steps actually taken, not waits. */
  function StepsTaken(c: Config, schedule: seq<Event>): nat
    decreases |schedule|
  {
    if schedule == [] then 0 else
      match Fire(c, schedule[0])
      case Ok(d) => (if Moves(c, schedule[0]) then 1 else 0) + StepsTaken(d, schedule[1..])
      case _ => 0
  }

  predicate Moves(c: Config, e: Event) {
    e.Run? && e.t < |c.threads| && Step(c, e.t, e.a).Ok?
  }

  lemma StepTaken(c: Config, ch: seq<Addr>, t: nat, a: Addr, p: nat)
    requires Sound(c, ch) && Sized(c, p) && t < |c.threads|
    ensures !Step(c, t, a).Fault?
    ensures Step(c, t, a).Ok? ==>
              var d, ch' := Step(c, t, a).c, NextChain(c, ch, t);
              Sound(d, ch') && Sized(d, p) && Budget(d, ch', p) < Budget(c, ch, p)
  {
    StepSound(c, ch, t, a);
    if Step(c, t, a).Ok? {
      BudgetShrinks(c, ch, t, a, p);
      SizedStep(c, t, a, p);
    }
  }

  ghost predicate Fine(c: Config, ch: seq<Addr>, p: nat) {
    Sound(c, ch) && Sized(c, p)
  }

  /** From good states, steps lead to good states and lower `m`, which never goes below zero. */
  ghost predicate Measures(good: (Config, seq<Addr>) -> bool, m: (Config, seq<Addr>) -> int) {
    && (forall c, ch :: good(c, ch) ==> m(c, ch) >= 0)
    && (forall c: Config, ch: seq<Addr>, t: nat, a: Addr ::
          good(c, ch) && t < |c.threads| ==> Lowers(good, m, c, ch, t, a))
  }

  ghost predicate Lowers(good: (Config, seq<Addr>) -> bool, m: (Config, seq<Addr>) -> int,
                         c: Config, ch: seq<Addr>, t: nat, a: Addr)
    requires t < |c.threads|
  {
    match Step(c, t, a)
    case Fault => false
    case Blocked => true
    case Ok(d) => good(d, NextChain(c, ch, t)) && m(d, NextChain(c, ch, t)) < m(c, ch)
  }

  ghost function GoodFor(p: nat): (Config, seq<Addr>) -> bool {
    (c, ch) => Fine(c, ch, p)
  }

  function BudgetFor(p: nat): (Config, seq<Addr>) -> int {
    (c, ch) => Budget(c, ch, p)
  }

  lemma BudgetLowers(c: Config, ch: seq<Addr>, t: nat, a: Addr, p: nat)
    requires GoodFor(p)(c, ch) && t < |c.threads|
    ensures Lowers(GoodFor(p), BudgetFor(p), c, ch, t, a)
  {
    StepTaken(c, ch, t, a, p);
  }

  lemma BudgetPositive(c: Config, ch: seq<Addr>, p: nat)
    requires GoodFor(p)(c, ch)
    ensures BudgetFor(p)(c, ch) >= 0
  {
    BudgetNonNegative(c, ch, p);
  }

  lemma BudgetMeasures(p: nat)
    ensures Measures(GoodFor(p), BudgetFor(p))
  {
    var good, m := GoodFor(p), BudgetFor(p);
    forall c, ch | good(c, ch) ensures m(c, ch) >= 0 {
      BudgetPositive(c, ch, p);
    }
    forall c: Config, ch: seq<Addr>, t: nat, a: Addr | good(c, ch) && t < |c.threads|
      ensures Lowers(good, m, c, ch, t, a)
    {
      BudgetLowers(c, ch, t, a, p);
    }
  }

  lemma {:induction false} StepsWithin(good: (Config, seq<Addr>) -> bool, m: (Config, seq<Addr>) -> int,
                                       c: Config, ch: seq<Addr>, schedule: seq<Event>)
    requires Measures(good, m) && good(c, ch) && OnlyRuns(schedule)
    ensures StepsTaken(c, schedule) <= m(c, ch)
    decreases |schedule|
  {
    if schedule != [] {
      assert schedule[0].Run?;
      var t, a := schedule[0].t, schedule[0].a;
      if t < |c.threads| { assert Lowers(good, m, c, ch, t, a); }
      if t < |c.threads| && Step(c, t, a).Ok? {
        StepsWithin(good, m, Step(c, t, a).c, NextChain(c, ch, t), schedule[1..]);
      } else {
        StepsWithin(good, m, c, ch, schedule[1..]);
      }
    }
  }

  lemma {:induction false} SumNonNegative(c: Config, ch: seq<Addr>, n: int, p: nat, ths: seq<Thread>)
    requires forall u :: 0 <= u < |ths| ==> Left(c, ch, n, p, ths[u]) >= 0
    ensures LeftSum(c, ch, n, p, ths) >= 0
  {
    if ths != [] { SumNonNegative(c, ch, n, p, ths[1..]); }
  }

  lemma BudgetNonNegative(c: Config, ch: seq<Addr>, p: nat)
    requires Inv(c, ch)
    ensures Budget(c, ch, p) >= 0
  {
    forall u | 0 <= u < |c.threads| ensures Left(c, ch, Room(c, ch), p, c.threads[u]) >= 0 {
      Localize(c, ch, u);
      LeftNonNegative(c, ch, Room(c, ch), p, u);
    }
    SumNonNegative(c, ch, Room(c, ch), p, c.threads);
  }

  /** The budget in terms a reader of the state can compute. */
  function StepBound(c: Config, p: nat): int {
    |c.threads| * PerThread(c, p)
  }

  function PerThread(c: Config, p: nat): int {
    PER_ELEMENT * (|c.cells| + |c.threads|) + p + 49
  }

  lemma LeftBounded(c: Config, ch: seq<Addr>, n: nat, p: nat, t: nat)
    requires LocalInv(c, ch, t) && Sized(c, p) && n >= |ch|
    ensures Left(c, ch, n, p, c.threads[t]) <= PER_ELEMENT * n + p + 49
  {
    IndexAt(ch, 0);
    assert DataLen(c.threads[t].op) <= p;
    if c.threads[t].pc.CopyOut? { assert SmallCell(c.cells[El(c.threads[t].pc)], p); }
  }

  lemma {:induction false} SumBounded(c: Config, ch: seq<Addr>, n: int, p: nat, ths: seq<Thread>, b: int)
    requires forall u :: 0 <= u < |ths| ==> Left(c, ch, n, p, ths[u]) <= b
    ensures LeftSum(c, ch, n, p, ths) <= |ths| * b
  {
    if ths == [] {
      assert |ths| * b == 0;
    } else {
      SumBounded(c, ch, n, p, ths[1..], b);
      var k := |ths[1..]|;
      assert |ths| == k + 1;
      TimesSuccessor(k, b);
      assert Left(c, ch, n, p, ths[0]) <= b;
      assert LeftSum(c, ch, n, p, ths[1..]) <= k * b;
      assert LeftSum(c, ch, n, p, ths) <= (k + 1) * b;
    }
  }

  lemma TimesSuccessor(k: int, b: int)
    ensures (k + 1) * b == b + k * b
  {
  }

  lemma {:induction false} PendBounded(ths: seq<Thread>)
    ensures PendSum(ths) <= |ths|
  {
    if ths != [] { PendBounded(ths[1..]); }
  }

  lemma {:induction false} SubsetSize(s: set<nat>, u: set<nat>)
    requires s <= u
    ensures |s| <= |u|
  {
    if s != {} {
      var x :| x in s;
      SubsetSize(s - {x}, u - {x});
    }
  }

  lemma RoomBounded(c: Config, ch: seq<Addr>)
    requires Shape(c, ch)
    ensures |ch| <= Room(c, ch) <= |c.cells| + |c.threads|
  {
    PendBounded(c.threads);
    DistinctSize(ch);
    SubsetSize(Elements(ch), c.cells.Keys);
    assert |c.cells.Keys| == |c.cells|;
  }

  lemma EachBounded(c: Config, ch: seq<Addr>, n: nat, p: nat, b: int)
    requires Inv(c, ch) && Sized(c, p) && n >= |ch| && PER_ELEMENT * n + p + 49 <= b
    ensures forall u :: 0 <= u < |c.threads| ==> Left(c, ch, n, p, c.threads[u]) <= b
  {
    forall u | 0 <= u < |c.threads| ensures Left(c, ch, n, p, c.threads[u]) <= b {
      Localize(c, ch, u);
      LeftBounded(c, ch, n, p, u);
    }
  }

  lemma BudgetBounded(c: Config, ch: seq<Addr>, p: nat)
    requires Inv(c, ch) && Sized(c, p)
    ensures Budget(c, ch, p) <= StepBound(c, p)
  {
    RoomBounded(c, ch);
    EachBounded(c, ch, Room(c, ch), p, PerThread(c, p));
    SumBounded(c, ch, Room(c, ch), p, c.threads, PerThread(c, p));
  }

  // ----- every state has a longest payload

  lemma {:induction false} SomeDataLen(ths: seq<Thread>) returns (p: nat)
    ensures forall t :: 0 <= t < |ths| ==> DataLen(ths[t].op) <= p
  {
    p := 0;
    if ths != [] {
      p := SomeDataLen(ths[1..]);
      assert forall t :: 0 < t < |ths| ==> ths[t] == ths[1..][t - 1];
      if p < DataLen(ths[0].op) { p := DataLen(ths[0].op); }
    }
  }

  lemma {:induction false} SomeCellSize(cells: map<Addr, Cell>, keys: set<Addr>) returns (p: nat)
    requires keys <= cells.Keys
    ensures forall a :: a in keys ==> SmallCell(cells[a], p)
    decreases |keys|
  {
    p := 0;
    if keys != {} {
      var a :| a in keys;
      p := SomeCellSize(cells, keys - {a});
      var x := cells[a];
      p := p + x.size + (if x.payload.Block? then |x.payload.data| else 0);
    }
  }

  /** The assumption of `BoundedWork` can always be met. */
  lemma SomeSize(c: Config) returns (p: nat)
    ensures Sized(c, p)
  {
    var d := SomeDataLen(c.threads);
    p := SomeCellSize(c.cells, c.cells.Keys);
    p := d + p;
  }

  /** Bounded work: from any reachable state, however the pending calls are scheduled, they take
      at most `StepBound` steps in all (waits not counted) before they have all returned. */
  lemma BoundedWork(schedule: seq<Event>, more: seq<Event>, p: nat)
    requires Execute(INITIAL, schedule).Ok? && Sized(Reached(schedule), p) && OnlyRuns(more)
    ensures StepsTaken(Reached(schedule), more) <= StepBound(Reached(schedule), p)
  {
    var ch := RunSound(schedule);
    BudgetMeasures(p);
    StepsWithin(GoodFor(p), BudgetFor(p), Reached(schedule), ch, more);
    BudgetBounded(Reached(schedule), ch, p);
  }

  /** From every reachable state one bound holds for all ways of running the pending calls. */
  lemma AlwaysBounded(schedule: seq<Event>) returns (p: nat)
    requires Execute(INITIAL, schedule).Ok?
    ensures Sized(Reached(schedule), p)
    ensures forall more: seq<Event> :: OnlyRuns(more) ==>
              StepsTaken(Reached(schedule), more) <= StepBound(Reached(schedule), p)
  {
    p := SomeSize(Reached(schedule));
    forall more: seq<Event> | OnlyRuns(more)
      ensures StepsTaken(Reached(schedule), more) <= StepBound(Reached(schedule), p)
    {
      BoundedWork(schedule, more, p);
    }
  }

  lemma {:induction false} ExecuteCons(c: Config, e: Event, rest: seq<Event>)
    requires Fire(c, e).Ok?
    ensures Execute(c, [e] + rest) == Execute(Fire(c, e).c, rest)
  {
    var s := [e] + rest;
    if rest == [] {
      assert s[..|s| - 1] == [];
      assert Execute(c, s[..|s| - 1]) == Ok(c);
    } else {
      assert s[..|s| - 1] == [e] + rest[..|rest| - 1];
      ExecuteCons(c, e, rest[..|rest| - 1]);
    }
  }

  /** A run continued is the whole run. */
  lemma {:induction false} ExecuteSplit(c: Config, s1: seq<Event>, s2: seq<Event>)
    requires Execute(c, s1).Ok?
    ensures Execute(c, s1 + s2) == Execute(Execute(c, s1).c, s2)
    decreases |s2|
  {
    if s2 == [] {
      assert s1 + s2 == s1;
    } else {
      var s := s1 + s2;
      assert s[..|s| - 1] == s1 + s2[..|s2| - 1] && s[|s| - 1] == s2[|s2| - 1];
      ExecuteSplit(c, s1, s2[..|s2| - 1]);
    }
  }

  /** The count is that of the parts. */
  lemma {:induction false} StepsTakenSplit(c: Config, s1: seq<Event>, s2: seq<Event>)
    requires Execute(c, s1).Ok?
    ensures StepsTaken(c, s1 + s2) == StepsTaken(c, s1) + StepsTaken(Execute(c, s1).c, s2)
    decreases |s1|
  {
    if s1 == [] {
      assert s1 + s2 == s2;
    } else {
      var rest := s1[1..];
      assert s1 == [s1[0]] + rest && (s1 + s2)[1..] == rest + s2;
      FirstFires(c, s1);
      ExecuteCons(c, s1[0], rest);
      StepsTakenSplit(Fire(c, s1[0]).c, rest, s2);
    }
  }

  /** A run that succeeds succeeds in its first event. */
  lemma {:induction false} FirstFires(c: Config, s: seq<Event>)
    requires s != [] && Execute(c, s).Ok?
    ensures Fire(c, s[0]).Ok?
    decreases |s|
  {
    if |s| > 1 {
      FirstFires(c, s[..|s| - 1]);
    } else {
      assert s[..0] == [];
      assert Execute(c, s[..0]) == Ok(c);
    }
  }

  ghost predicate EachMoves(c: Config, s: seq<Event>) {
    forall i :: 0 <= i < |s| ==> MovesAt(c, s, i)
  }

  ghost predicate MovesAt(c: Config, s: seq<Event>, i: nat)
    requires i < |s|
  {
    Execute(c, s[..i]).Ok? && Moves(Execute(c, s[..i]).c, s[i])
  }

  /** Every step counts: all events are counted exactly if each of them moves its thread. */
  lemma {:induction false} AllStepsCount(c: Config, s: seq<Event>)
    requires Execute(c, s).Ok?
    ensures StepsTaken(c, s) <= |s| && (StepsTaken(c, s) == |s| <==> EachMoves(c, s))
    decreases |s|
  {
    if s != [] {
      var init, e := s[..|s| - 1], s[|s| - 1];
      AllStepsCount(c, init);
      StepsTakenSplit(c, init, [e]);
      assert s == init + [e];
      OneStepCounts(Execute(c, init).c, e);
      forall i | 0 <= i < |init| ensures MovesAt(c, s, i) == MovesAt(c, init, i) {
        assert s[..i] == init[..i];
      }
      assert MovesAt(c, s, |init|) <==> Moves(Execute(c, init).c, e);
    }
  }

  lemma OneStepCounts(c: Config, e: Event)
    requires Fire(c, e).Ok?
    ensures StepsTaken(c, [e]) == if Moves(c, e) then 1 else 0
  {
    assert [e][1..] == [];
  }

  ghost predicate NeverStuck(good: (Config, seq<Addr>) -> bool) {
    forall c, ch :: good(c, ch) && !Quiescent(c) ==> exists t: nat :: CanStep(c, t)
  }

  lemma {:induction false} FinishFrom(good: (Config, seq<Addr>) -> bool, m: (Config, seq<Addr>) -> int,
                                      c: Config, ch: seq<Addr>) returns (more: seq<Event>)
    requires Measures(good, m) && NeverStuck(good) && good(c, ch)
    ensures OnlyRuns(more) && Execute(c, more).Ok? && Quiescent(Execute(c, more).c)
    decreases m(c, ch)
  {
    if Quiescent(c) {
      more := [];
    } else {
      var t: nat :| CanStep(c, t);
      var a :| Step(c, t, a).Ok?;
      assert Lowers(good, m, c, ch, t, a);
      var rest := FinishFrom(good, m, Step(c, t, a).c, NextChain(c, ch, t));
      more := [Run(t, a)] + rest;
      ExecuteCons(c, Run(t, a), rest);
    }
  }

  /** From every reachable state the pending calls can be run to completion. */
  lemma CanFinish(schedule: seq<Event>) returns (more: seq<Event>)
    requires Execute(INITIAL, schedule).Ok?
    ensures OnlyRuns(more) && Execute(Reached(schedule), more).Ok?
    ensures Quiescent(Execute(Reached(schedule), more).c)
  {
    var ch := RunSound(schedule);
    var p := SomeSize(Reached(schedule));
    BudgetMeasures(p);
    forall c, h | GoodFor(p)(c, h) && !Quiescent(c) ensures exists t: nat :: CanStep(c, t) {
      SomeoneCanStep(c, h);
    }
    more := FinishFrom(GoodFor(p), BudgetFor(p), Reached(schedule), ch);
  }
}
