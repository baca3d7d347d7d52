/** Main results about the concurrent list: no run faults, and every run gives each call the
    result it gets when the calls run one at a time in the order they locked the header. */
module Refinement {
  import opened ListSpec
  import opened Pipeline
  import opened Machine
  import opened Chains
  import opened Invariant
  import opened Abstraction
  import opened Simulation
  import opened Moves
  import opened Settling
  import opened Reshaping

  /** When removeElement destroys an element's mutexes, nobody is about to lock them. */
  lemma NobodyWaits(c: Config, ch: seq<Addr>, t: nat)
    requires Inv(c, ch) && t < |c.threads| && c.threads[t].pc.Drop?
    ensures Unwanted(c, c.threads[t].pc.el)
  {
    assert ThreadOk(c, ch, t, c.threads[t]);
    var el := c.threads[t].pc.el;
    forall u | 0 <= u < |c.threads| ensures WaitsUsage(c.threads[u].pc) != el && WaitsContent(c.threads[u].pc) != el {
      assert ThreadOk(c, ch, u, c.threads[u]);
      assert ch[0] in ch;
      if Adjacent(c.threads[u].pc) { SuccFacts(ch, At(c.threads[u].pc)); }
    }
  }

  lemma DropStep(c: Config, ch: seq<Addr>, t: nat, a: Addr)
    requires Inv(c, ch) && t < |c.threads| && c.threads[t].pc.Drop?
    ensures Simulates(c, ch, t, Step(c, t, a))
  {
    Localize(c, ch, t);
    NobodyWaits(c, ch, t);
    var stage := c.threads[t].pc.stage;
    if stage == 7 {
      FreeStep(c, ch, t, a);
    } else {
      if stage == 0 { DropReadQuiet(c, ch, t, a); }
      else if stage == 1 { DropUsageQuiet(c, ch, t, a); }
      else if stage == 2 { DropContentQuiet(c, ch, t, a); }
      else if stage == 3 { DestroyUsageQuiet(c, ch, t, a); }
      else if stage == 4 { DestroyContentQuiet(c, ch, t, a); }
      else if stage == 5 { DropPayloadQuiet(c, ch, t, a); }
      else { DropNameQuiet(c, ch, t, a); }
      QuietSimulates(c, ch, t, Step(c, t, a));
    }
  }

  /** Points from which every step is quiet. */
  predicate UsesElement(pc: Pc) {
    pc.HandOver? || pc.LockElem? || pc.EarlyRelease? || pc.UnlockElem? || pc.LateRelease? || pc.ReadSize? ||
    pc.CopyOut? || pc.FreePayload? || pc.AllocPayload? || pc.CopyIn? || pc.WriteSize? || pc.UnlockContent? ||
    pc.Unlink? || pc.Release? || pc.Done?
  }

  lemma UseStep(c: Config, ch: seq<Addr>, t: nat, a: Addr)
    requires LocalInv(c, ch, t) && UsesElement(c.threads[t].pc)
    ensures QuietStep(c, ch, t, Step(c, t, a))
  {
    var th := c.threads[t];
    match th.pc
    case HandOver(_, _) => HandOverQuiet(c, ch, t, a);
    case LockElem(_, _) => LockElemQuiet(c, ch, t, a);
    case EarlyRelease(_) => EarlyReleaseQuiet(c, ch, t, a);
    case UnlockElem(_, _) => UnlockElemQuiet(c, ch, t, a);
    case LateRelease(_, _) => LateReleaseQuiet(c, ch, t, a);
    case ReadSize(_, _) => ReadSizeQuiet(c, ch, t, a);
    case CopyOut(_, _, size) =>
      if |th.buf| == size { CopyOutEndQuiet(c, ch, t, a); } else { CopyOutByteQuiet(c, ch, t, a); }
    case FreePayload(_) => FreePayloadQuiet(c, ch, t, a);
    case AllocPayload(_) => AllocPayloadQuiet(c, ch, t, a);
    case CopyIn(el) =>
      if |c.cells[el].payload.data| == |th.op.data| { CopyInEndQuiet(c, ch, t, a); } else { CopyInByteQuiet(c, ch, t, a); }
    case WriteSize(_) => WriteSizeQuiet(c, ch, t, a);
    case UnlockContent(_, _, _) => UnlockContentQuiet(c, ch, t, a);
    case Unlink(_, _) =>
      if th.op.RemoveAll? { UnlinkAgainQuiet(c, ch, t, a); } else { UnlinkLastQuiet(c, ch, t, a); }
    case Release(_, _) => ReleaseQuiet(c, ch, t, a);
    case Done(_) =>
  }

  lemma WalkStep(c: Config, ch: seq<Addr>, t: nat, a: Addr)
    requires Inv(c, ch) && t < |c.threads| && (c.threads[t].pc.Look? || c.threads[t].pc.Compare? || c.threads[t].pc.LockNext?)
    ensures Simulates(c, ch, t, Step(c, t, a))
  {
    Localize(c, ch, t);
    var th := c.threads[t];
    match th.pc
    case Look(at) =>
      if c.cells[at].next != NULL {
        LookOnQuiet(c, ch, t, a);
        QuietSimulates(c, ch, t, Step(c, t, a));
      } else if Appends(th.op) {
        LookEndQuiet(c, ch, t, a);
        QuietSimulates(c, ch, t, Step(c, t, a));
      } else {
        LookEndStep(c, ch, t, a);
      }
    case Compare(_, el) =>
      if c.cells[el].id != th.op.id {
        CompareMissQuiet(c, ch, t, a);
        QuietSimulates(c, ch, t, Step(c, t, a));
      } else if th.op.AppendUnique? {
        TakenStep(c, ch, t, a);
      } else {
        CompareHitQuiet(c, ch, t, a);
        QuietSimulates(c, ch, t, Step(c, t, a));
      }
    case LockNext(_, _) =>
      if th.op.GetAllIds? {
        LockNextQuiet(c, ch, t, a);
        QuietSimulates(c, ch, t, Step(c, t, a));
      } else {
        LockNextStep(c, ch, t, a);
      }
  }

  /** Every step of every thread, from every state the invariant allows. */
  lemma StepSimulates(c: Config, ch: seq<Addr>, t: nat, a: Addr)
    requires Inv(c, ch) && t < |c.threads|
    ensures Simulates(c, ch, t, Step(c, t, a))
  {
    var pc := c.threads[t].pc;
    if UsesElement(pc) {
      Localize(c, ch, t);
      UseStep(c, ch, t, a);
      QuietSimulates(c, ch, t, Step(c, t, a));
    } else if pc.Drop? {
      DropStep(c, ch, t, a);
    } else if pc.Look? || pc.Compare? || pc.LockNext? {
      WalkStep(c, ch, t, a);
    } else if pc.LockList? {
      EnterStep(c, ch, t, a);
    } else if pc.Note? {
      NoteStep(c, ch, t, a);
    } else if pc.Link? {
      LinkStep(c, ch, t, a);
    } else if pc.LockContent? {
      if Removes(c.threads[t].op) { TakeOutStep(c, ch, t, a); } else { ContentStep(c, ch, t, a); }
    } else {
      BuildStep(c, ch, t, a);
    }
  }

  // ----- whole runs

  predicate HasEntered(th: Thread) { !th.pc.Create? && !th.pc.LockList? }

  /** The record lists each call that has locked the header exactly once. */
  ghost predicate Recorded(c: Config) {
    && (forall i :: 0 <= i < |c.entered| ==>
          && c.entered[i].tid < |c.threads| && HasEntered(c.threads[c.entered[i].tid])
          && c.threads[c.entered[i].tid].op == c.entered[i].op)
    && (forall i, j :: 0 <= i < j < |c.entered| ==> c.entered[i].tid != c.entered[j].tid)
    && (forall u :: 0 <= u < |c.threads| && HasEntered(c.threads[u]) ==> Listed(c, u))
  }

  ghost predicate Listed(c: Config, u: nat) {
    exists i :: 0 <= i < |c.entered| && c.entered[i].tid == u
  }

  /** The invariant of whole runs: the pipeline, drained, is the serial history so far. */
  ghost predicate Sound(c: Config, ch: seq<Addr>) {
    Inv(c, ch) && Recorded(c) && Total(Abs(c, ch)) == Serial(c.entered)
  }

  lemma InitialSound()
    ensures Sound(INITIAL, [LIST])
  {
    var c, ch := INITIAL, [LIST];
    assert Inv(c, ch) by {
      assert forall a :: a in c.cells ==> LockOk(c, a) && Owned(c, ch, a);
    }
    assert View(c, ch)[1..] == [];
    assert Promises(c) == map[];
    assert Drain(View(c, ch)) == Outcome([View(c, ch)[0].elem] + [], map[]);
    assert Abs(c, ch).done + map[] == map[];
  }

  /** What a step does to the thread table and to the record of entries. */
  ghost predicate OneThread(c: Config, t: nat, d: Config) {
    && t < |c.threads| == |d.threads| && d.threads[t].op == c.threads[t].op
    && (HasEntered(d.threads[t]) <==> HasEntered(c.threads[t]) || c.threads[t].pc.LockList?)
    && d.entered == c.entered + (if c.threads[t].pc.LockList? then [Entry(t, c.threads[t].op)] else [])
    && forall u :: 0 <= u < |c.threads| && u != t ==> d.threads[u] == c.threads[u]
  }

  lemma StepProgram(c: Config, t: nat, a: Addr)
    requires t < |c.threads| && Step(c, t, a).Ok?
    ensures OneThread(c, t, Step(c, t, a).c)
  {
    var pc := c.threads[t].pc;
    if UsesElement(pc) { UseProgram(c, t, a); }
    else if pc.Drop? { DropProgram(c, t, a); }
    else { WalkProgram(c, t, a); }
  }

  lemma UseProgram(c: Config, t: nat, a: Addr)
    requires t < |c.threads| && Step(c, t, a).Ok? && UsesElement(c.threads[t].pc)
    ensures OneThread(c, t, Step(c, t, a).c)
  {
  }

  lemma DropProgram(c: Config, t: nat, a: Addr)
    requires t < |c.threads| && Step(c, t, a).Ok? && c.threads[t].pc.Drop?
    ensures OneThread(c, t, Step(c, t, a).c)
  {
  }

  lemma WalkProgram(c: Config, t: nat, a: Addr)
    requires t < |c.threads| && Step(c, t, a).Ok? && !UsesElement(c.threads[t].pc) && !c.threads[t].pc.Drop?
    ensures OneThread(c, t, Step(c, t, a).c)
  {
  }

  lemma StepRecorded(c: Config, t: nat, a: Addr)
    requires t < |c.threads| && Step(c, t, a).Ok? && Recorded(c)
    ensures Recorded(Step(c, t, a).c)
  {
    StepProgram(c, t, a);
    RecordedFrom(c, t, Step(c, t, a).c);
  }

  lemma RecordedFrom(c: Config, t: nat, d: Config)
    requires Recorded(c) && OneThread(c, t, d)
    ensures Recorded(d)
  {
    forall u | 0 <= u < |d.threads| && HasEntered(d.threads[u]) ensures Listed(d, u) {
      if u == t && c.threads[t].pc.LockList? {
        assert d.entered[|c.entered|].tid == u;
      } else {
        assert Listed(c, u);
        var i :| 0 <= i < |c.entered| && c.entered[i].tid == u;
        assert d.entered[i].tid == u;
      }
    }
  }

  lemma StepSound(c: Config, ch: seq<Addr>, t: nat, a: Addr)
    requires Sound(c, ch) && t < |c.threads|
    ensures !Step(c, t, a).Fault?
    ensures Step(c, t, a).Ok? ==> Sound(Step(c, t, a).c, NextChain(c, ch, t))
  {
    StepSimulates(c, ch, t, a);
    if Step(c, t, a).Ok? {
      StepRecorded(c, t, a);
      var m := MoveOf(c, ch, t);
      if m.Enter? {
        EnterExtendsTotal(Abs(c, ch), m.tid, m.op);
        SerialSnoc(c.entered, Entry(m.tid, m.op));
      } else {
        MoveKeepsTotal(Abs(c, ch), m);
        assert c.entered + [] == c.entered;
      }
    }
  }

  lemma CallSound(c: Config, ch: seq<Addr>, op: Op)
    requires Sound(c, ch)
    ensures Sound(Fire(c, Call(op)).c, ch)
  {
    CallInv(c, ch, op);
    CallAbs(c, Fire(c, Call(op)).c, ch);
    CallRecorded(c, op);
  }

  lemma CallRecorded(c: Config, op: Op)
    requires Recorded(c)
    ensures Recorded(Fire(c, Call(op)).c)
  {
    var d := Fire(c, Call(op)).c;
    forall u | 0 <= u < |d.threads| && HasEntered(d.threads[u]) ensures Listed(d, u) {
      assert Listed(c, u);
      var i :| 0 <= i < |c.entered| && c.entered[i].tid == u;
      assert d.entered[i].tid == u;
    }
  }

  lemma CallInv(c: Config, ch: seq<Addr>, op: Op)
    requires Inv(c, ch)
    ensures Inv(Fire(c, Call(op)).c, ch)
  {
    var d := Fire(c, Call(op)).c;
    CallThreads(c, ch, op);
    forall a | a in d.cells ensures LockOk(d, a) && Owned(d, ch, a) {
      assert LockOk(c, a) && Owned(c, ch, a);
      if a !in ch {
        var u :| 0 <= u < |c.threads| && Private(c.threads[u]) == a;
        assert Private(d.threads[u]) == a;
      }
    }
    forall a | a in ch ensures LinkOk(d, ch, a) {
      assert LinkOk(c, ch, a) && LockOk(c, a);
    }
  }

  lemma CallThreads(c: Config, ch: seq<Addr>, op: Op)
    requires Inv(c, ch)
    ensures var d := Fire(c, Call(op)).c;
            (forall u :: 0 <= u < |d.threads| ==> ThreadOk(d, ch, u, d.threads[u])) && Apart(d)
  {
    var d := Fire(c, Call(op)).c;
    forall u | 0 <= u < |d.threads| ensures ThreadOk(d, ch, u, d.threads[u]) {
      if u < |c.threads| {
        assert ThreadOk(c, ch, u, c.threads[u]);
        SameCells(c, d, ch, u);
      } else {
        NewThread(d, ch, u, op);
      }
    }
  }

  lemma SameCells(c: Config, d: Config, ch: seq<Addr>, u: nat)
    requires d.cells == c.cells && u < |c.threads| <= |d.threads| && d.threads[u] == c.threads[u]
    requires ThreadOk(c, ch, u, c.threads[u])
    ensures ThreadOk(d, ch, u, d.threads[u])
  {
  }

  lemma NewThread(d: Config, ch: seq<Addr>, u: nat, op: Op)
    requires u < |d.threads| && d.threads[u] == Thread(op, if op.Append? then Create else LockList, NULL, 0, "", "")
    ensures ThreadOk(d, ch, u, d.threads[u])
  {
  }

  lemma CallAbs(c: Config, d: Config, ch: seq<Addr>)
    requires Inv(c, ch) && Inv(d, ch) && d.cells == c.cells && |d.threads| == |c.threads| + 1
    requires d.threads[..|c.threads|] == c.threads && !HasEntered(d.threads[|c.threads|])
    ensures Abs(d, ch) == Abs(c, ch)
  {
    forall i | 0 <= i < |ch| ensures View(d, ch)[i] == View(c, ch)[i] {
      assert ch[i] in ch;
      assert LockOk(c, ch[i]);
      assert AbsData(d, ch[i]) == AbsData(c, ch[i]);
      assert TokAt(d, ch[i]) == TokAt(c, ch[i]);
    }
    CallPromises(c, d, ch);
  }

  lemma CallPromise(c: Config, d: Config, ch: seq<Addr>, u: nat)
    requires Inv(c, ch) && d.cells == c.cells && |c.threads| <= |d.threads| && u < |c.threads|
    requires d.threads[..|c.threads|] == c.threads
    ensures d.threads[u] == c.threads[u] && (El(c.threads[u].pc) != NULL ==> El(c.threads[u].pc) in c.cells)
    ensures Promise(d, d.threads[u]) == Promise(c, c.threads[u])
  {
    assert d.threads[u] == d.threads[..|c.threads|][u];
    assert ThreadOk(c, ch, u, c.threads[u]);
    if HoldsContent(c.threads[u].pc) { assert LockOk(c, El(c.threads[u].pc)); }
    PromiseFrame(c, d, c.threads[u]);
  }

  lemma CallPromises(c: Config, d: Config, ch: seq<Addr>)
    requires Inv(c, ch) && Inv(d, ch) && d.cells == c.cells && |d.threads| == |c.threads| + 1
    requires d.threads[..|c.threads|] == c.threads && !HasEntered(d.threads[|c.threads|])
    ensures Abs(d, ch).done == Abs(c, ch).done
  {
    forall u | 0 <= u < |c.threads|
      ensures d.threads[u] == c.threads[u]
      ensures El(c.threads[u].pc) != NULL ==> El(c.threads[u].pc) in c.cells
      ensures Promise(d, d.threads[u]) == Promise(c, c.threads[u])
    {
      CallPromise(c, d, ch, u);
    }
    SamePromises(c, d);
  }

  lemma SamePromises(c: Config, d: Config)
    requires Located(c) && |d.threads| == |c.threads| + 1 && !HasEntered(d.threads[|c.threads|])
    requires forall u :: 0 <= u < |c.threads| ==> d.threads[u] == c.threads[u]
    requires forall u :: 0 <= u < |c.threads| && (El(d.threads[u].pc) != NULL ==> El(d.threads[u].pc) in d.cells) ==>
               Promise(d, d.threads[u]) == Promise(c, c.threads[u])
    requires d.cells == c.cells
    ensures Located(d) && Promises(d) == Promises(c)
  {
    assert Located(d);
  }

  /** One event keeps a state sound. */
  lemma FireSound(c: Config, ch: seq<Addr>, e: Event) returns (ch': seq<Addr>)
    requires Sound(c, ch)
    ensures Fire(c, e).Ok? && Sound(Fire(c, e).c, ch')
  {
    ch' := ch;
    match e
    case Call(op) => CallSound(c, ch, op);
    case Run(t, a) =>
      if t < |c.threads| {
        StepSound(c, ch, t, a);
        if Step(c, t, a).Ok? { ch' := NextChain(c, ch, t); }
      }
  }

  lemma ExecuteSnoc(c: Config, schedule: seq<Event>)
    requires schedule != [] && Execute(c, schedule[..|schedule| - 1]).Ok?
    ensures Execute(c, schedule) == Fire(Execute(c, schedule[..|schedule| - 1]).c, schedule[|schedule| - 1])
  {
  }

  /** Every state of every run is sound; in particular no run faults. */
  lemma {:induction false} RunSound(schedule: seq<Event>) returns (ch: seq<Addr>)
    ensures Execute(INITIAL, schedule).Ok? && Sound(Execute(INITIAL, schedule).c, ch)
  {
    if schedule == [] {
      ch := [LIST];
      InitialSound();
    } else {
      ch := RunSound(schedule[..|schedule| - 1]);
      ch := FireSound(Execute(INITIAL, schedule[..|schedule| - 1]).c, ch, schedule[|schedule| - 1]);
      ExecuteSnoc(INITIAL, schedule);
    }
  }
}
