/** Every step of the machine is a move of the pipeline, and none of them faults. */
module Simulation {
  import opened ListSpec
  import opened Pipeline
  import opened Machine
  import opened Chains
  import opened Invariant
  import opened Preserve
  import opened Abstraction

  /** The pipeline move that the next step of thread `t` amounts to, if it is not blocked. */
  function MoveOf(c: Config, ch: seq<Addr>, t: nat): Move
    requires t < |c.threads|
  {
    var th := c.threads[t];
    match th.pc
    case LockList => Enter(t, th.op)
    case Look(at) =>
      if at in c.cells && c.cells[at].next == NULL && !Appends(th.op) then FinishAt(IndexOf(ch, at)) else Stay
    case Compare(at, el) =>
      if el in c.cells && th.op.AppendUnique? && c.cells[el].id == th.op.id then StopAt(IndexOf(ch, at)) else Stay
    case LockNext(at, _) => if th.op.GetAllIds? then Stay else PassOn(IndexOf(ch, at))
    case Note(at, _) => PassOn(IndexOf(ch, at))
    case Link(at) => FinishAt(IndexOf(ch, at))
    case LockContent(at, _) => if th.op.RemoveAll? then SwallowAt(IndexOf(ch, at)) else StopAt(IndexOf(ch, at))
    case _ => Stay
  }

  /** The chain after that step. */
  function NextChain(c: Config, ch: seq<Addr>, t: nat): seq<Addr>
    requires t < |c.threads|
  {
    var th := c.threads[t];
    match th.pc
    case Link(_) => ch + [th.node]
    case LockContent(_, el) =>
      if Removes(th.op) && IndexOf(ch, el) < |ch| then Without(ch, IndexOf(ch, el)) else ch
    case _ => ch
  }

  ghost predicate Simulates(c: Config, ch: seq<Addr>, t: nat, r: StepResult)
    requires Inv(c, ch) && t < |c.threads|
  {
    match r
    case Fault => false
    case Blocked => true
    case Ok(c') =>
      var m, ch' := MoveOf(c, ch, t), NextChain(c, ch, t);
      && Inv(c', ch') && Respects(c, ch, c', ch', t) && c'.threads[t].op == c.threads[t].op
      && Enabled(Abs(c, ch), m) && Abs(c', ch') == After(Abs(c, ch), m)
      && c'.entered == c.entered + (if m.Enter? then [Entry(m.tid, m.op)] else [])
  }

  lemma MoveSimulates(c: Config, ch: seq<Addr>, t: nat, d: Config, ch': seq<Addr>, m: Move)
    requires Inv(c, ch) && t < |c.threads| && MoveOf(c, ch, t) == m && NextChain(c, ch, t) == ch' && !m.Enter?
    requires Inv(d, ch') && Respects(c, ch, d, ch', t) && Enabled(Abs(c, ch), m) && Abs(d, ch') == After(Abs(c, ch), m)
    requires d.threads[t].op == c.threads[t].op && d.entered == c.entered
    ensures Simulates(c, ch, t, Ok(d))
  {
    assert c.entered + [] == c.entered;
  }

  /** What the invariant says about one thread and the cells it deals with. */
  ghost predicate LocalInv(c: Config, ch: seq<Addr>, t: nat) {
    && Shape(c, ch) && t < |c.threads| && ThreadOk(c, ch, t, c.threads[t])
    && var at, el := At(c.threads[t].pc), El(c.threads[t].pc);
       && (at != NULL ==> at in c.cells && LinkOk(c, ch, at) && LockOk(c, at) && (at != LIST ==> NodeOk(c.cells[at])))
       && (el != NULL ==> el in c.cells && LockOk(c, el))
       && (el in ch && el != LIST ==> el in c.cells && NodeOk(c.cells[el]) && LinkOk(c, ch, el))
       && LIST in c.cells && LockOk(c, LIST)
  }

  lemma Localize(c: Config, ch: seq<Addr>, t: nat)
    requires Inv(c, ch) && t < |c.threads|
    ensures LocalInv(c, ch, t)
  {
    assert ThreadOk(c, ch, t, c.threads[t]);
    assert ch[0] in ch;
  }

  /** Thread `t` becomes `th` and cell `x` becomes `y`. */
  function Edit(c: Config, t: nat, x: Addr, y: Cell, th: Thread): Config
    requires t < |c.threads|
  {
    c.(cells := c.cells[x := y], threads := c.threads[t := th])
  }

  /** The heap side of a step that the pipeline does not see. */
  ghost predicate QuietHeap(c: Config, ch: seq<Addr>, t: nat, x: Addr, y: Cell, th: Thread) {
    && t < |c.threads| && x in c.cells
    && FairCell(ch, t, x, c.cells[x], y, c.threads[t], th)
    && ThreadOk(c, ch, t, c.threads[t]) && ThreadOk(Edit(c, t, x, y, th), ch, t, th)
    && Promise(Edit(c, t, x, y, th), th) == Promise(c, c.threads[t])
    && (x in ch ==> AbsData(Edit(c, t, x, y, th), x) == AbsData(c, x))
  }

  /** Its thread side. */
  ghost predicate QuietThread(c: Config, ch: seq<Addr>, t: nat, x: Addr, y: Cell, th: Thread) {
    && t < |c.threads| && x in c.cells
    && FairThread(x, c.threads[t], th)
    && FairLink(ch, x, c.cells[x], y, c.threads[t], th)
    && th.op == c.threads[t].op
    && TokenPlace(th) == TokenPlace(c.threads[t])
    && (TokenPlace(th) != NULL ==> TokenOf(t, th) == TokenOf(t, c.threads[t]))
    && MoveOf(c, ch, t) == Stay && NextChain(c, ch, t) == ch
  }

  lemma QuietInv(c: Config, ch: seq<Addr>, t: nat, x: Addr, y: Cell, th: Thread)
    requires Inv(c, ch) && QuietHeap(c, ch, t, x, y, th) && QuietThread(c, ch, t, x, y, th)
    ensures Inv(Edit(c, t, x, y, th), ch) && Respects(c, ch, Edit(c, t, x, y, th), ch, t)
  {
    OneCell(c, ch, t, x, y, th, Edit(c, t, x, y, th));
  }

  lemma QuietAbs(c: Config, ch: seq<Addr>, t: nat, x: Addr, y: Cell, th: Thread)
    requires Inv(c, ch) && QuietHeap(c, ch, t, x, y, th) && QuietThread(c, ch, t, x, y, th)
    requires Inv(Edit(c, t, x, y, th), ch) && Respects(c, ch, Edit(c, t, x, y, th), ch, t)
    ensures Abs(Edit(c, t, x, y, th), ch) == Abs(c, ch)
  {
    var c' := Edit(c, t, x, y, th);
    QuietData(c, ch, t, x, y, th, c');
    Invisible(c, ch, c', t);
  }

  lemma Quiet(c: Config, ch: seq<Addr>, t: nat, x: Addr, y: Cell, th: Thread)
    requires Inv(c, ch) && QuietHeap(c, ch, t, x, y, th) && QuietThread(c, ch, t, x, y, th)
    ensures Simulates(c, ch, t, Ok(Edit(c, t, x, y, th)))
  {
    QuietInv(c, ch, t, x, y, th);
    QuietAbs(c, ch, t, x, y, th);
    MoveSimulates(c, ch, t, Edit(c, t, x, y, th), ch, Stay);
  }

  lemma QuietData(c: Config, ch: seq<Addr>, t: nat, x: Addr, y: Cell, th: Thread, c': Config)
    requires Inv(c, ch) && Changes(c, t, x, y, th, c') && Respects(c, ch, c', ch, t)
    requires th.op == c.threads[t].op
    requires x in ch ==> AbsData(c', x) == AbsData(c, x)
    ensures forall a :: a in ch && a in c.cells && a in c'.cells ==> AbsData(c', a) == AbsData(c, a)
  {
    forall a | a in ch && a in c.cells && a in c'.cells ensures AbsData(c', a) == AbsData(c, a) {
      if a != x { DataSame(c, ch, c', ch, t, a); }
    }
  }

  /** The next step is quiet, whatever the lock it may have to wait for. */
  ghost predicate QuietStep(c: Config, ch: seq<Addr>, t: nat, r: StepResult) {
    match r
    case Fault => false
    case Blocked => true
    case Ok(c') =>
      exists x, y, th :: QuietHeap(c, ch, t, x, y, th) && QuietThread(c, ch, t, x, y, th) && c' == Edit(c, t, x, y, th)
  }

  lemma QuietSimulates(c: Config, ch: seq<Addr>, t: nat, r: StepResult)
    requires Inv(c, ch) && t < |c.threads| && QuietStep(c, ch, t, r)
    ensures Simulates(c, ch, t, r)
  {
    if r.Ok? {
      var x, y, th :| QuietHeap(c, ch, t, x, y, th) && QuietThread(c, ch, t, x, y, th) && r.c == Edit(c, t, x, y, th);
      Quiet(c, ch, t, x, y, th);
    }
  }

  /** One more character copied. */
  function Copied(b: Buffer, data: string): Buffer {
    if b.Block? && |b.data| < |data| then Block(b.cap, b.data + [data[|b.data|]]) else b
  }

  /** No thread is about to lock this element. */
  ghost predicate Unwanted(c: Config, el: Addr) {
    forall u :: 0 <= u < |c.threads| ==> WaitsUsage(c.threads[u].pc) != el && WaitsContent(c.threads[u].pc) != el
  }

  lemma LockNextHeap(c: Config, ch: seq<Addr>, t: nat)
    requires LocalInv(c, ch, t) && c.threads[t].pc.LockNext? && c.threads[t].op.GetAllIds?
    requires var pc := c.threads[t].pc; c.cells[pc.el].usage.Open?
    ensures var th := c.threads[t]; var pc := th.pc;
            QuietHeap(c, ch, t, pc.el, c.cells[pc.el].(usage := Held(t)), th.(pc := Note(pc.at, pc.el)))
  {
    SuccFacts(ch, c.threads[t].pc.at);
  }

  lemma LockNextQuiet(c: Config, ch: seq<Addr>, t: nat, a: Addr)
    requires LocalInv(c, ch, t) && c.threads[t].pc.LockNext? && c.threads[t].op.GetAllIds?
    ensures QuietStep(c, ch, t, Step(c, t, a))
  {
    var th := c.threads[t];
    var pc := th.pc;
    if c.cells[pc.el].usage.Open? {
      LockNextHeap(c, ch, t);
      assert QuietThread(c, ch, t, pc.el, c.cells[pc.el].(usage := Held(t)), th.(pc := Note(pc.at, pc.el)));
      assert Step(c, t, a) == Ok(Edit(c, t, pc.el, c.cells[pc.el].(usage := Held(t)), th.(pc := Note(pc.at, pc.el))));
    }
  }

  lemma HandOverHeap(c: Config, ch: seq<Addr>, t: nat)
    requires LocalInv(c, ch, t) && c.threads[t].pc.HandOver?
    ensures var th := c.threads[t]; var pc := th.pc;
            QuietHeap(c, ch, t, pc.at, c.cells[pc.at].(usage := Open), th.(pc := Look(pc.el)))
  {
    SuccFacts(ch, c.threads[t].pc.at);
  }

  lemma HandOverQuiet(c: Config, ch: seq<Addr>, t: nat, a: Addr)
    requires LocalInv(c, ch, t) && c.threads[t].pc.HandOver?
    ensures QuietStep(c, ch, t, Step(c, t, a))
  {
    var th := c.threads[t];
    var pc := th.pc;
    HandOverHeap(c, ch, t);
    assert QuietThread(c, ch, t, pc.at, c.cells[pc.at].(usage := Open), th.(pc := Look(pc.el)));
    assert Step(c, t, a) == Ok(Edit(c, t, pc.at, c.cells[pc.at].(usage := Open), th.(pc := Look(pc.el))));
  }

  lemma LockElemHeap(c: Config, ch: seq<Addr>, t: nat)
    requires LocalInv(c, ch, t) && c.threads[t].pc.LockElem?
    requires var pc := c.threads[t].pc; c.cells[pc.el].usage.Open?
    ensures var th := c.threads[t]; var pc := th.pc;
            QuietHeap(c, ch, t, pc.el, c.cells[pc.el].(usage := Held(t)), th.(pc := LockContent(pc.at, pc.el)))
  {
    SuccFacts(ch, c.threads[t].pc.at);
    LockElemThread(c, ch, t);
  }

  lemma LockElemThread(c: Config, ch: seq<Addr>, t: nat)
    requires LocalInv(c, ch, t) && c.threads[t].pc.LockElem?
    requires var pc := c.threads[t].pc; c.cells[pc.el].usage.Open?
    ensures var th := c.threads[t]; var pc := th.pc; var th' := th.(pc := LockContent(pc.at, pc.el));
            ThreadOk(Edit(c, t, pc.el, c.cells[pc.el].(usage := Held(t)), th'), ch, t, th')
  {
    SuccFacts(ch, c.threads[t].pc.at);
  }

  lemma LockElemQuiet(c: Config, ch: seq<Addr>, t: nat, a: Addr)
    requires LocalInv(c, ch, t) && c.threads[t].pc.LockElem?
    ensures QuietStep(c, ch, t, Step(c, t, a))
  {
    var th := c.threads[t];
    var pc := th.pc;
    if c.cells[pc.el].usage.Open? {
      LockElemHeap(c, ch, t);
      assert QuietThread(c, ch, t, pc.el, c.cells[pc.el].(usage := Held(t)), th.(pc := LockContent(pc.at, pc.el)));
      assert Step(c, t, a) == Ok(Edit(c, t, pc.el, c.cells[pc.el].(usage := Held(t)),
              th.(pc := LockContent(pc.at, pc.el))));
    }
  }

  lemma EarlyReleaseHeap(c: Config, ch: seq<Addr>, t: nat)
    requires LocalInv(c, ch, t) && c.threads[t].pc.EarlyRelease?
    ensures var th := c.threads[t]; var pc := th.pc;
            QuietHeap(c, ch, t, LIST, c.cells[LIST].(usage := Open), th.(pc := UnlockElem(NULL, pc.el)))
  {
  }

  lemma EarlyReleaseQuiet(c: Config, ch: seq<Addr>, t: nat, a: Addr)
    requires LocalInv(c, ch, t) && c.threads[t].pc.EarlyRelease?
    ensures QuietStep(c, ch, t, Step(c, t, a))
  {
    var th := c.threads[t];
    var pc := th.pc;
    EarlyReleaseHeap(c, ch, t);
    assert QuietThread(c, ch, t, LIST, c.cells[LIST].(usage := Open), th.(pc := UnlockElem(NULL, pc.el)));
    assert Step(c, t, a) == Ok(Edit(c, t, LIST, c.cells[LIST].(usage := Open), th.(pc := UnlockElem(NULL, pc.el))));
  }

  lemma UnlockElemHeap(c: Config, ch: seq<Addr>, t: nat)
    requires LocalInv(c, ch, t) && c.threads[t].pc.UnlockElem?
    ensures var th := c.threads[t]; var pc := th.pc;
            QuietHeap(c, ch, t, pc.el, c.cells[pc.el].(usage := Open),
                    th.(pc := if th.op.Update? then LateRelease(pc.at, pc.el) else ReadSize(pc.at, pc.el)))
  {
  }

  lemma UnlockElemQuiet(c: Config, ch: seq<Addr>, t: nat, a: Addr)
    requires LocalInv(c, ch, t) && c.threads[t].pc.UnlockElem?
    ensures QuietStep(c, ch, t, Step(c, t, a))
  {
    var th := c.threads[t];
    var pc := th.pc;
    UnlockElemHeap(c, ch, t);
    assert QuietThread(c, ch, t, pc.el, c.cells[pc.el].(usage := Open),
            th.(pc := if th.op.Update? then LateRelease(pc.at, pc.el) else ReadSize(pc.at, pc.el)));
    assert Step(c, t, a) == Ok(Edit(c, t, pc.el, c.cells[pc.el].(usage := Open),
            th.(pc := if th.op.Update? then LateRelease(pc.at, pc.el) else ReadSize(pc.at, pc.el))));
  }

  lemma LateReleaseHeap(c: Config, ch: seq<Addr>, t: nat)
    requires LocalInv(c, ch, t) && c.threads[t].pc.LateRelease?
    ensures var th := c.threads[t]; var pc := th.pc;
            QuietHeap(c, ch, t, pc.at, c.cells[pc.at].(usage := Open), th.(pc := FreePayload(pc.el)))
  {
  }

  lemma LateReleaseQuiet(c: Config, ch: seq<Addr>, t: nat, a: Addr)
    requires LocalInv(c, ch, t) && c.threads[t].pc.LateRelease?
    ensures QuietStep(c, ch, t, Step(c, t, a))
  {
    var th := c.threads[t];
    var pc := th.pc;
    LateReleaseHeap(c, ch, t);
    assert QuietThread(c, ch, t, pc.at, c.cells[pc.at].(usage := Open), th.(pc := FreePayload(pc.el)));
    assert Step(c, t, a) == Ok(Edit(c, t, pc.at, c.cells[pc.at].(usage := Open), th.(pc := FreePayload(pc.el))));
  }

  lemma ReadSizeHeap(c: Config, ch: seq<Addr>, t: nat)
    requires LocalInv(c, ch, t) && c.threads[t].pc.ReadSize?
    ensures var th := c.threads[t]; var pc := th.pc;
            QuietHeap(c, ch, t, pc.el, c.cells[pc.el], th.(pc := CopyOut(pc.at, pc.el, c.cells[pc.el].size)))
  {
  }

  lemma ReadSizeQuiet(c: Config, ch: seq<Addr>, t: nat, a: Addr)
    requires LocalInv(c, ch, t) && c.threads[t].pc.ReadSize?
    ensures QuietStep(c, ch, t, Step(c, t, a))
  {
    var th := c.threads[t];
    var pc := th.pc;
    ReadSizeHeap(c, ch, t);
    assert c.cells[pc.el := c.cells[pc.el]] == c.cells;
    assert QuietThread(c, ch, t, pc.el, c.cells[pc.el], th.(pc := CopyOut(pc.at, pc.el, c.cells[pc.el].size)));
    assert Step(c, t, a) == Ok(Edit(c, t, pc.el, c.cells[pc.el], th.(pc := CopyOut(pc.at, pc.el, c.cells[pc.el].size))));
  }

  lemma CompareMissHeap(c: Config, ch: seq<Addr>, t: nat)
    requires LocalInv(c, ch, t) && c.threads[t].pc.Compare? && c.cells[c.threads[t].pc.el].id != c.threads[t].op.id
    ensures var th := c.threads[t]; var pc := th.pc;
            QuietHeap(c, ch, t, pc.at, c.cells[pc.at], th.(pc := LockNext(pc.at, pc.el)))
  {
    SuccFacts(ch, c.threads[t].pc.at);
  }

  lemma CompareMissQuiet(c: Config, ch: seq<Addr>, t: nat, a: Addr)
    requires LocalInv(c, ch, t) && c.threads[t].pc.Compare? && c.cells[c.threads[t].pc.el].id != c.threads[t].op.id
    ensures QuietStep(c, ch, t, Step(c, t, a))
  {
    var th := c.threads[t];
    var pc := th.pc;
    CompareMissHeap(c, ch, t);
    assert c.cells[pc.at := c.cells[pc.at]] == c.cells;
    assert QuietThread(c, ch, t, pc.at, c.cells[pc.at], th.(pc := LockNext(pc.at, pc.el)));
    assert Step(c, t, a) == Ok(Edit(c, t, pc.at, c.cells[pc.at], th.(pc := LockNext(pc.at, pc.el))));
  }

  lemma CompareHitHeap(c: Config, ch: seq<Addr>, t: nat)
    requires LocalInv(c, ch, t) && c.threads[t].pc.Compare?
    requires c.cells[c.threads[t].pc.el].id == c.threads[t].op.id && !c.threads[t].op.AppendUnique?
    ensures var th := c.threads[t]; var pc := th.pc;
            QuietHeap(c, ch, t, pc.at, c.cells[pc.at], th.(pc := LockElem(pc.at, pc.el)))
  {
    SuccFacts(ch, c.threads[t].pc.at);
  }

  lemma CompareHitQuiet(c: Config, ch: seq<Addr>, t: nat, a: Addr)
    requires LocalInv(c, ch, t) && c.threads[t].pc.Compare?
    requires c.cells[c.threads[t].pc.el].id == c.threads[t].op.id && !c.threads[t].op.AppendUnique?
    ensures QuietStep(c, ch, t, Step(c, t, a))
  {
    var th := c.threads[t];
    var pc := th.pc;
    CompareHitHeap(c, ch, t);
    assert c.cells[pc.at := c.cells[pc.at]] == c.cells;
    assert QuietThread(c, ch, t, pc.at, c.cells[pc.at], th.(pc := LockElem(pc.at, pc.el)));
    assert Step(c, t, a) == Ok(Edit(c, t, pc.at, c.cells[pc.at], th.(pc := LockElem(pc.at, pc.el))));
  }

  lemma CopyOutEndHeap(c: Config, ch: seq<Addr>, t: nat)
    requires LocalInv(c, ch, t) && c.threads[t].pc.CopyOut? && |c.threads[t].buf| == c.threads[t].pc.size
    ensures var th := c.threads[t]; var pc := th.pc;
            QuietHeap(c, ch, t, pc.el, c.cells[pc.el], th.(pc := UnlockContent(pc.at, pc.el, Payload(Some(th.buf)))))
  {
    var d := c.cells[c.threads[t].pc.el].payload.data;
    assert d[..|d|] == d;
  }

  lemma CopyOutEndQuiet(c: Config, ch: seq<Addr>, t: nat, a: Addr)
    requires LocalInv(c, ch, t) && c.threads[t].pc.CopyOut? && |c.threads[t].buf| == c.threads[t].pc.size
    ensures QuietStep(c, ch, t, Step(c, t, a))
  {
    var th := c.threads[t];
    var pc := th.pc;
    CopyOutEndHeap(c, ch, t);
    assert c.cells[pc.el := c.cells[pc.el]] == c.cells;
    assert QuietThread(c, ch, t, pc.el, c.cells[pc.el], th.(pc := UnlockContent(pc.at, pc.el, Payload(Some(th.buf)))));
    assert Step(c, t, a) == Ok(Edit(c, t, pc.el, c.cells[pc.el],
            th.(pc := UnlockContent(pc.at, pc.el, Payload(Some(th.buf))))));
  }

  lemma CopyOutByteHeap(c: Config, ch: seq<Addr>, t: nat)
    requires LocalInv(c, ch, t) && c.threads[t].pc.CopyOut? && |c.threads[t].buf| != c.threads[t].pc.size
    ensures var th := c.threads[t]; var pc := th.pc;
            QuietHeap(c, ch, t, pc.el, c.cells[pc.el], th.(buf := th.buf + [c.cells[pc.el].payload.data[|th.buf|]]))
  {
  }

  lemma CopyOutByteQuiet(c: Config, ch: seq<Addr>, t: nat, a: Addr)
    requires LocalInv(c, ch, t) && c.threads[t].pc.CopyOut? && |c.threads[t].buf| != c.threads[t].pc.size
    ensures QuietStep(c, ch, t, Step(c, t, a))
  {
    var th := c.threads[t];
    var pc := th.pc;
    CopyOutByteHeap(c, ch, t);
    assert c.cells[pc.el := c.cells[pc.el]] == c.cells;
    assert QuietThread(c, ch, t, pc.el, c.cells[pc.el], th.(buf := th.buf + [c.cells[pc.el].payload.data[|th.buf|]]));
    assert Step(c, t, a) == Ok(Edit(c, t, pc.el, c.cells[pc.el], th.(buf := th.buf + [c.cells[pc.el].payload.data[|th.buf|]])));
  }

  lemma FreePayloadHeap(c: Config, ch: seq<Addr>, t: nat)
    requires LocalInv(c, ch, t) && c.threads[t].pc.FreePayload?
    ensures var th := c.threads[t]; var pc := th.pc;
            QuietHeap(c, ch, t, pc.el, c.cells[pc.el].(payload := Freed), th.(pc := AllocPayload(pc.el)))
  {
  }

  lemma FreePayloadQuiet(c: Config, ch: seq<Addr>, t: nat, a: Addr)
    requires LocalInv(c, ch, t) && c.threads[t].pc.FreePayload?
    ensures QuietStep(c, ch, t, Step(c, t, a))
  {
    var th := c.threads[t];
    var pc := th.pc;
    FreePayloadHeap(c, ch, t);
    assert QuietThread(c, ch, t, pc.el, c.cells[pc.el].(payload := Freed), th.(pc := AllocPayload(pc.el)));
    assert Step(c, t, a) == Ok(Edit(c, t, pc.el, c.cells[pc.el].(payload := Freed), th.(pc := AllocPayload(pc.el))));
  }

  lemma AllocPayloadHeap(c: Config, ch: seq<Addr>, t: nat)
    requires LocalInv(c, ch, t) && c.threads[t].pc.AllocPayload?
    ensures var th := c.threads[t]; var pc := th.pc;
            QuietHeap(c, ch, t, pc.el, c.cells[pc.el].(payload := Block(|th.op.data|, "")), th.(pc := CopyIn(pc.el)))
  {
  }

  lemma AllocPayloadQuiet(c: Config, ch: seq<Addr>, t: nat, a: Addr)
    requires LocalInv(c, ch, t) && c.threads[t].pc.AllocPayload?
    ensures QuietStep(c, ch, t, Step(c, t, a))
  {
    var th := c.threads[t];
    var pc := th.pc;
    AllocPayloadHeap(c, ch, t);
    assert QuietThread(c, ch, t, pc.el, c.cells[pc.el].(payload := Block(|th.op.data|, "")), th.(pc := CopyIn(pc.el)));
    assert Step(c, t, a) == Ok(Edit(c, t, pc.el, c.cells[pc.el].(payload := Block(|th.op.data|, "")),
            th.(pc := CopyIn(pc.el))));
  }

  lemma CopyInEndHeap(c: Config, ch: seq<Addr>, t: nat)
    requires LocalInv(c, ch, t) && c.threads[t].pc.CopyIn? && |c.cells[c.threads[t].pc.el].payload.data| == |c.threads[t].op.data|
    ensures var th := c.threads[t]; var pc := th.pc;
            QuietHeap(c, ch, t, pc.el, c.cells[pc.el], th.(pc := WriteSize(pc.el)))
  {
    var d := c.threads[t].op.data;
    assert d[..|d|] == d;
  }

  lemma CopyInEndQuiet(c: Config, ch: seq<Addr>, t: nat, a: Addr)
    requires LocalInv(c, ch, t) && c.threads[t].pc.CopyIn? && |c.cells[c.threads[t].pc.el].payload.data| == |c.threads[t].op.data|
    ensures QuietStep(c, ch, t, Step(c, t, a))
  {
    var th := c.threads[t];
    var pc := th.pc;
    CopyInEndHeap(c, ch, t);
    assert c.cells[pc.el := c.cells[pc.el]] == c.cells;
    assert QuietThread(c, ch, t, pc.el, c.cells[pc.el], th.(pc := WriteSize(pc.el)));
    assert Step(c, t, a) == Ok(Edit(c, t, pc.el, c.cells[pc.el], th.(pc := WriteSize(pc.el))));
  }

  lemma CopyInByteHeap(c: Config, ch: seq<Addr>, t: nat)
    requires LocalInv(c, ch, t) && c.threads[t].pc.CopyIn? && |c.cells[c.threads[t].pc.el].payload.data| != |c.threads[t].op.data|
    ensures var th := c.threads[t]; var pc := th.pc;
            QuietHeap(c, ch, t, pc.el, c.cells[pc.el].(payload := Copied(c.cells[pc.el].payload, th.op.data)), th)
  {
  }

  lemma CopyInByteQuiet(c: Config, ch: seq<Addr>, t: nat, a: Addr)
    requires LocalInv(c, ch, t) && c.threads[t].pc.CopyIn? && |c.cells[c.threads[t].pc.el].payload.data| != |c.threads[t].op.data|
    ensures QuietStep(c, ch, t, Step(c, t, a))
  {
    var th := c.threads[t];
    var pc := th.pc;
    CopyInByteHeap(c, ch, t);
    assert QuietThread(c, ch, t, pc.el, c.cells[pc.el].(payload := Copied(c.cells[pc.el].payload, th.op.data)), th);
    assert Step(c, t, a) == Ok(Edit(c, t, pc.el, c.cells[pc.el].(payload := Copied(c.cells[pc.el].payload, th.op.data)), th));
  }

  lemma WriteSizeHeap(c: Config, ch: seq<Addr>, t: nat)
    requires LocalInv(c, ch, t) && c.threads[t].pc.WriteSize?
    ensures var th := c.threads[t]; var pc := th.pc;
            QuietHeap(c, ch, t, pc.el, c.cells[pc.el].(size := |th.op.data|),
                    th.(pc := UnlockContent(NULL, pc.el, Code(0))))
  {
  }

  lemma WriteSizeQuiet(c: Config, ch: seq<Addr>, t: nat, a: Addr)
    requires LocalInv(c, ch, t) && c.threads[t].pc.WriteSize?
    ensures QuietStep(c, ch, t, Step(c, t, a))
  {
    var th := c.threads[t];
    var pc := th.pc;
    WriteSizeHeap(c, ch, t);
    assert QuietThread(c, ch, t, pc.el, c.cells[pc.el].(size := |th.op.data|),
            th.(pc := UnlockContent(NULL, pc.el, Code(0))));
    assert Step(c, t, a) == Ok(Edit(c, t, pc.el, c.cells[pc.el].(size := |th.op.data|),
            th.(pc := UnlockContent(NULL, pc.el, Code(0)))));
  }

  lemma UnlockContentHeap(c: Config, ch: seq<Addr>, t: nat)
    requires LocalInv(c, ch, t) && c.threads[t].pc.UnlockContent?
    ensures var th := c.threads[t]; var pc := th.pc;
            QuietHeap(c, ch, t, pc.el, c.cells[pc.el].(content := Open),
                    th.(pc := if pc.at == NULL then Done(pc.r) else Release(pc.at, pc.r)))
  {
  }

  lemma UnlockContentQuiet(c: Config, ch: seq<Addr>, t: nat, a: Addr)
    requires LocalInv(c, ch, t) && c.threads[t].pc.UnlockContent?
    ensures QuietStep(c, ch, t, Step(c, t, a))
  {
    var th := c.threads[t];
    var pc := th.pc;
    UnlockContentHeap(c, ch, t);
    assert QuietThread(c, ch, t, pc.el, c.cells[pc.el].(content := Open),
            th.(pc := if pc.at == NULL then Done(pc.r) else Release(pc.at, pc.r)));
    assert Step(c, t, a) == Ok(Edit(c, t, pc.el, c.cells[pc.el].(content := Open),
            th.(pc := if pc.at == NULL then Done(pc.r) else Release(pc.at, pc.r))));
  }

  lemma DropReadHeap(c: Config, ch: seq<Addr>, t: nat)
    requires LocalInv(c, ch, t) && c.threads[t].pc.Drop? && c.threads[t].pc.stage == 0
    ensures var th := c.threads[t]; var pc := th.pc;
            QuietHeap(c, ch, t, pc.el, c.cells[pc.el], th.(pc := Drop(pc.at, pc.el, c.cells[pc.el].next, 1)))
  {
  }

  lemma DropReadQuiet(c: Config, ch: seq<Addr>, t: nat, a: Addr)
    requires LocalInv(c, ch, t) && c.threads[t].pc.Drop? && c.threads[t].pc.stage == 0
    ensures QuietStep(c, ch, t, Step(c, t, a))
  {
    var th := c.threads[t];
    var pc := th.pc;
    DropReadHeap(c, ch, t);
    assert c.cells[pc.el := c.cells[pc.el]] == c.cells;
    assert QuietThread(c, ch, t, pc.el, c.cells[pc.el], th.(pc := Drop(pc.at, pc.el, c.cells[pc.el].next, 1)));
    assert Step(c, t, a) == Ok(Edit(c, t, pc.el, c.cells[pc.el], th.(pc := Drop(pc.at, pc.el, c.cells[pc.el].next, 1))));
  }

  lemma DropUsageHeap(c: Config, ch: seq<Addr>, t: nat)
    requires LocalInv(c, ch, t) && c.threads[t].pc.Drop? && c.threads[t].pc.stage == 1
    ensures var th := c.threads[t]; var pc := th.pc;
            QuietHeap(c, ch, t, pc.el, c.cells[pc.el].(usage := Open), th.(pc := Drop(pc.at, pc.el, pc.after, 2)))
  {
  }

  lemma DropUsageQuiet(c: Config, ch: seq<Addr>, t: nat, a: Addr)
    requires LocalInv(c, ch, t) && c.threads[t].pc.Drop? && c.threads[t].pc.stage == 1
    ensures QuietStep(c, ch, t, Step(c, t, a))
  {
    var th := c.threads[t];
    var pc := th.pc;
    DropUsageHeap(c, ch, t);
    assert QuietThread(c, ch, t, pc.el, c.cells[pc.el].(usage := Open), th.(pc := Drop(pc.at, pc.el, pc.after, 2)));
    assert Step(c, t, a) == Ok(Edit(c, t, pc.el, c.cells[pc.el].(usage := Open),
            th.(pc := Drop(pc.at, pc.el, pc.after, 2))));
  }

  lemma DropContentHeap(c: Config, ch: seq<Addr>, t: nat)
    requires LocalInv(c, ch, t) && c.threads[t].pc.Drop? && c.threads[t].pc.stage == 2
    ensures var th := c.threads[t]; var pc := th.pc;
            QuietHeap(c, ch, t, pc.el, c.cells[pc.el].(content := Open), th.(pc := Drop(pc.at, pc.el, pc.after, 3)))
  {
  }

  lemma DropContentQuiet(c: Config, ch: seq<Addr>, t: nat, a: Addr)
    requires LocalInv(c, ch, t) && c.threads[t].pc.Drop? && c.threads[t].pc.stage == 2
    ensures QuietStep(c, ch, t, Step(c, t, a))
  {
    var th := c.threads[t];
    var pc := th.pc;
    DropContentHeap(c, ch, t);
    assert QuietThread(c, ch, t, pc.el, c.cells[pc.el].(content := Open), th.(pc := Drop(pc.at, pc.el, pc.after, 3)));
    assert Step(c, t, a) == Ok(Edit(c, t, pc.el, c.cells[pc.el].(content := Open),
            th.(pc := Drop(pc.at, pc.el, pc.after, 3))));
  }

  lemma DestroyUsageHeap(c: Config, ch: seq<Addr>, t: nat)
    requires LocalInv(c, ch, t) && c.threads[t].pc.Drop? && c.threads[t].pc.stage == 3 && Unwanted(c, c.threads[t].pc.el)
    ensures var th := c.threads[t]; var pc := th.pc;
            QuietHeap(c, ch, t, pc.el, c.cells[pc.el].(usage := Destroyed), th.(pc := Drop(pc.at, pc.el, pc.after, 4)))
  {
  }

  lemma DestroyUsageQuiet(c: Config, ch: seq<Addr>, t: nat, a: Addr)
    requires LocalInv(c, ch, t) && c.threads[t].pc.Drop? && c.threads[t].pc.stage == 3 && Unwanted(c, c.threads[t].pc.el)
    ensures QuietStep(c, ch, t, Step(c, t, a))
  {
    var th := c.threads[t];
    var pc := th.pc;
    DestroyUsageHeap(c, ch, t);
    assert QuietThread(c, ch, t, pc.el, c.cells[pc.el].(usage := Destroyed), th.(pc := Drop(pc.at, pc.el, pc.after, 4)));
    assert Step(c, t, a) == Ok(Edit(c, t, pc.el, c.cells[pc.el].(usage := Destroyed),
            th.(pc := Drop(pc.at, pc.el, pc.after, 4))));
  }

  lemma DestroyContentHeap(c: Config, ch: seq<Addr>, t: nat)
    requires LocalInv(c, ch, t) && c.threads[t].pc.Drop? && c.threads[t].pc.stage == 4 && Unwanted(c, c.threads[t].pc.el)
    ensures var th := c.threads[t]; var pc := th.pc;
            QuietHeap(c, ch, t, pc.el, c.cells[pc.el].(content := Destroyed), th.(pc := Drop(pc.at, pc.el, pc.after, 5)))
  {
  }

  lemma DestroyContentQuiet(c: Config, ch: seq<Addr>, t: nat, a: Addr)
    requires LocalInv(c, ch, t) && c.threads[t].pc.Drop? && c.threads[t].pc.stage == 4 && Unwanted(c, c.threads[t].pc.el)
    ensures QuietStep(c, ch, t, Step(c, t, a))
  {
    var th := c.threads[t];
    var pc := th.pc;
    DestroyContentHeap(c, ch, t);
    assert QuietThread(c, ch, t, pc.el, c.cells[pc.el].(content := Destroyed), th.(pc := Drop(pc.at, pc.el, pc.after, 5)));
    assert Step(c, t, a) == Ok(Edit(c, t, pc.el, c.cells[pc.el].(content := Destroyed),
            th.(pc := Drop(pc.at, pc.el, pc.after, 5))));
  }

  lemma DropPayloadHeap(c: Config, ch: seq<Addr>, t: nat)
    requires LocalInv(c, ch, t) && c.threads[t].pc.Drop? && c.threads[t].pc.stage == 5
    ensures var th := c.threads[t]; var pc := th.pc;
            QuietHeap(c, ch, t, pc.el, c.cells[pc.el].(payload := Freed), th.(pc := Drop(pc.at, pc.el, pc.after, 6)))
  {
  }

  lemma DropPayloadQuiet(c: Config, ch: seq<Addr>, t: nat, a: Addr)
    requires LocalInv(c, ch, t) && c.threads[t].pc.Drop? && c.threads[t].pc.stage == 5
    ensures QuietStep(c, ch, t, Step(c, t, a))
  {
    var th := c.threads[t];
    var pc := th.pc;
    DropPayloadHeap(c, ch, t);
    assert QuietThread(c, ch, t, pc.el, c.cells[pc.el].(payload := Freed), th.(pc := Drop(pc.at, pc.el, pc.after, 6)));
    assert Step(c, t, a) == Ok(Edit(c, t, pc.el, c.cells[pc.el].(payload := Freed),
            th.(pc := Drop(pc.at, pc.el, pc.after, 6))));
  }

  lemma DropNameHeap(c: Config, ch: seq<Addr>, t: nat)
    requires LocalInv(c, ch, t) && c.threads[t].pc.Drop? && c.threads[t].pc.stage == 6
    ensures var th := c.threads[t]; var pc := th.pc;
            QuietHeap(c, ch, t, pc.el, c.cells[pc.el].(named := false), th.(pc := Drop(pc.at, pc.el, pc.after, 7)))
  {
  }

  lemma DropNameQuiet(c: Config, ch: seq<Addr>, t: nat, a: Addr)
    requires LocalInv(c, ch, t) && c.threads[t].pc.Drop? && c.threads[t].pc.stage == 6
    ensures QuietStep(c, ch, t, Step(c, t, a))
  {
    var th := c.threads[t];
    var pc := th.pc;
    DropNameHeap(c, ch, t);
    assert QuietThread(c, ch, t, pc.el, c.cells[pc.el].(named := false), th.(pc := Drop(pc.at, pc.el, pc.after, 7)));
    assert Step(c, t, a) == Ok(Edit(c, t, pc.el, c.cells[pc.el].(named := false),
            th.(pc := Drop(pc.at, pc.el, pc.after, 7))));
  }

  lemma UnlinkAgainHeap(c: Config, ch: seq<Addr>, t: nat)
    requires LocalInv(c, ch, t) && c.threads[t].pc.Unlink? && c.threads[t].op.RemoveAll?
    ensures var th := c.threads[t]; var pc := th.pc;
            QuietHeap(c, ch, t, pc.at, c.cells[pc.at].(next := pc.after), th.(pc := Look(pc.at)))
  {
  }

  lemma UnlinkAgainQuiet(c: Config, ch: seq<Addr>, t: nat, a: Addr)
    requires LocalInv(c, ch, t) && c.threads[t].pc.Unlink? && c.threads[t].op.RemoveAll?
    ensures QuietStep(c, ch, t, Step(c, t, a))
  {
    var th := c.threads[t];
    var pc := th.pc;
    UnlinkAgainHeap(c, ch, t);
    assert QuietThread(c, ch, t, pc.at, c.cells[pc.at].(next := pc.after), th.(pc := Look(pc.at)));
    assert Step(c, t, a) == Ok(Edit(c, t, pc.at, c.cells[pc.at].(next := pc.after), th.(pc := Look(pc.at))));
  }

  lemma UnlinkLastHeap(c: Config, ch: seq<Addr>, t: nat)
    requires LocalInv(c, ch, t) && c.threads[t].pc.Unlink? && !c.threads[t].op.RemoveAll?
    ensures var th := c.threads[t]; var pc := th.pc;
            QuietHeap(c, ch, t, pc.at, c.cells[pc.at].(next := pc.after),
                    th.(pc := Release(pc.at, if th.op.RemoveById? then Code(0) else Void)))
  {
  }

  lemma UnlinkLastQuiet(c: Config, ch: seq<Addr>, t: nat, a: Addr)
    requires LocalInv(c, ch, t) && c.threads[t].pc.Unlink? && !c.threads[t].op.RemoveAll?
    ensures QuietStep(c, ch, t, Step(c, t, a))
  {
    var th := c.threads[t];
    var pc := th.pc;
    UnlinkLastHeap(c, ch, t);
    assert QuietThread(c, ch, t, pc.at, c.cells[pc.at].(next := pc.after),
            th.(pc := Release(pc.at, if th.op.RemoveById? then Code(0) else Void)));
    assert Step(c, t, a) == Ok(Edit(c, t, pc.at, c.cells[pc.at].(next := pc.after),
            th.(pc := Release(pc.at, if th.op.RemoveById? then Code(0) else Void))));
  }

  lemma LookEndHeap(c: Config, ch: seq<Addr>, t: nat)
    requires LocalInv(c, ch, t) && c.threads[t].pc.Look? && c.cells[c.threads[t].pc.at].next == NULL && Appends(c.threads[t].op)
    ensures var th := c.threads[t]; var pc := th.pc;
            QuietHeap(c, ch, t, pc.at, c.cells[pc.at], th.(pc := if th.op.Append? then Link(pc.at) else CreateAtEnd(pc.at)))
  {
    SuccFacts(ch, c.threads[t].pc.at);
  }

  lemma LookEndQuiet(c: Config, ch: seq<Addr>, t: nat, a: Addr)
    requires LocalInv(c, ch, t) && c.threads[t].pc.Look? && c.cells[c.threads[t].pc.at].next == NULL && Appends(c.threads[t].op)
    ensures QuietStep(c, ch, t, Step(c, t, a))
  {
    var th := c.threads[t];
    var pc := th.pc;
    LookEndHeap(c, ch, t);
    assert c.cells[pc.at := c.cells[pc.at]] == c.cells;
    assert QuietThread(c, ch, t, pc.at, c.cells[pc.at],
            th.(pc := if th.op.Append? then Link(pc.at) else CreateAtEnd(pc.at)));
    assert Step(c, t, a) == Ok(Edit(c, t, pc.at, c.cells[pc.at],
            th.(pc := if th.op.Append? then Link(pc.at) else CreateAtEnd(pc.at))));
  }

  lemma LookOnHeap(c: Config, ch: seq<Addr>, t: nat)
    requires LocalInv(c, ch, t) && c.threads[t].pc.Look? && c.cells[c.threads[t].pc.at].next != NULL
    ensures var th := c.threads[t]; var pc := th.pc;
            QuietHeap(c, ch, t, pc.at, c.cells[pc.at], th.(pc := AfterLook(t, th, pc.at, c.cells[pc.at].next)))
  {
    var th := c.threads[t];
    var at := th.pc.at;
    LookOnThread(c, ch, t);
    assert c.cells[at := c.cells[at]] == c.cells;
  }

  lemma LookOnThread(c: Config, ch: seq<Addr>, t: nat)
    requires LocalInv(c, ch, t) && c.threads[t].pc.Look? && c.cells[c.threads[t].pc.at].next != NULL
    ensures var th := c.threads[t]; var pc := th.pc; var th' := th.(pc := AfterLook(t, th, pc.at, c.cells[pc.at].next));
            && ThreadOk(Edit(c, t, pc.at, c.cells[pc.at], th'), ch, t, th')
            && Adjacent(th'.pc) && At(th'.pc) == pc.at && !HoldsEl(th'.pc)
  {
    SuccFacts(ch, c.threads[t].pc.at);
  }

  lemma LookOnQuiet(c: Config, ch: seq<Addr>, t: nat, a: Addr)
    requires LocalInv(c, ch, t) && c.threads[t].pc.Look? && c.cells[c.threads[t].pc.at].next != NULL
    ensures QuietStep(c, ch, t, Step(c, t, a))
  {
    var th := c.threads[t];
    var pc := th.pc;
    LookOnHeap(c, ch, t);
    assert c.cells[pc.at := c.cells[pc.at]] == c.cells;
    assert QuietThread(c, ch, t, pc.at, c.cells[pc.at], th.(pc := AfterLook(t, th, pc.at, c.cells[pc.at].next)));
    assert Step(c, t, a) == Ok(Edit(c, t, pc.at, c.cells[pc.at], th.(pc := AfterLook(t, th, pc.at, c.cells[pc.at].next))));
  }

  lemma ReleaseHeap(c: Config, ch: seq<Addr>, t: nat)
    requires LocalInv(c, ch, t) && c.threads[t].pc.Release?
    ensures var th := c.threads[t]; var pc := th.pc;
            QuietHeap(c, ch, t, pc.at, c.cells[pc.at].(usage := Open), th.(pc := Done(pc.r)))
  {
  }

  lemma ReleaseQuiet(c: Config, ch: seq<Addr>, t: nat, a: Addr)
    requires LocalInv(c, ch, t) && c.threads[t].pc.Release?
    ensures QuietStep(c, ch, t, Step(c, t, a))
  {
    var th := c.threads[t];
    var pc := th.pc;
    ReleaseHeap(c, ch, t);
    ReleaseThread(c, ch, t, a);
    assert QuietThread(c, ch, t, pc.at, c.cells[pc.at].(usage := Open), th.(pc := Done(pc.r)));
  }

  lemma ReleaseThread(c: Config, ch: seq<Addr>, t: nat, a: Addr)
    requires LocalInv(c, ch, t) && c.threads[t].pc.Release?
    ensures var th := c.threads[t]; var pc := th.pc;
            && QuietThread(c, ch, t, pc.at, c.cells[pc.at].(usage := Open), th.(pc := Done(pc.r)))
            && Step(c, t, a) == Ok(Edit(c, t, pc.at, c.cells[pc.at].(usage := Open), th.(pc := Done(pc.r))))
  {
  }
}
