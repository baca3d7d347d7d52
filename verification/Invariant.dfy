/** What holds between any two steps of the machine: which locks each program point holds,
    what the thread there knows about the chain, and who owns the nodes outside it. */
module Invariant {
  import opened ListSpec
  import opened Pipeline
  import opened Machine
  import opened Chains

  /** The position whose usage lock is held (NULL: none). */
  function At(pc: Pc): Addr {
    match pc
    case Look(at) => at
    case Compare(at, _) => at
    case LockNext(at, _) => at
    case Note(at, _) => at
    case HandOver(at, _) => at
    case CreateAtEnd(at) => at
    case Link(at) => at
    case LockElem(at, _) => at
    case LockContent(at, _) => at
    case EarlyRelease(_) => LIST
    case UnlockElem(at, _) => at
    case LateRelease(at, _) => at
    case ReadSize(at, _) => at
    case CopyOut(at, _, _) => at
    case UnlockContent(at, _, _) => at
    case Drop(at, _, _, _) => at
    case Unlink(at, _) => at
    case Release(at, _) => at
    case _ => NULL
  }

  /** The element being compared, locked or used (NULL: none). */
  function El(pc: Pc): Addr {
    match pc
    case Compare(_, el) => el
    case LockNext(_, el) => el
    case Note(_, el) => el
    case HandOver(_, el) => el
    case LockElem(_, el) => el
    case LockContent(_, el) => el
    case EarlyRelease(el) => el
    case UnlockElem(_, el) => el
    case LateRelease(_, el) => el
    case ReadSize(_, el) => el
    case CopyOut(_, el, _) => el
    case FreePayload(el) => el
    case AllocPayload(el) => el
    case CopyIn(el) => el
    case WriteSize(el) => el
    case UnlockContent(_, el, _) => el
    case Drop(_, el, _, _) => el
    case _ => NULL
  }

  predicate HoldsEl(pc: Pc) {
    pc.Note? || pc.HandOver? || pc.LockContent? || pc.EarlyRelease? || pc.UnlockElem? || (pc.Drop? && pc.stage <= 1)
  }

  /** Points at which the content lock of `El(pc)` is held. */
  predicate HoldsContent(pc: Pc) {
    pc.EarlyRelease? || pc.UnlockElem? || pc.LateRelease? || pc.ReadSize? || pc.CopyOut? || pc.FreePayload? ||
    pc.AllocPayload? || pc.CopyIn? || pc.WriteSize? || pc.UnlockContent? || (pc.Drop? && pc.stage <= 2)
  }

  predicate HoldsUsage(pc: Pc, a: Addr) {
    a != NULL && (a == At(pc) || (HoldsEl(pc) && a == El(pc)))
  }

  /** Points at which `El(pc)` is known to be the element right after `At(pc)`. */
  predicate Adjacent(pc: Pc) {
    pc.Compare? || pc.LockNext? || pc.Note? || pc.HandOver? || pc.LockElem? || pc.LockContent?
  }

  /** A removal is under way between taking the element out and relinking its predecessor. */
  predicate Severs(pc: Pc) { pc.Drop? || pc.Unlink? }

  /** A node only this thread can reach: not yet published, or already taken out. */
  function Private(th: Thread): Addr {
    match th.pc
    case Drop(_, el, _, _) => el
    case Create => NULL
    case Release(_, _) => NULL
    case Done(_) => NULL
    case Link(_) => th.node
    case _ => if th.op.Append? then th.node else NULL
  }

  /** Program points fit the operation. */
  predicate Fits(th: Thread) {
    var op := th.op;
    && (FirstOnly(op) ==> At(th.pc) == NULL || At(th.pc) == LIST)
    && (op.GetAllIds? || (th.count == 0 && th.text == ""))
    && (th.pc.CopyOut? || th.pc.UnlockContent? || th.pc.Release? || th.pc.Done? || th.buf == "")
    && (Private(th) == NULL ==> !th.pc.Link? && !th.pc.Drop?)
    && (At(th.pc) == NULL || At(th.pc) != El(th.pc))
    && match th.pc
       case Create => op.Append?
       case LockList => th.count == 0 && th.text == "" && (op.Append? ==> th.node != NULL)
       case Look(at) => at != NULL && (op.Append? ==> th.node != NULL)
       case Compare(at, _) => at != NULL && Searches(op)
       case LockNext(at, _) => at != NULL && !FirstOnly(op) && (op.Append? ==> th.node != NULL)
       case Note(at, _) => at != NULL && op.GetAllIds?
       case HandOver(at, _) => at != NULL && !FirstOnly(op) && (op.Append? ==> th.node != NULL)
       case CreateAtEnd(at) => at != NULL && op.AppendUnique?
       case Link(at) => at != NULL && Appends(op) && th.node != NULL
       case LockElem(at, _) => at != NULL && !Appends(op) && !op.GetAllIds?
       case LockContent(at, _) => at != NULL && !Appends(op) && !op.GetAllIds?
       case EarlyRelease(_) => op.GetFirst?
       case UnlockElem(at, _) => (op.GetFirst? && at == NULL) || ((op.GetById? || op.Update?) && at != NULL)
       case LateRelease(at, _) => op.Update? && at != NULL
       case ReadSize(at, _) => (op.GetFirst? && at == NULL) || (op.GetById? && at != NULL)
       case CopyOut(at, _, _) => (op.GetFirst? && at == NULL) || (op.GetById? && at != NULL)
       case FreePayload(_) => op.Update?
       case AllocPayload(_) => op.Update?
       case CopyIn(_) => op.Update?
       case WriteSize(_) => op.Update?
       case UnlockContent(at, _, r) =>
         if op.Update? then at == NULL && r == Code(0)
         else (op.GetFirst? && at == NULL) || (op.GetById? && at != NULL)
       case Drop(at, _, _, stage) => at != NULL && Removes(op) && stage <= 7
       case Unlink(at, _) => at != NULL && Removes(op)
       case Release(at, _) => at != NULL
       case Done(_) => true
  }

  predicate Full(x: Cell) {
    x.payload.Block? && x.payload.cap == |x.payload.data| == x.size
  }

  predicate Prefix(a: string, b: string) { |a| <= |b| && a == b[..|a|] }

  /** What the thread relies on about the element it uses. */
  ghost predicate Knows(c: Config, ch: seq<Addr>, th: Thread)
    requires El(th.pc) != NULL ==> El(th.pc) in c.cells
  {
    match th.pc
    case LockNext(_, el) => el != NULL && (Searches(th.op) ==> c.cells[el].id != th.op.id)
    case LockElem(_, el) => el != NULL && (Searches(th.op) ==> c.cells[el].id == th.op.id)
    case LockContent(_, el) => el != NULL && (Searches(th.op) ==> c.cells[el].id == th.op.id)
    case EarlyRelease(el) => el != NULL && Full(c.cells[el])
    case UnlockElem(_, el) => el != NULL && Full(c.cells[el])
    case LateRelease(_, el) => el != NULL && Full(c.cells[el])
    case ReadSize(_, el) => el != NULL && Full(c.cells[el])
    case CopyOut(_, el, size) =>
      el != NULL && Full(c.cells[el]) && size == c.cells[el].size && Prefix(th.buf, c.cells[el].payload.data)
    case FreePayload(el) => el != NULL && Full(c.cells[el])
    case AllocPayload(el) => el != NULL && c.cells[el].payload.Freed?
    case CopyIn(el) =>
      && el != NULL && th.op.Update? && c.cells[el].payload.Block?
      && c.cells[el].payload.cap == |th.op.data| && Prefix(c.cells[el].payload.data, th.op.data)
    case WriteSize(el) =>
      el != NULL && th.op.Update? && c.cells[el].payload == Block(|th.op.data|, th.op.data)
    case UnlockContent(_, el, r) =>
      && el != NULL && Full(c.cells[el])
      && (if th.op.Update? then c.cells[el].payload.data == th.op.data
          else r == Payload(Some(c.cells[el].payload.data)))
    case Drop(at, el, after, stage) =>
      && el != NULL
      && var x := c.cells[el];
         && (if stage == 0 then x.next == Succ(ch, at) else after == Succ(ch, at))
         && (2 <= stage <= 3 ==> x.usage.Open?)
         && (3 <= stage <= 4 ==> x.content.Open?)
         && (4 <= stage ==> x.usage.Destroyed?)
         && (5 <= stage ==> x.content.Destroyed?)
         && (stage <= 5 ==> x.payload.Block?)
         && (stage <= 6 ==> x.named)
    case Unlink(at, after) => after == Succ(ch, at)
    case CreateAtEnd(at) => Succ(ch, at) == NULL
    case Link(at) => Succ(ch, at) == NULL
    case _ => true
  }

  /** The locks the thread holds are recorded as its own, and the nodes are where it thinks. */
  ghost predicate Placed(c: Config, ch: seq<Addr>, t: nat, th: Thread) {
    && (At(th.pc) != NULL ==> At(th.pc) in ch && At(th.pc) in c.cells && c.cells[At(th.pc)].usage == Held(t))
    && (HoldsEl(th.pc) ==> El(th.pc) in c.cells && c.cells[El(th.pc)].usage == Held(t))
    && (HoldsContent(th.pc) ==> El(th.pc) in c.cells && c.cells[El(th.pc)].content == Held(t))
    && (Adjacent(th.pc) ==> El(th.pc) != NULL && El(th.pc) in c.cells && El(th.pc) == Succ(ch, At(th.pc)))
    && (HoldsContent(th.pc) && !th.pc.Drop? ==> El(th.pc) in ch && El(th.pc) != LIST)
    && (Private(th) != NULL ==>
          && Private(th) in c.cells && Private(th) !in ch
          && (!th.pc.Drop? ==> Appends(th.op) && c.cells[Private(th)] == NewCell(th.op)))
  }

  ghost predicate ThreadOk(c: Config, ch: seq<Addr>, t: nat, th: Thread) {
    && Fits(th)
    && Placed(c, ch, t, th)
    && (El(th.pc) != NULL ==> El(th.pc) in c.cells)
    && Knows(c, ch, th)
  }

  ghost predicate Shape(c: Config, ch: seq<Addr>) {
    && ch != [] && ch[0] == LIST && Distinct(ch) && NULL !in ch && NULL !in c.cells
    && (forall a :: a in ch ==> a in c.cells)
    && !c.cells[LIST].usage.Destroyed?
  }

  /** A lock recorded as held is held by a thread that knows it. */
  ghost predicate LockOk(c: Config, a: Addr)
    requires a in c.cells
  {
    && (c.cells[a].usage.Held? ==>
          c.cells[a].usage.tid < |c.threads| && HoldsUsage(c.threads[c.cells[a].usage.tid].pc, a))
    && (c.cells[a].content.Held? ==>
          && c.cells[a].content.tid < |c.threads|
          && HoldsContent(c.threads[c.cells[a].content.tid].pc) && El(c.threads[c.cells[a].content.tid].pc) == a)
  }

  ghost predicate Severed(c: Config, a: Addr)
    requires a in c.cells
  {
    && c.cells[a].usage.Held? && c.cells[a].usage.tid < |c.threads|
    && Severs(c.threads[c.cells[a].usage.tid].pc) && At(c.threads[c.cells[a].usage.tid].pc) == a
  }

  /** The nextEntry pointers spell out the chain, except behind a removal under way. */
  ghost predicate LinkOk(c: Config, ch: seq<Addr>, a: Addr)
    requires a in c.cells
  {
    Severed(c, a) || c.cells[a].next == Succ(ch, a)
  }

  predicate NodeOk(x: Cell) {
    && x.named && !x.usage.Destroyed? && !x.content.Destroyed?
    && (x.content.Open? ==> Full(x))
  }

  ghost predicate Owned(c: Config, ch: seq<Addr>, a: Addr) {
    a in ch || exists u :: 0 <= u < |c.threads| && Private(c.threads[u]) == a
  }

  ghost predicate ThreadsOk(c: Config, ch: seq<Addr>) {
    forall u :: 0 <= u < |c.threads| ==> ThreadOk(c, ch, u, c.threads[u])
  }

  ghost predicate LocksOk(c: Config) {
    forall a :: a in c.cells ==> LockOk(c, a)
  }

  ghost predicate NodesOk(c: Config, ch: seq<Addr>) {
    && (forall a :: a in ch ==> a in c.cells && LinkOk(c, ch, a))
    && (forall a :: a in ch && a != LIST ==> NodeOk(c.cells[a]))
  }

  ghost predicate AllOwned(c: Config, ch: seq<Addr>) {
    forall a :: a in c.cells ==> Owned(c, ch, a)
  }

  ghost predicate Inv(c: Config, ch: seq<Addr>) {
    Shape(c, ch) && ThreadsOk(c, ch) && LocksOk(c) && NodesOk(c, ch) && AllOwned(c, ch) && Apart(c)
  }

  ghost predicate Apart(c: Config) {
    forall u, v :: 0 <= u < v < |c.threads| && Private(c.threads[u]) != NULL ==>
      Private(c.threads[u]) != Private(c.threads[v])
  }

  ghost predicate Kept(c: Config, c': Config, ch': seq<Addr>, a: Addr) {
    a != NULL && a in c.cells ==> a in c'.cells && c'.cells[a] == c.cells[a] && a !in ch'
  }

  /** What a step of thread `t` leaves alone, so that every other thread's knowledge stands. */
  ghost predicate Respects(c: Config, ch: seq<Addr>, c': Config, ch': seq<Addr>, t: nat) {
    && |c'.threads| == |c.threads|
    && (forall u :: 0 <= u < |c.threads| && u != t ==> c'.threads[u] == c.threads[u])
    && (forall a :: a in c.cells && c.cells[a].usage.Held? && c.cells[a].usage.tid != t ==>
          && a in c'.cells && c'.cells[a].usage == c.cells[a].usage
          && (a in ch ==> a in ch' && Succ(ch', a) == Succ(ch, a)))
    && (forall a :: a in c.cells && c.cells[a].content.Held? && c.cells[a].content.tid != t ==>
          && a in c'.cells && c'.cells[a].content == c.cells[a].content
          && c'.cells[a].payload == c.cells[a].payload && c'.cells[a].size == c.cells[a].size
          && (a in ch ==> a in ch'))
    && (forall a :: a in ch && a in ch' && a in c.cells && a in c'.cells ==> c'.cells[a].id == c.cells[a].id)
    && (forall u :: 0 <= u < |c.threads| && u != t ==> Kept(c, c', ch', Private(c.threads[u])))
  }

  /** Every other thread's view survives the step. */
  lemma OtherThread(c: Config, ch: seq<Addr>, c': Config, ch': seq<Addr>, t: nat, u: nat)
    requires Shape(c, ch) && Shape(c', ch') && Respects(c, ch, c', ch', t)
    requires t < |c.threads| && u < |c.threads| && u != t && ThreadOk(c, ch, u, c.threads[u])
    ensures ThreadOk(c', ch', u, c'.threads[u])
  {
    OtherPlaced(c, ch, c', ch', t, u);
    OtherKnows(c, ch, c', ch', t, u);
  }

  lemma OtherPlaced(c: Config, ch: seq<Addr>, c': Config, ch': seq<Addr>, t: nat, u: nat)
    requires Shape(c, ch) && Shape(c', ch') && Respects(c, ch, c', ch', t)
    requires t < |c.threads| && u < |c.threads| && u != t && ThreadOk(c, ch, u, c.threads[u])
    ensures Placed(c', ch', u, c.threads[u])
    ensures El(c.threads[u].pc) != NULL ==> El(c.threads[u].pc) in c'.cells
  {
    var th := c.threads[u];
    if Adjacent(th.pc) { SuccFacts(ch, At(th.pc)); SuccFacts(ch', At(th.pc)); }
  }

  lemma OtherKnows(c: Config, ch: seq<Addr>, c': Config, ch': seq<Addr>, t: nat, u: nat)
    requires Shape(c, ch) && Shape(c', ch') && Respects(c, ch, c', ch', t)
    requires t < |c.threads| && u < |c.threads| && u != t && ThreadOk(c, ch, u, c.threads[u])
    requires El(c.threads[u].pc) != NULL ==> El(c.threads[u].pc) in c'.cells
    ensures Knows(c', ch', c.threads[u])
  {
    var th := c.threads[u];
    var at, el := At(th.pc), El(th.pc);
    if at != NULL {
      assert Succ(ch', at) == Succ(ch, at) && at in ch';
    }
    if Adjacent(th.pc) {
      SuccFacts(ch, at);
      SuccFacts(ch', at);
      assert c'.cells[el].id == c.cells[el].id;
    } else if th.pc.Drop? {
      assert Private(th) == el;
      assert c'.cells[el] == c.cells[el];
    } else if HoldsContent(th.pc) {
      assert c'.cells[el].payload == c.cells[el].payload && c'.cells[el].size == c.cells[el].size;
    }
  }
}
