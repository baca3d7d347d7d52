/** lib/concurrentLinkedList.c as a step system over a heap of nodes. Every thread runs one
    list operation; each lock, unlock, pointer access, payload access and free is a step of
    its own, and steps of different threads interleave freely. A step that touches freed
    memory, reads an unwritten byte, unlocks a lock it does not own, or destroys a mutex that
    someone holds or waits for is a fault. */
module Machine {
  import opened ListSpec
  import opened Pipeline

  type Addr = nat
  const NULL: Addr := 0
  /** The list header: its `usage` is firstElementMutex and its `next` is firstElement. */
  const LIST: Addr := 1

  datatype Lock = Open | Held(tid: nat) | Destroyed

  /** A malloc'ed payload block of `cap` characters of which the first |data| are written. */
  datatype Buffer = Freed | Block(cap: nat, data: string)

  datatype Cell = Cell(next: Addr, usage: Lock, content: Lock, named: bool, id: string, payload: Buffer, size: nat)

  /** Where a thread is. `at` is the position whose lock it holds (the header or the element
      last walked to), `el` the element after it that it is about to use or is using. */
  datatype Pc =
    | Create                                  // appendListElement builds its node first
    | LockList
    | Look(at: Addr)                          // next = at->nextEntry
    | Compare(at: Addr, el: Addr)             // strcmp(next->ID, ID)
    | LockNext(at: Addr, el: Addr)
    | Note(at: Addr, el: Addr)                // getAllElementIDs collects the ID
    | HandOver(at: Addr, el: Addr)            // holds both, returns at
    | CreateAtEnd(at: Addr)                   // appendUniqueListElement builds its node now
    | Link(at: Addr)                          // at->nextEntry = new
    | LockElem(at: Addr, el: Addr)
    | LockContent(at: Addr, el: Addr)
    | EarlyRelease(el: Addr)                  // getFirstListElement returns the header first
    | UnlockElem(at: Addr, el: Addr)
    | LateRelease(at: Addr, el: Addr)         // updateListElementByID returns the predecessor
    | ReadSize(at: Addr, el: Addr)
    | CopyOut(at: Addr, el: Addr, size: nat)
    | FreePayload(el: Addr)
    | AllocPayload(el: Addr)
    | CopyIn(el: Addr)
    | WriteSize(el: Addr)
    | UnlockContent(at: Addr, el: Addr, r: Result)
    | Drop(at: Addr, el: Addr, after: Addr, stage: nat)  // removeElement, statement by statement
    | Unlink(at: Addr, after: Addr)           // at->nextEntry = next
    | Release(at: Addr, r: Result)
    | Done(r: Result)

  /** One call: its operation, where it is, and its local variables. */
  datatype Thread = Thread(op: Op, pc: Pc, node: Addr, count: nat, text: string, buf: string)

  /** `entered` records the order in which calls acquired firstElementMutex; no step reads it. */
  datatype Config = Config(cells: map<Addr, Cell>, threads: seq<Thread>, entered: seq<Entry>)

  datatype StepResult = Blocked | Fault | Ok(c: Config)

  /** newList() */
  const INITIAL: Config := Config(map[LIST := Cell(NULL, Open, Open, true, "", Block(0, ""), 0)], [], [])

  function Goto(c: Config, t: nat, pc: Pc): Config
    requires t < |c.threads|
  {
    c.(threads := c.threads[t := c.threads[t].(pc := pc)])
  }

  function Put(c: Config, a: Addr, cell: Cell): Config {
    c.(cells := c.cells[a := cell])
  }

  /** Acquire a usage lock and go on at `pc`. */
  function Acquire(c: Config, t: nat, a: Addr, pc: Pc): StepResult
    requires t < |c.threads|
  {
    if a !in c.cells then Fault else
      match c.cells[a].usage
      case Destroyed => Fault
      case Held(_) => Blocked
      case Open => Ok(Goto(Put(c, a, c.cells[a].(usage := Held(t))), t, pc))
  }

  function AcquireContent(c: Config, t: nat, a: Addr, pc: Pc): StepResult
    requires t < |c.threads|
  {
    if a !in c.cells then Fault else
      match c.cells[a].content
      case Destroyed => Fault
      case Held(_) => Blocked
      case Open => Ok(Goto(Put(c, a, c.cells[a].(content := Held(t))), t, pc))
  }

  function Unlock(c: Config, t: nat, a: Addr, pc: Pc): StepResult
    requires t < |c.threads|
  {
    if a !in c.cells || c.cells[a].usage != Held(t) then Fault
    else Ok(Goto(Put(c, a, c.cells[a].(usage := Open)), t, pc))
  }

  function UnlockData(c: Config, t: nat, a: Addr, pc: Pc): StepResult
    requires t < |c.threads|
  {
    if a !in c.cells || c.cells[a].content != Held(t) then Fault
    else Ok(Goto(Put(c, a, c.cells[a].(content := Open)), t, pc))
  }

  /** The usage lock a thread at this point is about to acquire, or NULL. */
  function WaitsUsage(pc: Pc): Addr {
    match pc
    case LockList => LIST
    case LockNext(_, el) => el
    case LockElem(_, el) => el
    case _ => NULL
  }

  function WaitsContent(pc: Pc): Addr {
    match pc
    case LockContent(_, el) => el
    case _ => NULL
  }

  /** createElement: nobody else can see the node yet, so building it is one step. */
  function NewCell(op: Op): Cell
    requires op.Append? || op.AppendUnique?
  {
    Cell(NULL, Open, Open, true, op.id, Block(|op.data|, op.data), |op.data|)
  }

  predicate Appends(op: Op) { op.Append? || op.AppendUnique? }

  predicate Removes(op: Op) { op.RemoveFirst? || op.RemoveById? || op.RemoveAll? }

  predicate FirstOnly(op: Op) { op.GetFirst? || op.RemoveFirst? || op.RemoveAll? }

  function TokenOf(t: nat, th: Thread): Token {
    Token(t, th.op, th.count, th.text)
  }

  /** Where a thread goes when the element after `at` is `n`. */
  function AfterLook(t: nat, th: Thread, at: Addr, n: Addr): Pc {
    if n == NULL then
      if th.op.Append? then Link(at)
      else if th.op.AppendUnique? then CreateAtEnd(at)
      else Release(at, Finish(TokenOf(t, th)).1)
    else if Searches(th.op) then Compare(at, n)
    else if FirstOnly(th.op) then LockElem(at, n)
    else LockNext(at, n)
  }

  /** Where it goes once it holds both locks of the element it was looking for. */
  function AfterContent(op: Op, at: Addr, el: Addr): Pc {
    if op.GetFirst? then EarlyRelease(el)
    else if Removes(op) then Drop(at, el, NULL, 0)
    else UnlockElem(at, el)
  }

  /** The next step of thread `t`; `a` is the address malloc returns if the step allocates. */
  function Step(c: Config, t: nat, a: Addr): StepResult
    requires t < |c.threads|
  {
    var th := c.threads[t];
    match th.pc
    case Create =>
      if !Appends(th.op) then Fault else if a in c.cells || a == NULL then Blocked
      else Ok(Put(c, a, NewCell(th.op)).(threads := c.threads[t := th.(pc := LockList, node := a)]))
    case LockList =>
      var r := Acquire(c, t, LIST, Look(LIST));
      if r.Ok? then Ok(r.c.(entered := r.c.entered + [Entry(t, th.op)])) else r
    case Look(at) =>
      if at !in c.cells then Fault else Ok(Goto(c, t, AfterLook(t, th, at, c.cells[at].next)))
    case Compare(at, el) =>
      if el !in c.cells || !c.cells[el].named || !Searches(th.op) then Fault
      else if c.cells[el].id != th.op.id then Ok(Goto(c, t, LockNext(at, el)))
      else if th.op.AppendUnique? then Ok(Goto(c, t, Release(at, Code(1))))
      else Ok(Goto(c, t, LockElem(at, el)))
    case LockNext(at, el) =>
      Acquire(c, t, el, if th.op.GetAllIds? then Note(at, el) else HandOver(at, el))
    case Note(at, el) =>
      if el !in c.cells || !c.cells[el].named then Fault
      else Ok(c.(threads := c.threads[t := th.(pc := HandOver(at, el), count := th.count + 1,
                                               text := th.text + "\n" + c.cells[el].id)]))
    case HandOver(at, el) => Unlock(c, t, at, Look(el))
    case CreateAtEnd(at) =>
      if !Appends(th.op) then Fault else if a in c.cells || a == NULL then Blocked
      else Ok(Put(c, a, NewCell(th.op)).(threads := c.threads[t := th.(pc := Link(at), node := a)]))
    case Link(at) =>
      if at !in c.cells then Fault
      else Ok(Goto(Put(c, at, c.cells[at].(next := th.node)), t,
                   Release(at, Finish(TokenOf(t, th)).1)))
    case LockElem(at, el) => Acquire(c, t, el, LockContent(at, el))
    case LockContent(at, el) => AcquireContent(c, t, el, AfterContent(th.op, at, el))
    case EarlyRelease(el) => Unlock(c, t, LIST, UnlockElem(NULL, el))
    case UnlockElem(at, el) =>
      Unlock(c, t, el, if th.op.Update? then LateRelease(at, el) else ReadSize(at, el))
    case LateRelease(at, el) => Unlock(c, t, at, FreePayload(el))
    case ReadSize(at, el) =>
      if el !in c.cells then Fault else Ok(Goto(c, t, CopyOut(at, el, c.cells[el].size)))
    case CopyOut(at, el, size) =>
      if el !in c.cells || c.cells[el].payload.Freed? then Fault
      else if |th.buf| == size then Ok(Goto(c, t, UnlockContent(at, el, Payload(Some(th.buf)))))
      else if |th.buf| >= |c.cells[el].payload.data| then Fault
      else Ok(c.(threads := c.threads[t := th.(buf := th.buf + [c.cells[el].payload.data[|th.buf|]])]))
    case FreePayload(el) =>
      if el !in c.cells || c.cells[el].payload.Freed? then Fault
      else Ok(Goto(Put(c, el, c.cells[el].(payload := Freed)), t, AllocPayload(el)))
    case AllocPayload(el) =>
      if el !in c.cells || !th.op.Update? then Fault
      else Ok(Goto(Put(c, el, c.cells[el].(payload := Block(|th.op.data|, ""))), t, CopyIn(el)))
    case CopyIn(el) =>
      if el !in c.cells || c.cells[el].payload.Freed? || !th.op.Update? then Fault
      else
        var b := c.cells[el].payload;
        if |b.data| == |th.op.data| then Ok(Goto(c, t, WriteSize(el)))
        else if |b.data| > |th.op.data| || |b.data| >= b.cap then Fault
        else Ok(Put(c, el, c.cells[el].(payload := Block(b.cap, b.data + [th.op.data[|b.data|]]))))
    case WriteSize(el) =>
      if el !in c.cells || !th.op.Update? then Fault
      else Ok(Goto(Put(c, el, c.cells[el].(size := |th.op.data|)), t, UnlockContent(NULL, el, Code(0))))
    case UnlockContent(at, el, r) => UnlockData(c, t, el, if at == NULL then Done(r) else Release(at, r))
    case Drop(at, el, after, stage) =>
      if el !in c.cells then Fault else
        var x := c.cells[el];
        if stage == 0 then Ok(Goto(c, t, Drop(at, el, x.next, 1)))
        else if stage == 1 then Unlock(c, t, el, Drop(at, el, after, 2))
        else if stage == 2 then UnlockData(c, t, el, Drop(at, el, after, 3))
        else if stage == 3 then
          if x.usage != Open || exists u :: 0 <= u < |c.threads| && WaitsUsage(c.threads[u].pc) == el then Fault
          else Ok(Goto(Put(c, el, x.(usage := Destroyed)), t, Drop(at, el, after, 4)))
        else if stage == 4 then
          if x.content != Open || exists u :: 0 <= u < |c.threads| && WaitsContent(c.threads[u].pc) == el then Fault
          else Ok(Goto(Put(c, el, x.(content := Destroyed)), t, Drop(at, el, after, 5)))
        else if stage == 5 then
          if x.payload.Freed? then Fault
          else Ok(Goto(Put(c, el, x.(payload := Freed)), t, Drop(at, el, after, 6)))
        else if stage == 6 then
          if !x.named then Fault else Ok(Goto(Put(c, el, x.(named := false)), t, Drop(at, el, after, 7)))
        else Ok(Goto(c.(cells := c.cells - {el}), t, Unlink(at, after)))
    case Unlink(at, after) =>
      if at !in c.cells then Fault
      else Ok(Goto(Put(c, at, c.cells[at].(next := after)), t,
                   if th.op.RemoveAll? then Look(at) else Release(at, if th.op.RemoveById? then Code(0) else Void)))
    case Release(at, r) => Unlock(c, t, at, Done(r))
    case Done(_) => Blocked
  }

  /** What the scheduler can do: start a call, or let one thread try its next step. */
  datatype Event = Call(op: Op) | Run(t: nat, a: Addr)

  function Fire(c: Config, e: Event): StepResult {
    match e
    case Call(op) =>
      Ok(c.(threads := c.threads + [Thread(op, if op.Append? then Create else LockList, NULL, 0, "", "")]))
    case Run(t, a) =>
      if t >= |c.threads| then Ok(c) else
        match Step(c, t, a)
        case Blocked => Ok(c)
        case other => other
  }

  /** A whole run under a schedule; a thread scheduled while blocked just waits. */
  function Execute(c: Config, schedule: seq<Event>): StepResult {
    if schedule == [] then Ok(c) else
      match Execute(c, schedule[..|schedule| - 1])
      case Ok(d) => Fire(d, schedule[|schedule| - 1])
      case other => other
  }
}
