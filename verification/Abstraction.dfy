/** From the heap with its locks and program counters to the pipeline. */
module Abstraction {
  import opened ListSpec
  import opened Pipeline
  import opened Machine
  import opened Chains
  import opened Invariant

  /** The payload an element counts as having: an updater that owns the content lock has
      logically replaced it already, however far its copying has got. */
  ghost function AbsData(c: Config, a: Addr): string
    requires a in c.cells
  {
    var x := c.cells[a];
    if x.content.Held? && x.content.tid < |c.threads| && c.threads[x.content.tid].op.Update? then
      c.threads[x.content.tid].op.data
    else if x.payload.Block? then x.payload.data else ""
  }

  /** The position a thread's pending operation counts as having reached (NULL: not in the list). */
  function TokenPlace(th: Thread): Addr {
    match th.pc
    case Look(at) => at
    case Compare(at, _) => at
    case LockNext(at, _) => at
    case Note(at, _) => at
    case HandOver(_, el) => el
    case CreateAtEnd(at) => at
    case Link(at) => at
    case LockElem(at, _) => at
    case LockContent(at, _) => at
    case Drop(at, _, _, _) => if th.op.RemoveAll? then at else NULL
    case Unlink(at, _) => if th.op.RemoveAll? then at else NULL
    case _ => NULL
  }

  ghost function TokAt(c: Config, a: Addr): Option<Token>
    requires a in c.cells
  {
    var l := c.cells[a].usage;
    if l.Held? && l.tid < |c.threads| && TokenPlace(c.threads[l.tid]) == a then
      Some(TokenOf(l.tid, c.threads[l.tid]))
    else None
  }

  ghost function StationOf(c: Config, a: Addr): Station
    requires a in c.cells
  {
    Station(Elem(c.cells[a].id, AbsData(c, a)), TokAt(c, a))
  }

  ghost function View(c: Config, ch: seq<Addr>): (s: seq<Station>)
    requires forall a :: a in ch ==> a in c.cells
    ensures |s| == |ch| && forall i :: 0 <= i < |ch| ==> s[i] == StationOf(c, ch[i])
  {
    seq(|ch|, i requires 0 <= i < |ch| => assert ch[i] in ch; StationOf(c, ch[i]))
  }

  /** The result a thread is already committed to. */
  ghost function Promise(c: Config, th: Thread): Option<Result>
    requires El(th.pc) != NULL ==> El(th.pc) in c.cells
  {
    match th.pc
    case EarlyRelease(el) => if el == NULL then None else Some(Payload(Some(AbsData(c, el))))
    case UnlockElem(_, el) =>
      if el == NULL then None else if th.op.Update? then Some(Code(0)) else Some(Payload(Some(AbsData(c, el))))
    case LateRelease(_, _) => Some(Code(0))
    case ReadSize(_, el) => if el == NULL then None else Some(Payload(Some(AbsData(c, el))))
    case CopyOut(_, el, _) => if el == NULL then None else Some(Payload(Some(AbsData(c, el))))
    case FreePayload(_) => Some(Code(0))
    case AllocPayload(_) => Some(Code(0))
    case CopyIn(_) => Some(Code(0))
    case WriteSize(_) => Some(Code(0))
    case UnlockContent(_, _, r) => Some(r)
    case Release(_, r) => Some(r)
    case Done(r) => Some(r)
    case Drop(_, _, _, _) => if th.op.RemoveAll? then None else Some(if th.op.RemoveById? then Code(0) else Void)
    case Unlink(_, _) => if th.op.RemoveAll? then None else Some(if th.op.RemoveById? then Code(0) else Void)
    case _ => None
  }

  ghost predicate Located(c: Config) {
    forall u :: 0 <= u < |c.threads| && El(c.threads[u].pc) != NULL ==> El(c.threads[u].pc) in c.cells
  }

  ghost function Promises(c: Config): map<nat, Result>
    requires Located(c)
  {
    map u: nat | u < |c.threads| && Promise(c, c.threads[u]).Some? :: Promise(c, c.threads[u]).value
  }

  ghost function Abs(c: Config, ch: seq<Addr>): Pipe
    requires Inv(c, ch)
  {
    assert Located(c) by {
      forall u | 0 <= u < |c.threads| && El(c.threads[u].pc) != NULL ensures El(c.threads[u].pc) in c.cells {
        assert ThreadOk(c, ch, u, c.threads[u]);
      }
    }
    Pipe(View(c, ch), Promises(c))
  }

  lemma TokenHolds(c: Config, ch: seq<Addr>, u: nat)
    requires Inv(c, ch) && u < |c.threads|
    ensures var p := TokenPlace(c.threads[u]);
            p != NULL ==> p in ch && p in c.cells && c.cells[p].usage == Held(u) && HoldsUsage(c.threads[u].pc, p)
                          && TokAt(c, p) == Some(TokenOf(u, c.threads[u]))
  {
    var th := c.threads[u];
    assert ThreadOk(c, ch, u, th);
    if th.pc.HandOver? { SuccFacts(ch, At(th.pc)); }
  }

  lemma PromiseFrame(c: Config, c': Config, th: Thread)
    requires El(th.pc) != NULL ==> El(th.pc) in c.cells && El(th.pc) in c'.cells
    requires HoldsContent(th.pc) && El(th.pc) != NULL ==> AbsData(c', El(th.pc)) == AbsData(c, El(th.pc))
    ensures Promise(c', th) == Promise(c, th)
  {
  }

  lemma OtherPromise(c: Config, ch: seq<Addr>, c': Config, ch': seq<Addr>, t: nat, u: nat)
    requires Respects(c, ch, c', ch', t) && u < |c.threads| && u != t
    requires ThreadOk(c, ch, u, c.threads[u]) && ThreadOk(c', ch', u, c'.threads[u])
    ensures Promise(c', c'.threads[u]) == Promise(c, c.threads[u])
  {
    var th := c.threads[u];
    if HoldsContent(th.pc) {
      assert c.cells[El(th.pc)].content == Held(u);
      assert c'.cells[El(th.pc)].payload == c.cells[El(th.pc)].payload;
      assert AbsData(c', El(th.pc)) == AbsData(c, El(th.pc));
    }
    PromiseFrame(c, c', th);
  }

  lemma OtherPromises(c: Config, ch: seq<Addr>, c': Config, ch': seq<Addr>, t: nat)
    requires Inv(c, ch) && Inv(c', ch') && Respects(c, ch, c', ch', t)
    ensures Located(c) && Located(c')
    ensures forall u :: 0 <= u < |c.threads| && u != t ==>
              Promise(c', c'.threads[u]) == Promise(c, c.threads[u])
  {
    forall u | 0 <= u < |c.threads| && u != t
      ensures El(c.threads[u].pc) != NULL ==> El(c.threads[u].pc) in c.cells && El(c.threads[u].pc) in c'.cells
      ensures Promise(c', c'.threads[u]) == Promise(c, c.threads[u])
    {
      assert ThreadOk(c, ch, u, c.threads[u]) && ThreadOk(c', ch', u, c'.threads[u]);
      OtherPromise(c, ch, c', ch', t, u);
    }
    forall u | 0 <= u < |c.threads| && El(c.threads[u].pc) != NULL ensures El(c.threads[u].pc) in c.cells {
      assert ThreadOk(c, ch, u, c.threads[u]);
    }
    forall u | 0 <= u < |c.threads| && El(c'.threads[u].pc) != NULL ensures El(c'.threads[u].pc) in c'.cells {
      assert ThreadOk(c', ch', u, c'.threads[u]);
    }
  }

  lemma EqualPromises(c: Config, c': Config)
    requires Located(c) && Located(c') && |c'.threads| == |c.threads|
    requires forall u :: 0 <= u < |c.threads| ==> Promise(c', c'.threads[u]) == Promise(c, c.threads[u])
    ensures Promises(c') == Promises(c)
  {
  }

  lemma NewPromise(c: Config, c': Config, t: nat)
    requires Located(c) && Located(c') && |c'.threads| == |c.threads| && t < |c.threads|
    requires forall u :: 0 <= u < |c.threads| && u != t ==> Promise(c', c'.threads[u]) == Promise(c, c.threads[u])
    requires Promise(c', c'.threads[t]).Some?
    ensures Promises(c') == Promises(c)[t := Promise(c', c'.threads[t]).value]
  {
    var m, m' := Promises(c), Promises(c');
    assert forall u :: u != t ==> (u in m' <==> u in m);
    assert forall u :: u != t && u in m ==> m'[u] == m[u];
  }

  lemma PromisesSame(c: Config, ch: seq<Addr>, c': Config, ch': seq<Addr>, t: nat)
    requires Inv(c, ch) && Inv(c', ch') && Respects(c, ch, c', ch', t) && t < |c.threads|
    requires ThreadOk(c, ch, t, c.threads[t]) && ThreadOk(c', ch', t, c'.threads[t])
    requires Promise(c', c'.threads[t]) == Promise(c, c.threads[t])
    ensures Abs(c', ch').done == Abs(c, ch).done
  {
    OtherPromises(c, ch, c', ch', t);
    EqualPromises(c, c');
  }

  lemma PromiseSettled(c: Config, ch: seq<Addr>, c': Config, ch': seq<Addr>, t: nat)
    requires Inv(c, ch) && Inv(c', ch') && Respects(c, ch, c', ch', t) && t < |c.threads|
    requires ThreadOk(c, ch, t, c.threads[t]) && ThreadOk(c', ch', t, c'.threads[t])
    requires Promise(c', c'.threads[t]).Some?
    ensures Abs(c', ch').done == Abs(c, ch).done[t := Promise(c', c'.threads[t]).value]
  {
    OtherPromises(c, ch, c', ch', t);
    NewPromise(c, c', t);
  }

  /** A place whose token and payload the step does not touch looks the same. */
  lemma StationSame(c: Config, ch: seq<Addr>, c': Config, ch': seq<Addr>, t: nat, a: Addr)
    requires Inv(c, ch) && Inv(c', ch') && Respects(c, ch, c', ch', t) && t < |c.threads|
    requires a in ch && a in ch'
    requires TokenPlace(c.threads[t]) == a <==> TokenPlace(c'.threads[t]) == a
    requires TokenPlace(c.threads[t]) == a ==> TokenOf(t, c'.threads[t]) == TokenOf(t, c.threads[t])
    requires a in c.cells && a in c'.cells && AbsData(c', a) == AbsData(c, a)
    ensures StationOf(c', a) == StationOf(c, a)
  {
    TokSame(c, ch, c', ch', t, a);
  }

  /** A lock another thread holds after the step, it held before. */
  lemma HeldBefore(c: Config, ch: seq<Addr>, c': Config, ch': seq<Addr>, t: nat, a: Addr)
    requires Inv(c, ch) && Inv(c', ch') && Respects(c, ch, c', ch', t) && t < |c.threads|
    requires a in c.cells && a in c'.cells && c'.cells[a].usage.Held? && c'.cells[a].usage.tid != t
    ensures c.cells[a].usage == c'.cells[a].usage
  {
    assert LockOk(c', a);
    var u := c'.cells[a].usage.tid;
    assert ThreadOk(c, ch, u, c.threads[u]);
  }

  lemma TokSame(c: Config, ch: seq<Addr>, c': Config, ch': seq<Addr>, t: nat, a: Addr)
    requires Inv(c, ch) && Inv(c', ch') && Respects(c, ch, c', ch', t) && t < |c.threads|
    requires a in ch && a in ch' && a in c.cells && a in c'.cells
    requires TokenPlace(c.threads[t]) == a <==> TokenPlace(c'.threads[t]) == a
    requires TokenPlace(c.threads[t]) == a ==> TokenOf(t, c'.threads[t]) == TokenOf(t, c.threads[t])
    ensures TokAt(c', a) == TokAt(c, a)
  {
    TokenHolds(c, ch, t);
    TokenHolds(c', ch', t);
    assert LockOk(c, a) && LockOk(c', a);
    if c'.cells[a].usage.Held? && c'.cells[a].usage.tid != t {
      HeldBefore(c, ch, c', ch', t, a);
    }
  }

  /** The step took thread `t`'s token away from this place. */
  lemma TokGone(c: Config, ch: seq<Addr>, c': Config, ch': seq<Addr>, t: nat, a: Addr)
    requires Inv(c, ch) && Inv(c', ch') && Respects(c, ch, c', ch', t) && t < |c.threads|
    requires a in ch' && a in c.cells && a in c'.cells
    requires c.cells[a].usage == Held(t) || c.cells[a].usage.Open?
    requires TokenPlace(c'.threads[t]) != a
    ensures TokAt(c', a) == None
  {
    assert LockOk(c', a);
    if c'.cells[a].usage.Held? && c'.cells[a].usage.tid != t {
      HeldBefore(c, ch, c', ch', t, a);
    }
  }

  /** Payloads of cells the step does not touch. */
  lemma DataSame(c: Config, ch: seq<Addr>, c': Config, ch': seq<Addr>, t: nat, a: Addr)
    requires Inv(c, ch) && Respects(c, ch, c', ch', t) && t < |c.threads|
    requires a in c.cells && a in c'.cells && c'.threads[t].op == c.threads[t].op
    requires c'.cells[a].content == c.cells[a].content && c'.cells[a].payload == c.cells[a].payload
    ensures AbsData(c', a) == AbsData(c, a)
  {
    assert LockOk(c, a);
  }

  /** A step that moves no token, settles no result and replaces no payload is invisible. */
  lemma Invisible(c: Config, ch: seq<Addr>, c': Config, t: nat)
    requires Inv(c, ch) && Inv(c', ch) && Respects(c, ch, c', ch, t) && t < |c.threads|
    requires ThreadOk(c, ch, t, c.threads[t]) && ThreadOk(c', ch, t, c'.threads[t])
    requires TokenPlace(c'.threads[t]) == TokenPlace(c.threads[t])
    requires TokenPlace(c.threads[t]) != NULL ==> TokenOf(t, c'.threads[t]) == TokenOf(t, c.threads[t])
    requires Promise(c', c'.threads[t]) == Promise(c, c.threads[t])
    requires forall a :: a in ch && a in c.cells && a in c'.cells ==> AbsData(c', a) == AbsData(c, a)
    ensures Abs(c', ch) == Abs(c, ch)
  {
    PromisesSame(c, ch, c', ch, t);
    forall i | 0 <= i < |ch| ensures View(c', ch)[i] == View(c, ch)[i] {
      assert ch[i] in ch;
      StationSame(c, ch, c', ch, t, ch[i]);
    }
  }
}
