/** The shapes a step can have, and that each keeps the invariant. */
module Preserve {
  import opened ListSpec
  import opened Machine
  import opened Chains
  import opened Invariant

  /** `c'` differs from `c` in thread `t` and in cell `x` only. */
  ghost predicate Changes(c: Config, t: nat, x: Addr, y: Cell, th: Thread, c': Config) {
    && t < |c.threads| && x in c.cells
    && c'.cells == c.cells[x := y] && c'.threads == c.threads[t := th]
  }

  /** Locks change hands only between "open" and thread `t`; what others hold stays put. */
  ghost predicate FairCell(ch: seq<Addr>, t: nat, x: Addr, old': Cell, y: Cell, before: Thread, after: Thread) {
    && (old'.usage.Held? && old'.usage.tid != t ==> y.usage == old'.usage)
    && (old'.content.Held? && old'.content.tid != t ==>
          y.content == old'.content && y.payload == old'.payload && y.size == old'.size)
    && (y.usage.Held? && y.usage != old'.usage ==> y.usage.tid == t)
    && (y.content.Held? && y.content != old'.content ==> y.content.tid == t)
    && (y.usage == Held(t) ==> HoldsUsage(after.pc, x))
    && (y.content == Held(t) ==> HoldsContent(after.pc) && El(after.pc) == x)
    && (x in ch ==> y.id == old'.id)
    && (x in ch || Private(before) == x)
    && (x in ch && x != LIST ==> NodeOk(y))
    && (x == LIST ==> !y.usage.Destroyed?)
  }

  /** Elsewhere the thread keeps exactly the locks it had, and its private node. */
  ghost predicate FairThread(x: Addr, before: Thread, after: Thread) {
    && (forall a :: a != x && HoldsUsage(before.pc, a) ==> HoldsUsage(after.pc, a))
    && (HoldsContent(before.pc) && El(before.pc) != x ==> HoldsContent(after.pc) && El(after.pc) == El(before.pc))
    && Private(after) == Private(before)
  }

  /** Pointers change only when a removal relinks the predecessor. */
  ghost predicate FairLink(ch: seq<Addr>, x: Addr, old': Cell, y: Cell, before: Thread, after: Thread) {
    || (y.next == old'.next && (Severs(before.pc) ==> Severs(after.pc) && At(after.pc) == At(before.pc)))
    || (y.next == Succ(ch, x) && (Severs(before.pc) ==> At(before.pc) == x))
  }

  lemma OneCell(c: Config, ch: seq<Addr>, t: nat, x: Addr, y: Cell, th: Thread, c': Config)
    requires Inv(c, ch) && Changes(c, t, x, y, th, c')
    requires FairCell(ch, t, x, c.cells[x], y, c.threads[t], th)
    requires FairThread(x, c.threads[t], th)
    requires FairLink(ch, x, c.cells[x], y, c.threads[t], th)
    requires ThreadOk(c', ch, t, th)
    ensures Inv(c', ch) && Respects(c, ch, c', ch, t)
  {
    OneCellRespects(c, ch, t, x, y, th, c');
    OneCellLocks(c, ch, t, x, y, th, c');
    OneCellLinks(c, ch, t, x, y, th, c');
    OneCellOwned(c, ch, t, x, y, th, c');
    Assemble(c, ch, c', ch, t);
  }

  lemma OneCellRespects(c: Config, ch: seq<Addr>, t: nat, x: Addr, y: Cell, th: Thread, c': Config)
    requires Shape(c, ch) && ThreadsOk(c, ch) && Apart(c) && Changes(c, t, x, y, th, c')
    requires FairCell(ch, t, x, c.cells[x], y, c.threads[t], th)
    ensures Respects(c, ch, c', ch, t) && Shape(c', ch)
  {
    forall u | 0 <= u < |c.threads| && u != t ensures Kept(c, c', ch, Private(c.threads[u])) {
      assert ThreadOk(c, ch, u, c.threads[u]);
    }
  }

  lemma OneCellLocks(c: Config, ch: seq<Addr>, t: nat, x: Addr, y: Cell, th: Thread, c': Config)
    requires LocksOk(c) && Changes(c, t, x, y, th, c')
    requires FairCell(ch, t, x, c.cells[x], y, c.threads[t], th)
    requires FairThread(x, c.threads[t], th)
    ensures LocksOk(c')
  {
    forall a | a in c'.cells ensures LockOk(c', a) {
      assert LockOk(c, a);
    }
  }

  lemma OneCellLinks(c: Config, ch: seq<Addr>, t: nat, x: Addr, y: Cell, th: Thread, c': Config)
    requires Shape(c, ch) && LocksOk(c) && NodesOk(c, ch) && Changes(c, t, x, y, th, c')
    requires FairCell(ch, t, x, c.cells[x], y, c.threads[t], th)
    requires FairThread(x, c.threads[t], th)
    requires FairLink(ch, x, c.cells[x], y, c.threads[t], th)
    requires ThreadOk(c', ch, t, th)
    ensures NodesOk(c', ch)
  {
    forall a | a in ch ensures LinkOk(c', ch, a) {
      assert LinkOk(c, ch, a);
      assert LockOk(c, a);
    }
  }

  lemma OneCellOwned(c: Config, ch: seq<Addr>, t: nat, x: Addr, y: Cell, th: Thread, c': Config)
    requires AllOwned(c, ch) && Apart(c) && Changes(c, t, x, y, th, c')
    requires FairThread(x, c.threads[t], th)
    ensures AllOwned(c', ch)
    ensures Apart(c')
  {
    forall a | a in c'.cells ensures Owned(c', ch, a) {
      assert Owned(c, ch, a);
      if a !in ch {
        var u :| 0 <= u < |c.threads| && Private(c.threads[u]) == a;
        assert Private(c'.threads[u]) == a;
      }
    }
    assert forall u :: 0 <= u < |c.threads| ==> Private(c'.threads[u]) == Private(c.threads[u]);
  }

  /** Two chains, heaps and thread tables: the parts of the invariant that are not per thread. */
  lemma Assemble(c: Config, ch: seq<Addr>, c': Config, ch': seq<Addr>, t: nat)
    requires Shape(c, ch) && ThreadsOk(c, ch) && Shape(c', ch') && Respects(c, ch, c', ch', t) && t < |c.threads|
    requires ThreadOk(c', ch', t, c'.threads[t])
    requires LocksOk(c') && NodesOk(c', ch') && AllOwned(c', ch') && Apart(c')
    ensures Inv(c', ch')
  {
    forall u | 0 <= u < |c'.threads| ensures ThreadOk(c', ch', u, c'.threads[u]) {
      if u != t { OtherThread(c, ch, c', ch', t, u); }
    }
  }

  /** The thread keeps every lock it had. */
  ghost predicate KeepsLocks(before: Thread, after: Thread) {
    && (forall a :: HoldsUsage(before.pc, a) ==> HoldsUsage(after.pc, a))
    && (HoldsContent(before.pc) ==> HoldsContent(after.pc) && El(after.pc) == El(before.pc))
    && !Severs(before.pc)
  }

  /** A new node, known to its creator only. */
  lemma Added(c: Config, ch: seq<Addr>, t: nat, x: Addr, y: Cell, th: Thread, c': Config)
    requires Inv(c, ch) && t < |c.threads| && x !in c.cells && x != NULL
    requires c'.cells == c.cells[x := y] && c'.threads == c.threads[t := th]
    requires y.usage.Open? && y.content.Open?
    requires Private(c.threads[t]) == NULL && Private(th) == x
    requires KeepsLocks(c.threads[t], th)
    requires ThreadOk(c', ch, t, th)
    ensures Inv(c', ch) && Respects(c, ch, c', ch, t)
  {
    AddedRespects(c, ch, t, x, y, th, c');
    AddedOwned(c, ch, t, x, y, th, c');
    AddedLocks(c, ch, t, x, y, th, c');
    Assemble(c, ch, c', ch, t);
  }

  lemma AddedLocks(c: Config, ch: seq<Addr>, t: nat, x: Addr, y: Cell, th: Thread, c': Config)
    requires Shape(c, ch) && LocksOk(c) && NodesOk(c, ch) && t < |c.threads| && x !in c.cells
    requires c'.cells == c.cells[x := y] && c'.threads == c.threads[t := th]
    requires y.usage.Open? && y.content.Open? && KeepsLocks(c.threads[t], th)
    ensures LocksOk(c') && NodesOk(c', ch)
  {
    forall a | a in c'.cells ensures LockOk(c', a) {
      if a != x { assert LockOk(c, a); }
    }
    forall a | a in ch ensures LinkOk(c', ch, a) {
      assert LinkOk(c, ch, a);
      assert LockOk(c, a);
    }
  }

  lemma AddedRespects(c: Config, ch: seq<Addr>, t: nat, x: Addr, y: Cell, th: Thread, c': Config)
    requires Shape(c, ch) && ThreadsOk(c, ch) && t < |c.threads| && x !in c.cells && x != NULL
    requires c'.cells == c.cells[x := y] && c'.threads == c.threads[t := th]
    ensures Shape(c', ch) && Respects(c, ch, c', ch, t)
  {
    forall u | 0 <= u < |c.threads| && u != t ensures Kept(c, c', ch, Private(c.threads[u])) {
      assert ThreadOk(c, ch, u, c.threads[u]);
    }
  }

  lemma AddedOwned(c: Config, ch: seq<Addr>, t: nat, x: Addr, y: Cell, th: Thread, c': Config)
    requires Shape(c, ch) && ThreadsOk(c, ch) && AllOwned(c, ch) && Apart(c) && t < |c.threads| && x !in c.cells && x != NULL
    requires c'.cells == c.cells[x := y] && c'.threads == c.threads[t := th]
    requires Private(c.threads[t]) == NULL && Private(th) == x
    ensures AllOwned(c', ch)
    ensures Apart(c')
  {
    forall u | 0 <= u < |c.threads| && u != t ensures Private(c'.threads[u]) != x {
      assert ThreadOk(c, ch, u, c.threads[u]);
    }
    forall a | a in c'.cells ensures Owned(c', ch, a) {
      if a == x {
        assert Private(c'.threads[t]) == a;
      } else {
        assert Owned(c, ch, a);
        if a !in ch {
          var u :| 0 <= u < |c.threads| && Private(c.threads[u]) == a;
          assert u != t && Private(c'.threads[u]) == a;
        }
      }
    }
  }

  /** A node that was out of the chain is freed. */
  lemma Removed(c: Config, ch: seq<Addr>, t: nat, x: Addr, th: Thread, c': Config)
    requires Inv(c, ch) && t < |c.threads| && x in c.cells && x != NULL
    requires c'.cells == c.cells - {x} && c'.threads == c.threads[t := th]
    requires Private(c.threads[t]) == x && Private(th) == NULL
    requires c.threads[t].pc.Drop? && c.threads[t].pc.stage == 7 && th.pc.Unlink? && At(th.pc) == At(c.threads[t].pc)
    requires c.cells[x].usage.Destroyed? && c.cells[x].content.Destroyed?
    requires ThreadOk(c', ch, t, th)
    ensures Inv(c', ch) && Respects(c, ch, c', ch, t)
  {
    RemovedRespects(c, ch, t, x, th, c');
    RemovedOwned(c, ch, t, x, th, c');
    RemovedLocks(c, ch, t, x, th, c');
    Assemble(c, ch, c', ch, t);
  }

  lemma RemovedLocks(c: Config, ch: seq<Addr>, t: nat, x: Addr, th: Thread, c': Config)
    requires Shape(c, ch) && LocksOk(c) && NodesOk(c, ch) && t < |c.threads| && x in c.cells && x != NULL && Shape(c', ch)
    requires c'.cells == c.cells - {x} && c'.threads == c.threads[t := th]
    requires c.threads[t].pc.Drop? && c.threads[t].pc.stage == 7 && th.pc.Unlink? && At(th.pc) == At(c.threads[t].pc)
    requires c.cells[x].usage.Destroyed? && c.cells[x].content.Destroyed?
    ensures LocksOk(c')
    ensures NodesOk(c', ch)
  {
    forall a | a in c'.cells ensures LockOk(c', a) {
      assert LockOk(c, a);
    }
    forall a | a in ch ensures LinkOk(c', ch, a) {
      assert LinkOk(c, ch, a);
      assert LockOk(c, a);
    }
  }

  lemma RemovedRespects(c: Config, ch: seq<Addr>, t: nat, x: Addr, th: Thread, c': Config)
    requires Shape(c, ch) && ThreadsOk(c, ch) && Apart(c) && t < |c.threads| && x in c.cells && x != NULL
    requires c'.cells == c.cells - {x} && c'.threads == c.threads[t := th]
    requires Private(c.threads[t]) == x
    requires c.cells[x].usage.Destroyed? && c.cells[x].content.Destroyed?
    ensures Shape(c', ch) && Respects(c, ch, c', ch, t)
  {
    assert ThreadOk(c, ch, t, c.threads[t]);
    forall u | 0 <= u < |c.threads| && u != t
      ensures Kept(c, c', ch, Private(c.threads[u]))
    {
      assert ThreadOk(c, ch, u, c.threads[u]);
      assert u < t || t < u;
    }
  }

  lemma RemovedOwned(c: Config, ch: seq<Addr>, t: nat, x: Addr, th: Thread, c': Config)
    requires AllOwned(c, ch) && Apart(c) && t < |c.threads| && x in c.cells
    requires c'.cells == c.cells - {x} && c'.threads == c.threads[t := th]
    requires Private(c.threads[t]) == x && Private(th) == NULL
    ensures AllOwned(c', ch)
    ensures Apart(c')
  {
    forall a | a in c'.cells ensures Owned(c', ch, a) {
      assert Owned(c, ch, a);
      if a !in ch {
        var u :| 0 <= u < |c.threads| && Private(c.threads[u]) == a;
        assert u != t && Private(c'.threads[u]) == a;
      }
    }
    assert forall u :: 0 <= u < |c.threads| && u != t ==> Private(c'.threads[u]) == Private(c.threads[u]);
  }

  /** `ch'` is `ch` with `x` behind its last element `at`. */
  ghost predicate Extended(ch: seq<Addr>, at: Addr, x: Addr, ch': seq<Addr>) {
    && (forall a :: a in ch' <==> a in ch || a == x)
    && (forall a :: a in ch && a != at ==> Succ(ch', a) == Succ(ch, a))
    && Succ(ch', at) == x && Succ(ch', x) == NULL
  }

  /** A node is linked in behind the last element. */
  lemma Published(c: Config, ch: seq<Addr>, t: nat, th: Thread, c': Config)
    requires Inv(c, ch) && t < |c.threads| && c.threads[t].pc.Link?
    requires var at, x := At(c.threads[t].pc), c.threads[t].node;
             && at in c.cells
             && c'.cells == c.cells[at := c.cells[at].(next := x)] && c'.threads == c.threads[t := th]
    requires th.pc.Release? && th.pc.at == At(c.threads[t].pc) && Fits(th)
    ensures var x := c.threads[t].node;
            Inv(c', ch + [x]) && Respects(c, ch, c', ch + [x], t) && x in c.cells && x !in ch
            && At(c.threads[t].pc) == ch[|ch| - 1]
  {
    var x := c.threads[t].node;
    PublishedSelf(c, ch, t, th, c', ch + [x]);
    PublishedRespects(c, ch, t, th, c', ch + [x]);
    PublishedInv(c, ch, t, th, c', ch + [x]);
  }

  lemma PublishedInv(c: Config, ch: seq<Addr>, t: nat, th: Thread, c': Config, ch': seq<Addr>)
    requires Inv(c, ch) && t < |c.threads| && c.threads[t].pc.Link?
    requires var at, x := At(c.threads[t].pc), c.threads[t].node;
             && at in c.cells && Extended(ch, at, x, ch')
             && c'.cells == c.cells[at := c.cells[at].(next := x)] && c'.threads == c.threads[t := th]
    requires Shape(c', ch') && ThreadOk(c', ch', t, th) && Respects(c, ch, c', ch', t)
    requires th.pc.Release? && th.pc.at == At(c.threads[t].pc)
    ensures Inv(c', ch')
  {
    PublishedOwned(c, ch, t, th, c', ch');
    PublishedLocks(c, ch, t, th, c');
    PublishedLinks(c, ch, t, th, c', ch');
    Assemble(c, ch, c', ch', t);
  }

  lemma PublishedPlace(c: Config, ch: seq<Addr>, t: nat)
    requires Shape(c, ch) && ThreadsOk(c, ch) && t < |c.threads| && c.threads[t].pc.Link?
    ensures var at, x := At(c.threads[t].pc), c.threads[t].node;
            && x in c.cells && x !in ch && x != NULL && Extended(ch, at, x, ch + [x]) && Distinct(ch + [x])
            && at == ch[|ch| - 1] && c.cells[at].usage == Held(t)
  {
    var at, x := At(c.threads[t].pc), c.threads[t].node;
    assert ThreadOk(c, ch, t, c.threads[t]);
    assert Private(c.threads[t]) == x;
    SuccAppend(ch, x);
    SuccFacts(ch, at);
  }

  lemma PublishedSelf(c: Config, ch: seq<Addr>, t: nat, th: Thread, c': Config, ch': seq<Addr>)
    requires Shape(c, ch) && ThreadsOk(c, ch) && t < |c.threads| && c.threads[t].pc.Link?
    requires var at, x := At(c.threads[t].pc), c.threads[t].node;
             && at in c.cells && ch' == ch + [x]
             && c'.cells == c.cells[at := c.cells[at].(next := x)] && c'.threads == c.threads[t := th]
    requires th.pc.Release? && th.pc.at == At(c.threads[t].pc) && Fits(th)
    ensures var at, x := At(c.threads[t].pc), c.threads[t].node;
            && x in c.cells && x !in ch && Extended(ch, at, x, ch') && at == ch[|ch| - 1]
            && Shape(c', ch') && ThreadOk(c', ch', t, th)
  {
    PublishedPlace(c, ch, t);
  }

  lemma PublishedLocks(c: Config, ch: seq<Addr>, t: nat, th: Thread, c': Config)
    requires Shape(c, ch) && ThreadsOk(c, ch) && LocksOk(c) && t < |c.threads| && c.threads[t].pc.Link?
    requires var at, x := At(c.threads[t].pc), c.threads[t].node;
             && at in c.cells
             && c'.cells == c.cells[at := c.cells[at].(next := x)] && c'.threads == c.threads[t := th]
    requires th.pc.Release? && th.pc.at == At(c.threads[t].pc)
    ensures LocksOk(c')
  {
    assert ThreadOk(c, ch, t, c.threads[t]);
    forall a | a in c'.cells ensures LockOk(c', a) {
      assert LockOk(c, a);
    }
  }

  lemma PublishedLinks(c: Config, ch: seq<Addr>, t: nat, th: Thread, c': Config, ch': seq<Addr>)
    requires Shape(c, ch) && ThreadsOk(c, ch) && LocksOk(c) && NodesOk(c, ch) && t < |c.threads| && c.threads[t].pc.Link?
    requires var at, x := At(c.threads[t].pc), c.threads[t].node;
             && at in c.cells && Extended(ch, at, x, ch')
             && c'.cells == c.cells[at := c.cells[at].(next := x)] && c'.threads == c.threads[t := th]
    ensures NodesOk(c', ch')
  {
    var at, x := At(c.threads[t].pc), c.threads[t].node;
    assert ThreadOk(c, ch, t, c.threads[t]);
    assert Private(c.threads[t]) == x;
    forall a | a in ch' ensures LinkOk(c', ch', a) {
      if a in ch {
        assert LinkOk(c, ch, a);
        assert LockOk(c, a);
      }
    }
  }

  lemma PublishedRespects(c: Config, ch: seq<Addr>, t: nat, th: Thread, c': Config, ch': seq<Addr>)
    requires Shape(c, ch) && ThreadsOk(c, ch) && Apart(c) && t < |c.threads| && c.threads[t].pc.Link?
    requires var at, x := At(c.threads[t].pc), c.threads[t].node;
             && at in c.cells && Extended(ch, at, x, ch')
             && c'.cells == c.cells[at := c.cells[at].(next := x)] && c'.threads == c.threads[t := th]
    ensures Respects(c, ch, c', ch', t)
  {
    var at, x := At(c.threads[t].pc), c.threads[t].node;
    assert ThreadOk(c, ch, t, c.threads[t]);
    assert Private(c.threads[t]) == x;
    assert c.cells[at].usage == Held(t);
    forall u | 0 <= u < |c.threads| && u != t
      ensures Kept(c, c', ch', Private(c.threads[u]))
    {
      assert ThreadOk(c, ch, u, c.threads[u]);
      assert u < t || t < u;
    }
  }

  lemma PublishedOwned(c: Config, ch: seq<Addr>, t: nat, th: Thread, c': Config, ch': seq<Addr>)
    requires AllOwned(c, ch) && Apart(c) && t < |c.threads| && c.threads[t].pc.Link?
    requires c'.cells.Keys == c.cells.Keys && c'.threads == c.threads[t := th]
    requires Private(th) == NULL && forall a :: a in ch' <==> a in ch || a == c.threads[t].node
    ensures AllOwned(c', ch')
    ensures Apart(c')
  {
    forall a | a in c'.cells ensures Owned(c', ch', a) {
      assert Owned(c, ch, a);
      if a !in ch' {
        var u :| 0 <= u < |c.threads| && Private(c.threads[u]) == a;
        assert u != t && Private(c'.threads[u]) == a;
      }
    }
    assert forall u :: 0 <= u < |c.threads| && u != t ==> Private(c'.threads[u]) == Private(c.threads[u]);
  }

  /** `ch'` is `ch` without `el`, which came right after `at`. */
  ghost predicate Shortened(ch: seq<Addr>, at: Addr, el: Addr, ch': seq<Addr>) {
    && (forall a :: a in ch' <==> a in ch && a != el)
    && (forall a :: a in ch && a != el && a != at ==> Succ(ch', a) == Succ(ch, a))
    && Succ(ch', at) == Succ(ch, el)
  }

  lemma ShortenedFacts(ch: seq<Addr>, at: Addr)
    requires Distinct(ch) && NULL !in ch && at in ch && Succ(ch, at) != NULL
    ensures var el := Succ(ch, at);
            && el in ch && IndexOf(ch, el) == IndexOf(ch, at) + 1
            && Shortened(ch, at, el, Without(ch, IndexOf(ch, el))) && Distinct(Without(ch, IndexOf(ch, el)))
            && Without(ch, IndexOf(ch, el)) != [] && Without(ch, IndexOf(ch, el))[0] == ch[0]
  {
    SuccFacts(ch, at);
    var k := IndexOf(ch, Succ(ch, at));
    IndexWithout(ch, k);
    SuccWithout(ch, k);
    assert ch[k - 1] == at;
  }

  /** A removal has both locks of the element after `at`: nobody else can reach it any more. */
  lemma Detached(c: Config, ch: seq<Addr>, t: nat, th: Thread, c': Config, ch': seq<Addr>)
    requires Inv(c, ch) && t < |c.threads| && c.threads[t].pc.LockContent? && Removes(c.threads[t].op)
    requires var at, el := At(c.threads[t].pc), El(c.threads[t].pc);
             && el in c.cells && c.cells[el].content.Open?
             && c'.cells == c.cells[el := c.cells[el].(content := Held(t))] && c'.threads == c.threads[t := th]
             && Shortened(ch, at, el, ch') && Distinct(ch') && ch' != [] && ch'[0] == LIST
    requires th == c.threads[t].(pc := Drop(At(c.threads[t].pc), El(c.threads[t].pc), NULL, 0))
    ensures Inv(c', ch') && Respects(c, ch, c', ch', t)
  {
    DetachedSelf(c, ch, t, th, c', ch');
    DetachedRespects(c, ch, t, th, c', ch');
    DetachedOwned(c, ch, t, th, c', El(c.threads[t].pc), ch');
    DetachedLinks(c, ch, t, th, c', ch');
    Assemble(c, ch, c', ch', t);
  }

  lemma DetachedCell(c: Config, ch: seq<Addr>, t: nat)
    requires Shape(c, ch) && t < |c.threads| && ThreadOk(c, ch, t, c.threads[t]) && LocksOk(c) && NodesOk(c, ch)
    requires c.threads[t].pc.LockContent? && c.cells[El(c.threads[t].pc)].content.Open?
    ensures var el := El(c.threads[t].pc);
            && el in ch && el != LIST && c.cells[el].next == Succ(ch, el) && c.cells[el].usage == Held(t)
            && c.cells[el].named && Full(c.cells[el])
  {
    var at, el := At(c.threads[t].pc), El(c.threads[t].pc);
    SuccFacts(ch, at);
    assert LinkOk(c, ch, el) && LockOk(c, el);
    assert NodeOk(c.cells[el]);
  }

  lemma DetachedSelf(c: Config, ch: seq<Addr>, t: nat, th: Thread, c': Config, ch': seq<Addr>)
    requires Shape(c, ch) && t < |c.threads| && ThreadOk(c, ch, t, c.threads[t]) && LocksOk(c) && NodesOk(c, ch)
    requires c.threads[t].pc.LockContent? && Removes(c.threads[t].op)
    requires var at, el := At(c.threads[t].pc), El(c.threads[t].pc);
             && el in c.cells && c.cells[el].content.Open?
             && c'.cells == c.cells[el := c.cells[el].(content := Held(t))] && c'.threads == c.threads[t := th]
             && Shortened(ch, at, el, ch')
    requires th == c.threads[t].(pc := Drop(At(c.threads[t].pc), El(c.threads[t].pc), NULL, 0))
    ensures El(c.threads[t].pc) in ch && El(c.threads[t].pc) != LIST
    ensures Private(c.threads[t]) == NULL && Private(th) == El(c.threads[t].pc)
    ensures ThreadOk(c', ch', t, th)
  {
    DetachedCell(c, ch, t);
  }

  lemma DetachedLinks(c: Config, ch: seq<Addr>, t: nat, th: Thread, c': Config, ch': seq<Addr>)
    requires Shape(c, ch) && ThreadsOk(c, ch) && LocksOk(c) && NodesOk(c, ch) && t < |c.threads| && c.threads[t].pc.LockContent?
    requires var at, el := At(c.threads[t].pc), El(c.threads[t].pc);
             && el in c.cells && c.cells[el].content.Open?
             && c'.cells == c.cells[el := c.cells[el].(content := Held(t))] && c'.threads == c.threads[t := th]
             && Shortened(ch, at, el, ch')
    requires th == c.threads[t].(pc := Drop(At(c.threads[t].pc), El(c.threads[t].pc), NULL, 0))
    ensures LocksOk(c')
    ensures NodesOk(c', ch')
  {
    assert ThreadOk(c, ch, t, c.threads[t]);
    forall a | a in c'.cells ensures LockOk(c', a) {
      assert LockOk(c, a);
    }
    forall a | a in ch' ensures LinkOk(c', ch', a) {
      assert LinkOk(c, ch, a);
      assert LockOk(c, a);
    }
  }

  lemma DetachedOwned(c: Config, ch: seq<Addr>, t: nat, th: Thread, c': Config, el: Addr, ch': seq<Addr>)
    requires Shape(c, ch) && ThreadsOk(c, ch) && AllOwned(c, ch) && Apart(c) && t < |c.threads| && el in ch
    requires forall a :: a in ch' <==> a in ch && a != el
    requires c'.cells.Keys == c.cells.Keys && c'.threads == c.threads[t := th]
    requires Private(c.threads[t]) == NULL && Private(th) == el
    ensures AllOwned(c', ch')
    ensures Apart(c')
  {
    forall u | 0 <= u < |c.threads| && u != t ensures Private(c'.threads[u]) != el {
      assert ThreadOk(c, ch, u, c.threads[u]);
    }
    forall a | a in c'.cells ensures Owned(c', ch', a) {
      assert Owned(c, ch, a);
      if a == el {
        assert Private(c'.threads[t]) == a;
      } else if a !in ch' {
        var u :| 0 <= u < |c.threads| && Private(c.threads[u]) == a;
        assert u != t && Private(c'.threads[u]) == a;
      }
    }
  }

  lemma DetachedRespects(c: Config, ch: seq<Addr>, t: nat, th: Thread, c': Config, ch': seq<Addr>)
    requires Shape(c, ch) && ThreadsOk(c, ch) && t < |c.threads| && c.threads[t].pc.LockContent?
    requires var at, el := At(c.threads[t].pc), El(c.threads[t].pc);
             && el in c.cells && c.cells[el].content.Open? && el in ch && el != LIST
             && c'.cells == c.cells[el := c.cells[el].(content := Held(t))] && c'.threads == c.threads[t := th]
             && Shortened(ch, at, el, ch') && Distinct(ch') && ch' != [] && ch'[0] == LIST
    ensures Respects(c, ch, c', ch', t) && Shape(c', ch')
  {
    assert ThreadOk(c, ch, t, c.threads[t]);
    forall u | 0 <= u < |c.threads| && u != t ensures Kept(c, c', ch', Private(c.threads[u])) {
      assert ThreadOk(c, ch, u, c.threads[u]);
    }
  }
}
