/** The steps that change which nodes exist or which are in the chain. */
module Reshaping {
  import opened ListSpec
  import opened Pipeline
  import opened Machine
  import opened Chains
  import opened Invariant
  import opened Preserve
  import opened Abstraction
  import opened Simulation
  import opened Moves
  import opened Settling

  // ----- linking a new node in

  ghost function Linked(c: Config, t: nat): Config
    requires t < |c.threads| && c.threads[t].pc.Link? && c.threads[t].pc.at in c.cells
  {
    var th := c.threads[t];
    Edit(c, t, th.pc.at, c.cells[th.pc.at].(next := th.node), th.(pc := Release(th.pc.at, Finish(TokenOf(t, th)).1)))
  }

  lemma LinkReady(c: Config, ch: seq<Addr>, t: nat)
    requires LocalInv(c, ch, t) && c.threads[t].pc.Link?
    ensures var th := c.threads[t]; var at, x := th.pc.at, th.node;
            && Fits(Linked(c, t).threads[t])
            && TokenPlace(th) == at && TokenPlace(Linked(c, t).threads[t]) == NULL
            && x in c.cells && x != at && c.cells[x] == NewCell(th.op) && c.cells[at].usage == Held(t)
            && Finish(TokenOf(t, th)).0 == [Elem(th.op.id, th.op.data)]
            && (forall a :: Step(c, t, a) == Ok(Linked(c, t)))
  {
    assert Private(c.threads[t]) == c.threads[t].node;
  }

  lemma LinkIsMove(c: Config, ch: seq<Addr>, t: nat, a: Addr)
    requires LocalInv(c, ch, t) && c.threads[t].pc.Link?
    ensures MoveOf(c, ch, t) == FinishAt(IndexOf(ch, c.threads[t].pc.at)) && NextChain(c, ch, t) == ch + [c.threads[t].node]
    ensures var d := Linked(c, t);
            Step(c, t, a) == Ok(d) && d.entered == c.entered && t < |d.threads| && d.threads[t].op == c.threads[t].op
  {
    LinkReady(c, ch, t);
  }

  lemma LinkInv(c: Config, ch: seq<Addr>, t: nat)
    requires Inv(c, ch) && LocalInv(c, ch, t) && c.threads[t].pc.Link?
    ensures var x := c.threads[t].node;
            && Inv(Linked(c, t), ch + [x]) && Respects(c, ch, Linked(c, t), ch + [x], t)
            && x in c.cells && x !in ch && ch != [] && c.threads[t].pc.at == ch[|ch| - 1]
  {
    LinkReady(c, ch, t);
    Published(c, ch, t, Linked(c, t).threads[t], Linked(c, t));
  }

  lemma LinkStep(c: Config, ch: seq<Addr>, t: nat, a: Addr)
    requires Inv(c, ch) && t < |c.threads| && c.threads[t].pc.Link?
    ensures Simulates(c, ch, t, Step(c, t, a))
  {
    Localize(c, ch, t);
    LinkIsMove(c, ch, t, a);
    LinkInv(c, ch, t);
    LinkSettles(c, ch, t);
    LinkView(c, ch, t);
    MoveSimulates(c, ch, t, Linked(c, t), ch + [c.threads[t].node], MoveOf(c, ch, t));
  }

  lemma LinkPromise(c: Config, t: nat)
    requires t < |c.threads| && c.threads[t].pc.Link? && c.threads[t].pc.at in c.cells
    ensures var d := Linked(c, t);
            t < |d.threads| && El(d.threads[t].pc) == NULL && Promise(d, d.threads[t]) == Some(Finish(TokenOf(t, c.threads[t])).1)
  {}

  lemma LinkSettles(c: Config, ch: seq<Addr>, t: nat)
    requires Inv(c, ch) && t < |c.threads| && c.threads[t].pc.Link? && c.threads[t].pc.at in c.cells
    requires var ch' := ch + [c.threads[t].node];
             Inv(Linked(c, t), ch') && Respects(c, ch, Linked(c, t), ch', t)
    ensures Abs(Linked(c, t), ch + [c.threads[t].node]).done ==
            Abs(c, ch).done[t := Finish(TokenOf(t, c.threads[t])).1]
  {
    LinkPromise(c, t);
    Settles(c, ch, Linked(c, t), ch + [c.threads[t].node], t, Finish(TokenOf(t, c.threads[t])).1);
  }

  lemma Settles(c: Config, ch: seq<Addr>, d: Config, ch': seq<Addr>, t: nat, r: Result)
    requires Inv(c, ch) && Inv(d, ch') && Respects(c, ch, d, ch', t) && t < |c.threads|
    requires El(d.threads[t].pc) == NULL && Promise(d, d.threads[t]) == Some(r)
    ensures Abs(d, ch').done == Abs(c, ch).done[t := r]
  {
    ThreadIsOk(c, ch, t);
    ThreadIsOk(d, ch', t);
    PromiseSettled(c, ch, d, ch', t);
  }

  lemma ThreadIsOk(c: Config, ch: seq<Addr>, t: nat)
    requires Inv(c, ch) && t < |c.threads|
    ensures ThreadOk(c, ch, t, c.threads[t])
  {}

  lemma LinkView(c: Config, ch: seq<Addr>, t: nat)
    requires Inv(c, ch) && LocalInv(c, ch, t) && c.threads[t].pc.Link?
    requires var x := c.threads[t].node; var ch' := ch + [x];
             && Inv(Linked(c, t), ch') && Respects(c, ch, Linked(c, t), ch', t)
             && x in c.cells && x !in ch && c.threads[t].pc.at == ch[|ch| - 1]
    requires Abs(Linked(c, t), ch + [c.threads[t].node]).done ==
             Abs(c, ch).done[t := Finish(TokenOf(t, c.threads[t])).1]
    ensures var m := FinishAt(IndexOf(ch, c.threads[t].pc.at));
            && Enabled(Abs(c, ch), m)
            && Abs(Linked(c, t), ch + [c.threads[t].node]) == After(Abs(c, ch), m)
  {
    LinkReady(c, ch, t);
    LinkTokens(c, ch, t);
    IndexAt(ch, |ch| - 1);
    LinkStations(c, ch, t, Linked(c, t));
    TokenAlone(c, ch, |ch| - 1);
  }

  lemma LinkTokens(c: Config, ch: seq<Addr>, t: nat)
    requires Inv(c, ch) && LocalInv(c, ch, t) && c.threads[t].pc.Link?
    requires var x := c.threads[t].node; var ch' := ch + [x];
             && Inv(Linked(c, t), ch') && Respects(c, ch, Linked(c, t), ch', t)
             && x in c.cells && x !in ch && c.threads[t].pc.at == ch[|ch| - 1]
    ensures var d, at, x := Linked(c, t), c.threads[t].pc.at, c.threads[t].node;
            && (forall a :: a in ch && a != at && a in c.cells && a in d.cells ==> StationOf(d, a) == StationOf(c, a))
            && TokAt(c, at) == Some(TokenOf(t, c.threads[t])) && TokAt(d, at) == None
            && StationOf(d, at).elem == StationOf(c, at).elem
            && StationOf(d, x) == Station(Elem(c.threads[t].op.id, c.threads[t].op.data), None)
  {
    LinkReady(c, ch, t);
    LinkElsewhere(c, ch, t);
    TokenHolds(c, ch, t);
    TokGone(c, ch, Linked(c, t), ch + [c.threads[t].node], t, c.threads[t].pc.at);
  }

  lemma LinkElsewhere(c: Config, ch: seq<Addr>, t: nat)
    requires Inv(c, ch) && LocalInv(c, ch, t) && c.threads[t].pc.Link?
    requires var x := c.threads[t].node; var ch' := ch + [x];
             && Inv(Linked(c, t), ch') && Respects(c, ch, Linked(c, t), ch', t)
             && x in c.cells && x !in ch && c.threads[t].pc.at == ch[|ch| - 1]
    ensures var d, at, x := Linked(c, t), c.threads[t].pc.at, c.threads[t].node;
            && (forall a :: a in ch && a != at && a in c.cells && a in d.cells ==> StationOf(d, a) == StationOf(c, a))
            && at in c.cells && at in d.cells && StationOf(d, at).elem == StationOf(c, at).elem
  {
    LinkReady(c, ch, t);
    LinkedCells(c, t);
    Elsewhere(c, ch, Linked(c, t), ch + [c.threads[t].node], t, c.threads[t].pc.at, NULL);
    LinkedAt(c, ch, t);
  }

  lemma LinkedAt(c: Config, ch: seq<Addr>, t: nat)
    requires Inv(c, ch) && LocalInv(c, ch, t) && c.threads[t].pc.Link?
    requires var ch' := ch + [c.threads[t].node]; Inv(Linked(c, t), ch') && Respects(c, ch, Linked(c, t), ch', t)
    ensures var d, at := Linked(c, t), c.threads[t].pc.at;
            at in c.cells && at in d.cells && StationOf(d, at).elem == StationOf(c, at).elem
  {
    LinkedCells(c, t);
    DataSame(c, ch, Linked(c, t), ch + [c.threads[t].node], t, c.threads[t].pc.at);
  }

  /** Linking changes one pointer and nothing that the pipeline sees of any cell. */
  lemma LinkedCells(c: Config, t: nat)
    requires t < |c.threads| && c.threads[t].pc.Link? && c.threads[t].pc.at in c.cells
    ensures Linked(c, t).cells.Keys == c.cells.Keys
    ensures forall a :: a in c.cells ==>
              var x, y := c.cells[a], Linked(c, t).cells[a];
              y.content == x.content && y.payload == x.payload && y.id == x.id && y.usage == x.usage
  {
  }

  lemma LinkStations(c: Config, ch: seq<Addr>, t: nat, d: Config)
    requires ch != [] && t < |c.threads| && Distinct(ch) && Appends(c.threads[t].op)
    requires forall a :: a in ch ==> a in c.cells && a in d.cells
    requires var at, x := ch[|ch| - 1], c.threads[t].node;
             && x in d.cells
             && (forall a :: a in ch && a != at ==> StationOf(d, a) == StationOf(c, a))
             && TokAt(d, at) == None && StationOf(d, at).elem == StationOf(c, at).elem
             && StationOf(d, x) == Station(Elem(c.threads[t].op.id, c.threads[t].op.data), None)
    ensures var s, i := View(c, ch), |ch| - 1;
            View(d, ch + [c.threads[t].node]) ==
            s[..i] + [s[i].(tok := None)] + [Station(Elem(c.threads[t].op.id, c.threads[t].op.data), None)]
  {
    var s, i, ch' := View(c, ch), |ch| - 1, ch + [c.threads[t].node];
    var s' := s[..i] + [s[i].(tok := None)] + [Station(Elem(c.threads[t].op.id, c.threads[t].op.data), None)];
    forall j | 0 <= j < |ch'| ensures View(d, ch')[j] == s'[j] {
      if j < |ch| { IndexAt(ch, j); IndexAt(ch, i); assert ch[j] in ch; }
    }
  }

  // ----- taking a node out

  ghost function TakenOut(c: Config, t: nat): Config
    requires t < |c.threads| && c.threads[t].pc.LockContent? && c.threads[t].pc.el in c.cells
  {
    var th := c.threads[t];
    Edit(c, t, th.pc.el, c.cells[th.pc.el].(content := Held(t)), th.(pc := Drop(th.pc.at, th.pc.el, NULL, 0)))
  }

  lemma TakeOutReady(c: Config, ch: seq<Addr>, t: nat)
    requires LocalInv(c, ch, t) && c.threads[t].pc.LockContent? && Removes(c.threads[t].op)
    requires c.cells[c.threads[t].pc.el].content.Open?
    ensures var th := c.threads[t]; var at, el := th.pc.at, th.pc.el;
            && at in ch && el == Succ(ch, at) && el != NULL && at in c.cells
            && c.cells[at].usage == Held(t) && c.cells[el].usage == Held(t)
            && TokenPlace(th) == at && (TokenPlace(TakenOut(c, t).threads[t]) == if th.op.RemoveAll? then at else NULL)
            && (forall a :: Step(c, t, a) == Ok(TakenOut(c, t)))
            && (if th.op.RemoveAll? then Meet(TokenOf(t, th), Elem(c.cells[el].id, AbsData(c, el))).Swallow?
                else Meet(TokenOf(t, th), Elem(c.cells[el].id, AbsData(c, el))) ==
                     Stop([], if th.op.RemoveById? then Code(0) else Void))
  {
    SuccFacts(ch, c.threads[t].pc.at);
  }

  lemma TakeOutInv(c: Config, ch: seq<Addr>, t: nat)
    requires Inv(c, ch) && LocalInv(c, ch, t) && c.threads[t].pc.LockContent? && Removes(c.threads[t].op)
    requires c.cells[c.threads[t].pc.el].content.Open?
    ensures var el := c.threads[t].pc.el;
            && el in ch && el in c.cells
            && Inv(TakenOut(c, t), Without(ch, IndexOf(ch, el)))
            && Respects(c, ch, TakenOut(c, t), Without(ch, IndexOf(ch, el)), t)
  {
    var at, el := c.threads[t].pc.at, c.threads[t].pc.el;
    TakeOutReady(c, ch, t);
    ShortenedFacts(ch, at);
    Detached(c, ch, t, TakenOut(c, t).threads[t], TakenOut(c, t), Without(ch, IndexOf(ch, el)));
  }

  lemma TakeOutStep(c: Config, ch: seq<Addr>, t: nat, a: Addr)
    requires Inv(c, ch) && t < |c.threads| && c.threads[t].pc.LockContent? && Removes(c.threads[t].op)
    ensures Simulates(c, ch, t, Step(c, t, a))
  {
    Localize(c, ch, t);
    var el := c.threads[t].pc.el;
    if c.cells[el].content.Open? {
      TakeOutInv(c, ch, t);
      var ch' := Without(ch, IndexOf(ch, el));
      TakeOutDone(c, ch, t, ch');
      TakeOutView(c, ch, t, ch');
      TakeOutAbs(c, ch, t, ch');
      TakeOutIsMove(c, ch, t, a);
      MoveSimulates(c, ch, t, TakenOut(c, t), ch', MoveOf(c, ch, t));
    }
  }

  /** The step as a move of the pipeline. */
  lemma TakeOutIsMove(c: Config, ch: seq<Addr>, t: nat, a: Addr)
    requires LocalInv(c, ch, t) && c.threads[t].pc.LockContent? && Removes(c.threads[t].op)
    requires c.cells[c.threads[t].pc.el].content.Open? && c.threads[t].pc.el in ch
    ensures var i := IndexOf(ch, c.threads[t].pc.at);
            MoveOf(c, ch, t) == (if c.threads[t].op.RemoveAll? then SwallowAt(i) else StopAt(i))
    ensures NextChain(c, ch, t) == Without(ch, IndexOf(ch, c.threads[t].pc.el))
    ensures var d := TakenOut(c, t);
            Step(c, t, a) == Ok(d) && d.entered == c.entered && t < |d.threads| && d.threads[t].op == c.threads[t].op
  {
    TakeOutReady(c, ch, t);
  }

  lemma TakeOutDone(c: Config, ch: seq<Addr>, t: nat, ch': seq<Addr>)
    requires Inv(c, ch) && t < |c.threads| && c.threads[t].pc.LockContent? && c.threads[t].pc.el in c.cells
    requires Inv(TakenOut(c, t), ch') && Respects(c, ch, TakenOut(c, t), ch', t) && Removes(c.threads[t].op)
    ensures Abs(TakenOut(c, t), ch').done ==
            if c.threads[t].op.RemoveAll? then Abs(c, ch).done
            else Abs(c, ch).done[t := if c.threads[t].op.RemoveById? then Code(0) else Void]
  {
    assert ThreadOk(c, ch, t, c.threads[t]) && ThreadOk(TakenOut(c, t), ch', t, TakenOut(c, t).threads[t]);
    TakenPromise(c, t);
    if c.threads[t].op.RemoveAll? {
      PromisesSame(c, ch, TakenOut(c, t), ch', t);
    } else {
      PromiseSettled(c, ch, TakenOut(c, t), ch', t);
    }
  }

  lemma TakenPromise(c: Config, t: nat)
    requires t < |c.threads| && c.threads[t].pc.LockContent? && c.threads[t].pc.el in c.cells && Removes(c.threads[t].op)
    ensures var th, th' := c.threads[t], TakenOut(c, t).threads[t];
            && El(th'.pc) in TakenOut(c, t).cells && Promise(c, th) == None
            && Promise(TakenOut(c, t), th') ==
               if th.op.RemoveAll? then None else Some(if th.op.RemoveById? then Code(0) else Void)
  {
  }

  /** The stations around the element that is taken out. */
  ghost predicate TakesOut(s: seq<Station>, s': seq<Station>, i: nat, k: Token, e: Elem) {
    && i + 1 < |s| && s[i].tok == Some(k) && s[i + 1] == Station(e, None) && Alone(s, i)
    && (if k.op.RemoveAll? then s' == s[..i + 1] + s[i + 2..] && Meet(k, e).Swallow?
        else s' == s[..i] + [s[i].(tok := None)] + s[i + 2..]
             && Meet(k, e) == Stop([], if k.op.RemoveById? then Code(0) else Void))
  }

  lemma TakeOutView(c: Config, ch: seq<Addr>, t: nat, ch': seq<Addr>)
    requires Inv(c, ch) && LocalInv(c, ch, t) && c.threads[t].pc.LockContent? && Removes(c.threads[t].op)
    requires c.cells[c.threads[t].pc.el].content.Open?
    requires c.threads[t].pc.el in ch && ch' == Without(ch, IndexOf(ch, c.threads[t].pc.el))
    requires Inv(TakenOut(c, t), ch') && Respects(c, ch, TakenOut(c, t), ch', t)
    ensures var th := c.threads[t];
            && th.pc.el in c.cells
            && TakesOut(View(c, ch), View(TakenOut(c, t), ch'), IndexOf(ch, th.pc.at), TokenOf(t, th),
                        Elem(c.cells[th.pc.el].id, AbsData(c, th.pc.el)))
  {
    TakeOutReady(c, ch, t);
    SuccFacts(ch, c.threads[t].pc.at);
    TakeOutTokens(c, ch, t, ch');
    TakeOutSplice(c, ch, t, TakenOut(c, t), c.threads[t].pc.at, c.threads[t].pc.el);
    TokenAlone(c, ch, IndexOf(ch, c.threads[t].pc.at));
  }

  lemma TakeOutSplice(c: Config, ch: seq<Addr>, t: nat, d: Config, at: Addr, el: Addr)
    requires Distinct(ch) && at in ch && el in ch && IndexOf(ch, el) == IndexOf(ch, at) + 1
    requires forall a :: a in ch ==> a in c.cells && a in d.cells
    requires forall a :: a in ch && a != at && a != el ==> StationOf(d, a) == StationOf(c, a)
    requires StationOf(d, at).elem == StationOf(c, at).elem
    requires t < |c.threads| && TokAt(c, at) == Some(TokenOf(t, c.threads[t])) && TokAt(c, el) == None
    requires TokAt(d, at) == (if c.threads[t].op.RemoveAll? then TokAt(c, at) else None)
    ensures var i, s, s' := IndexOf(ch, at), View(c, ch), View(d, Without(ch, IndexOf(ch, el)));
            && i + 1 < |s| && s[i].tok == Some(TokenOf(t, c.threads[t]))
            && s[i + 1] == Station(Elem(c.cells[el].id, AbsData(c, el)), None)
            && s' == (if c.threads[t].op.RemoveAll? then s[..i + 1] + s[i + 2..] else s[..i] + [s[i].(tok := None)] + s[i + 2..])
  {
    TakeOutStations(c, ch, t, d, at, el);
  }

  lemma TakeOutMove(p: Pipe, p': Pipe, i: nat, k: Token, e: Elem)
    requires TakesOut(p.stations, p'.stations, i, k, e)
    requires p'.done == if k.op.RemoveAll? then p.done else p.done[k.tid := if k.op.RemoveById? then Code(0) else Void]
    ensures var m := if k.op.RemoveAll? then SwallowAt(i) else StopAt(i);
            Enabled(p, m) && p' == After(p, m)
  {
  }

  /** The whole step on the pipeline. */
  lemma TakeOutAbs(c: Config, ch: seq<Addr>, t: nat, ch': seq<Addr>)
    requires Inv(c, ch) && t < |c.threads| && c.threads[t].pc.LockContent? && c.threads[t].pc.el in c.cells
    requires Inv(TakenOut(c, t), ch')
    requires Abs(TakenOut(c, t), ch').done ==
             if c.threads[t].op.RemoveAll? then Abs(c, ch).done
             else Abs(c, ch).done[t := if c.threads[t].op.RemoveById? then Code(0) else Void]
    requires var th := c.threads[t];
             TakesOut(View(c, ch), View(TakenOut(c, t), ch'), IndexOf(ch, th.pc.at), TokenOf(t, th),
                      Elem(c.cells[th.pc.el].id, AbsData(c, th.pc.el)))
    ensures var i := IndexOf(ch, c.threads[t].pc.at);
            var m := if c.threads[t].op.RemoveAll? then SwallowAt(i) else StopAt(i);
            Enabled(Abs(c, ch), m) && Abs(TakenOut(c, t), ch') == After(Abs(c, ch), m)
  {
    var th := c.threads[t];
    TakeOutMove(Abs(c, ch), Abs(TakenOut(c, t), ch'), IndexOf(ch, th.pc.at), TokenOf(t, th),
                Elem(c.cells[th.pc.el].id, AbsData(c, th.pc.el)));
  }

  lemma TakeOutTokens(c: Config, ch: seq<Addr>, t: nat, ch': seq<Addr>)
    requires Inv(c, ch) && LocalInv(c, ch, t) && c.threads[t].pc.LockContent? && Removes(c.threads[t].op)
    requires c.cells[c.threads[t].pc.el].content.Open?
    requires c.threads[t].pc.el in ch && ch' == Without(ch, IndexOf(ch, c.threads[t].pc.el))
    requires Inv(TakenOut(c, t), ch') && Respects(c, ch, TakenOut(c, t), ch', t)
    ensures var d, at, el := TakenOut(c, t), c.threads[t].pc.at, c.threads[t].pc.el;
            && (forall a :: a in ch && a != at && a != el && a in c.cells && a in d.cells ==>
                  StationOf(d, a) == StationOf(c, a))
            && TokAt(c, at) == Some(TokenOf(t, c.threads[t])) && TokAt(c, el) == None
            && TokAt(d, at) == (if c.threads[t].op.RemoveAll? then TokAt(c, at) else None)
            && StationOf(d, at).elem == StationOf(c, at).elem
  {
    var d, at, el := TakenOut(c, t), c.threads[t].pc.at, c.threads[t].pc.el;
    TakeOutReady(c, ch, t);
    SuccFacts(ch, at);
    IndexWithout(ch, IndexOf(ch, el));
    Elsewhere(c, ch, d, ch', t, at, el);
    DataSame(c, ch, d, ch', t, at);
    TokenHolds(c, ch, t);
    TokenHolds(d, ch', t);
    if !c.threads[t].op.RemoveAll? { TokGone(c, ch, d, ch', t, at); }
  }

  lemma TakeOutStations(c: Config, ch: seq<Addr>, t: nat, d: Config, at: Addr, el: Addr)
    requires Distinct(ch) && at in ch && el in ch && IndexOf(ch, el) == IndexOf(ch, at) + 1
    requires forall a :: a in ch ==> a in c.cells && a in d.cells
    requires forall a :: a in ch && a != at && a != el ==> StationOf(d, a) == StationOf(c, a)
    requires StationOf(d, at).elem == StationOf(c, at).elem
    ensures var i, s, s' := IndexOf(ch, at), View(c, ch), View(d, Without(ch, IndexOf(ch, el)));
            && s[i].tok == TokAt(c, at) && s[i + 1] == StationOf(c, el)
            && (TokAt(d, at) == None ==> s' == s[..i] + [s[i].(tok := None)] + s[i + 2..])
            && (TokAt(d, at) == TokAt(c, at) ==> s' == s[..i + 1] + s[i + 2..])
  {
    TakeOutPlaces(c, ch, t, d, at, el);
    var i, s, s' := IndexOf(ch, at), View(c, ch), View(d, Without(ch, IndexOf(ch, el)));
    Splice(s, s', i);
  }

  lemma Splice(s: seq<Station>, s': seq<Station>, i: nat)
    requires i + 1 < |s| && |s'| == |s| - 1
    requires forall j :: 0 <= j < |s'| && j != i ==> s'[j] == s[if j < i then j else j + 1]
    ensures s' == s[..i] + [s'[i]] + s[i + 2..]
    ensures s'[i] == s[i] ==> s' == s[..i + 1] + s[i + 2..]
  {
    assert s[..i + 1] == s[..i] + [s[i]];
  }

  lemma TakeOutPlaces(c: Config, ch: seq<Addr>, t: nat, d: Config, at: Addr, el: Addr)
    requires Distinct(ch) && at in ch && el in ch && IndexOf(ch, el) == IndexOf(ch, at) + 1
    requires forall a :: a in ch ==> a in c.cells && a in d.cells
    requires forall a :: a in ch && a != at && a != el ==> StationOf(d, a) == StationOf(c, a)
    requires StationOf(d, at).elem == StationOf(c, at).elem
    ensures var i, s, s' := IndexOf(ch, at), View(c, ch), View(d, Without(ch, IndexOf(ch, el)));
            && |s'| == |s| - 1 && i + 1 < |s| && s[i] == StationOf(c, at) && s[i + 1] == StationOf(c, el)
            && (forall j :: 0 <= j < i ==> s'[j] == s[j])
            && s'[i] == s[i].(tok := TokAt(d, at))
            && (forall j :: i < j < |s'| ==> s'[j] == s[j + 1])
  {
    ShortView(c, d, ch, IndexOf(ch, at));
  }

  /** The view of a chain without the element after place `i`. */
  lemma ShortView(c: Config, d: Config, ch: seq<Addr>, i: nat)
    requires Distinct(ch) && i + 1 < |ch| && forall a :: a in ch ==> a in c.cells && a in d.cells
    requires forall a :: a in ch && a != ch[i] && a != ch[i + 1] ==> StationOf(d, a) == StationOf(c, a)
    requires StationOf(d, ch[i]).elem == StationOf(c, ch[i]).elem
    ensures forall a :: a in Without(ch, i + 1) ==> a in ch
    ensures var s, s' := View(c, ch), View(d, Without(ch, i + 1));
            && |s'| == |s| - 1 && s[i] == StationOf(c, ch[i]) && s[i + 1] == StationOf(c, ch[i + 1])
            && (forall j :: 0 <= j < i ==> s'[j] == s[j])
            && s'[i] == s[i].(tok := TokAt(d, ch[i]))
            && (forall j :: i < j < |s'| ==> s'[j] == s[j + 1])
  {
    var ch' := Without(ch, i + 1);
    WithoutDistinct(ch, i + 1);
    var s, s' := View(c, ch), View(d, ch');
    assert ch'[i] == ch[i];
    forall j | 0 <= j < i ensures s'[j] == s[j] {
      assert ch'[j] == ch[j] && ch[j] in ch && ch[j] != ch[i] && ch[j] != ch[i + 1];
    }
    forall j | i < j < |s'| ensures s'[j] == s[j + 1] {
      assert ch'[j] == ch[j + 1] && ch[j + 1] in ch && ch[j + 1] != ch[i] && ch[j + 1] != ch[i + 1];
    }
  }

  // ----- building and freeing nodes out of sight

  /** Steps that leave every cell of the chain and every visible thread attribute alone. */
  lemma OutOfSight(c: Config, ch: seq<Addr>, t: nat, d: Config)
    requires Inv(c, ch) && Inv(d, ch) && Respects(c, ch, d, ch, t) && t < |c.threads|
    requires ThreadOk(c, ch, t, c.threads[t]) && ThreadOk(d, ch, t, d.threads[t])
    requires d.threads[t].op == c.threads[t].op && d.entered == c.entered
    requires TokenPlace(d.threads[t]) == TokenPlace(c.threads[t])
    requires TokenPlace(c.threads[t]) != NULL ==> TokenOf(t, d.threads[t]) == TokenOf(t, c.threads[t])
    requires Promise(d, d.threads[t]) == Promise(c, c.threads[t])
    requires forall a :: a in ch && a in c.cells && a in d.cells ==> d.cells[a] == c.cells[a]
    ensures Abs(d, ch) == Abs(c, ch)
  {
    forall a | a in ch && a in c.cells && a in d.cells ensures AbsData(d, a) == AbsData(c, a) {
      DataSame(c, ch, d, ch, t, a);
    }
    Invisible(c, ch, d, t);
  }

  ghost function Built(c: Config, t: nat, a: Addr): Config
    requires t < |c.threads| && Appends(c.threads[t].op)
  {
    var th := c.threads[t];
    Put(c, a, NewCell(th.op)).(threads :=
      c.threads[t := th.(pc := if th.pc.CreateAtEnd? then Link(th.pc.at) else LockList, node := a)])
  }

  lemma BuildReady(c: Config, ch: seq<Addr>, t: nat, a: Addr)
    requires LocalInv(c, ch, t) && (c.threads[t].pc.Create? || c.threads[t].pc.CreateAtEnd?)
    requires a !in c.cells && a != NULL && a !in ch
    ensures Appends(c.threads[t].op) && Step(c, t, a) == Ok(Built(c, t, a))
    ensures var th, d := c.threads[t], Built(c, t, a);
            && Private(th) == NULL && Private(d.threads[t]) == a
            && KeepsLocks(th, d.threads[t])
            && ThreadOk(c, ch, t, th) && ThreadOk(d, ch, t, d.threads[t])
            && TokenPlace(d.threads[t]) == TokenPlace(th)
            && (TokenPlace(th) != NULL ==> TokenOf(t, d.threads[t]) == TokenOf(t, th))
            && Promise(d, d.threads[t]) == Promise(c, th)
  {
    if c.threads[t].pc.CreateAtEnd? { SuccFacts(ch, c.threads[t].pc.at); }
    BuildThread(c, ch, t, a);
  }

  lemma BuildThread(c: Config, ch: seq<Addr>, t: nat, a: Addr)
    requires LocalInv(c, ch, t) && (c.threads[t].pc.Create? || c.threads[t].pc.CreateAtEnd?)
    requires a !in c.cells && a != NULL && a !in ch
    ensures Appends(c.threads[t].op) && ThreadOk(Built(c, t, a), ch, t, Built(c, t, a).threads[t])
  {
  }

  lemma BuildStep(c: Config, ch: seq<Addr>, t: nat, a: Addr)
    requires Inv(c, ch) && t < |c.threads| && (c.threads[t].pc.Create? || c.threads[t].pc.CreateAtEnd?)
    ensures Simulates(c, ch, t, Step(c, t, a))
  {
    Localize(c, ch, t);
    if a !in c.cells && a != NULL {
      BuildOk(c, ch, t, a);
    } else {
      BuildBlocked(c, ch, t, a);
    }
  }

  lemma BuildOk(c: Config, ch: seq<Addr>, t: nat, a: Addr)
    requires Inv(c, ch) && LocalInv(c, ch, t) && (c.threads[t].pc.Create? || c.threads[t].pc.CreateAtEnd?)
    requires a !in c.cells && a != NULL
    ensures Simulates(c, ch, t, Step(c, t, a))
  {
    BuildReady(c, ch, t, a);
    var d := Built(c, t, a);
    Added(c, ch, t, a, NewCell(c.threads[t].op), d.threads[t], d);
    OutOfSight(c, ch, t, d);
    MoveSimulates(c, ch, t, d, ch, Stay);
  }

  lemma BuildBlocked(c: Config, ch: seq<Addr>, t: nat, a: Addr)
    requires LocalInv(c, ch, t) && (c.threads[t].pc.Create? || c.threads[t].pc.CreateAtEnd?)
    requires a in c.cells || a == NULL
    ensures Step(c, t, a).Blocked?
  {
  }

  ghost function FreedCell(c: Config, t: nat): Config
    requires t < |c.threads| && c.threads[t].pc.Drop?
  {
    var th := c.threads[t];
    c.(cells := c.cells - {th.pc.el}, threads := c.threads[t := th.(pc := Unlink(th.pc.at, th.pc.after))])
  }

  lemma FreeReady(c: Config, ch: seq<Addr>, t: nat)
    requires LocalInv(c, ch, t) && c.threads[t].pc.Drop? && c.threads[t].pc.stage == 7
    ensures forall a :: Step(c, t, a) == Ok(FreedCell(c, t))
    ensures var th, d := c.threads[t], FreedCell(c, t); var el := th.pc.el;
            && el in c.cells && el != NULL && el !in ch
            && Private(th) == el && Private(d.threads[t]) == NULL && At(d.threads[t].pc) == At(th.pc)
            && c.cells[el].usage.Destroyed? && c.cells[el].content.Destroyed?
            && ThreadOk(c, ch, t, th) && ThreadOk(d, ch, t, d.threads[t])
            && TokenPlace(d.threads[t]) == TokenPlace(th)
            && (TokenPlace(th) != NULL ==> TokenOf(t, d.threads[t]) == TokenOf(t, th))
            && Promise(d, d.threads[t]) == Promise(c, th)
  {
  }

  lemma FreeIsStep(c: Config, ch: seq<Addr>, t: nat, a: Addr)
    requires LocalInv(c, ch, t) && c.threads[t].pc.Drop? && c.threads[t].pc.stage == 7
    ensures Step(c, t, a) == Ok(FreedCell(c, t)) && FreedCell(c, t).entered == c.entered
  {
    FreeReady(c, ch, t);
  }

  lemma FreeInv(c: Config, ch: seq<Addr>, t: nat)
    requires Inv(c, ch) && LocalInv(c, ch, t) && c.threads[t].pc.Drop? && c.threads[t].pc.stage == 7
    ensures var d := FreedCell(c, t);
            Inv(d, ch) && Respects(c, ch, d, ch, t) && Abs(d, ch) == Abs(c, ch) && d.threads[t].op == c.threads[t].op
  {
    FreeReady(c, ch, t);
    var d := FreedCell(c, t);
    Removed(c, ch, t, c.threads[t].pc.el, d.threads[t], d);
    OutOfSight(c, ch, t, d);
  }

  lemma FreeStep(c: Config, ch: seq<Addr>, t: nat, a: Addr)
    requires Inv(c, ch) && t < |c.threads| && c.threads[t].pc.Drop? && c.threads[t].pc.stage == 7
    ensures Simulates(c, ch, t, Step(c, t, a))
  {
    Localize(c, ch, t);
    FreeIsStep(c, ch, t, a);
    FreeInv(c, ch, t);
    MoveSimulates(c, ch, t, FreedCell(c, t), ch, Stay);
  }
}
