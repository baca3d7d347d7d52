/** The steps at which an operation's result is settled, on an unchanged chain. */
module Settling {
  import opened ListSpec
  import opened Pipeline
  import opened Machine
  import opened Chains
  import opened Invariant
  import opened Abstraction
  import opened Simulation
  import opened Moves

  /** A thread has at most one token in the pipeline. */
  lemma TokenAlone(c: Config, ch: seq<Addr>, i: nat)
    requires Inv(c, ch) && i < |ch| && View(c, ch)[i].tok.Some?
    ensures Alone(View(c, ch), i)
  {
    var s := View(c, ch);
    forall j | 0 <= j < |s| && j != i && s[j].tok.Some? ensures s[j].tok.value.tid != s[i].tok.value.tid {
      assert ch[i] in ch && ch[j] in ch;
      assert TokenPlace(c.threads[s[i].tok.value.tid]) == ch[i];
      assert TokenPlace(c.threads[s[j].tok.value.tid]) == ch[j];
      assert ch[i] != ch[j] by { IndexAt(ch, i); IndexAt(ch, j); }
    }
  }

  /** The token leaves `at`; the element after it, if any, may get a new payload. */
  ghost predicate SettleReady(c: Config, ch: seq<Addr>, t: nat, d: Config, at: Addr, r: Result) {
    && t < |c.threads| && t < |d.threads|
    && ThreadOk(c, ch, t, c.threads[t]) && ThreadOk(d, ch, t, d.threads[t])
    && Distinct(ch) && NULL !in ch && at in ch && at in c.cells && at in d.cells && at != NULL
    && TokenPlace(c.threads[t]) == at && TokenPlace(d.threads[t]) == NULL
    && d.threads[t].op == c.threads[t].op && c.entered == d.entered
    && Promise(d, d.threads[t]) == Some(r)
    && c.cells[at].usage == Held(t)
    && d.cells[at].id == c.cells[at].id
    && (forall a :: a in c.cells && a in d.cells && a != Succ(ch, at) ==>
          d.cells[a].content == c.cells[a].content && d.cells[a].payload == c.cells[a].payload)
    && NextChain(c, ch, t) == ch
  }

  lemma SettleTokens(c: Config, ch: seq<Addr>, t: nat, d: Config, at: Addr, r: Result)
    requires Inv(c, ch) && Inv(d, ch) && Respects(c, ch, d, ch, t) && SettleReady(c, ch, t, d, at, r)
    ensures forall a :: a in ch && a != at && a != Succ(ch, at) && a in c.cells && a in d.cells ==>
              StationOf(d, a) == StationOf(c, a)
    ensures TokAt(c, at) == Some(TokenOf(t, c.threads[t])) && TokAt(d, at) == None
    ensures StationOf(d, at).elem == StationOf(c, at).elem
    ensures var el := Succ(ch, at);
            el != NULL ==> el in ch && el in c.cells && el in d.cells && TokAt(d, el) == TokAt(c, el)
                           && d.cells[el].id == c.cells[el].id
  {
    SuccFacts(ch, at);
    Elsewhere(c, ch, d, ch, t, at, Succ(ch, at));
    DataSame(c, ch, d, ch, t, at);
    TokenHolds(c, ch, t);
    TokGone(c, ch, d, ch, t, at);
    if Succ(ch, at) != NULL { TokSame(c, ch, d, ch, t, Succ(ch, at)); }
  }

  /** An operation that stops in front of the next element, with or without changing it. */
  lemma StopSimulates(c: Config, ch: seq<Addr>, t: nat, x: Addr, y: Cell, th: Thread, at: Addr, r: Result)
    requires Inv(c, ch) && FairStep(c, ch, t, x, y, th) && SettleReady(c, ch, t, Edit(c, t, x, y, th), at, r)
    requires MoveOf(c, ch, t) == StopAt(IndexOf(ch, at)) && Succ(ch, at) != NULL && Succ(ch, at) in c.cells
    requires var el, d := Succ(ch, at), Edit(c, t, x, y, th);
             Meet(TokenOf(t, c.threads[t]), Elem(c.cells[el].id, AbsData(c, el))) ==
             Stop([Elem(c.cells[el].id, AbsData(d, el))], r)
    ensures Simulates(c, ch, t, Ok(Edit(c, t, x, y, th)))
  {
    var d := Edit(c, t, x, y, th);
    Settled(c, ch, t, x, y, th, at, r);
    StopView(c, ch, t, d, at, r);
    MoveSimulates(c, ch, t, d, ch, StopAt(IndexOf(ch, at)));
  }

  lemma Settled(c: Config, ch: seq<Addr>, t: nat, x: Addr, y: Cell, th: Thread, at: Addr, r: Result)
    requires Inv(c, ch) && FairStep(c, ch, t, x, y, th) && SettleReady(c, ch, t, Edit(c, t, x, y, th), at, r)
    ensures var d := Edit(c, t, x, y, th);
            Inv(d, ch) && Respects(c, ch, d, ch, t) && Abs(d, ch).done == Abs(c, ch).done[t := r]
  {
    FairKeepsInv(c, ch, t, x, y, th);
    PromiseSettled(c, ch, Edit(c, t, x, y, th), ch, t);
  }

  lemma StopView(c: Config, ch: seq<Addr>, t: nat, d: Config, at: Addr, r: Result)
    requires Inv(c, ch) && Inv(d, ch) && Respects(c, ch, d, ch, t) && SettleReady(c, ch, t, d, at, r)
    requires Succ(ch, at) != NULL && Succ(ch, at) in c.cells && Succ(ch, at) in d.cells
    requires Abs(d, ch).done == Abs(c, ch).done[t := r]
    requires var el := Succ(ch, at);
             Meet(TokenOf(t, c.threads[t]), Elem(c.cells[el].id, AbsData(c, el))) ==
             Stop([Elem(c.cells[el].id, AbsData(d, el))], r)
    ensures Enabled(Abs(c, ch), StopAt(IndexOf(ch, at)))
    ensures Abs(d, ch) == After(Abs(c, ch), StopAt(IndexOf(ch, at)))
  {
    SettleTokens(c, ch, t, d, at, r);
    SuccFacts(ch, at);
    StopStations(c, ch, t, d, at, Succ(ch, at));
    TokenAlone(c, ch, IndexOf(ch, at));
    var el := Succ(ch, at);
    StopMove(Abs(c, ch), Abs(d, ch), IndexOf(ch, at), TokenOf(t, c.threads[t]), Elem(c.cells[el].id, AbsData(d, el)), r);
  }

  /** In pipeline terms. */
  lemma StopMove(p: Pipe, q: Pipe, i: nat, k: Token, e: Elem, r: Result)
    requires var s := p.stations;
             && i + 1 < |s| && s[i].tok == Some(k) && Alone(s, i) && Meet(k, s[i + 1].elem) == Stop([e], r)
             && q.stations == s[i := s[i].(tok := None)][i + 1 := s[i + 1].(elem := e)]
             && q.done == p.done[k.tid := r]
    ensures Enabled(p, StopAt(i)) && q == After(p, StopAt(i))
  {
  }

  lemma StopStations(c: Config, ch: seq<Addr>, t: nat, d: Config, at: Addr, el: Addr)
    requires Distinct(ch) && at in ch && el in ch && IndexOf(ch, el) == IndexOf(ch, at) + 1
    requires forall a :: a in ch ==> a in c.cells && a in d.cells
    requires forall a :: a in ch && a != at && a != el ==> StationOf(d, a) == StationOf(c, a)
    requires t < |c.threads| && TokAt(c, at) == Some(TokenOf(t, c.threads[t])) && TokAt(d, at) == None
    requires TokAt(d, el) == TokAt(c, el) && d.cells[el].id == c.cells[el].id
    requires StationOf(d, at).elem == StationOf(c, at).elem
    ensures var i, s := IndexOf(ch, at), View(c, ch);
            View(d, ch) == s[i := s[i].(tok := None)][i + 1 := s[i + 1].(elem := Elem(c.cells[el].id, AbsData(d, el)))]
    ensures var i, s := IndexOf(ch, at), View(c, ch);
            && s[i].tok == Some(TokenOf(t, c.threads[t]))
            && s[i + 1].elem == Elem(c.cells[el].id, AbsData(c, el))
  {
    var i, s := IndexOf(ch, at), View(c, ch);
    OthersStand(c, d, ch, i);
    assert View(d, ch)[i] == s[i].(tok := None);
    assert View(d, ch)[i + 1] == s[i + 1].(elem := Elem(c.cells[el].id, AbsData(d, el)));
  }

  /** An operation that reaches the end and appends nothing. */
  lemma EndSimulates(c: Config, ch: seq<Addr>, t: nat, x: Addr, y: Cell, th: Thread, at: Addr, r: Result)
    requires Inv(c, ch) && FairStep(c, ch, t, x, y, th) && SettleReady(c, ch, t, Edit(c, t, x, y, th), at, r)
    requires MoveOf(c, ch, t) == FinishAt(IndexOf(ch, at)) && Succ(ch, at) == NULL
    requires Finish(TokenOf(t, c.threads[t])) == ([], r)
    ensures Simulates(c, ch, t, Ok(Edit(c, t, x, y, th)))
  {
    var d := Edit(c, t, x, y, th);
    Settled(c, ch, t, x, y, th, at, r);
    EndView(c, ch, t, d, at, r);
    MoveSimulates(c, ch, t, d, ch, FinishAt(IndexOf(ch, at)));
  }

  lemma EndView(c: Config, ch: seq<Addr>, t: nat, d: Config, at: Addr, r: Result)
    requires Inv(c, ch) && Inv(d, ch) && Respects(c, ch, d, ch, t) && SettleReady(c, ch, t, d, at, r)
    requires Succ(ch, at) == NULL
    requires Abs(d, ch).done == Abs(c, ch).done[t := r]
    requires Finish(TokenOf(t, c.threads[t])) == ([], r)
    ensures Enabled(Abs(c, ch), FinishAt(IndexOf(ch, at)))
    ensures Abs(d, ch) == After(Abs(c, ch), FinishAt(IndexOf(ch, at)))
  {
    SettleTokens(c, ch, t, d, at, r);
    SuccFacts(ch, at);
    EndStations(c, ch, t, d, at);
    TokenAlone(c, ch, IndexOf(ch, at));
  }

  lemma EndStations(c: Config, ch: seq<Addr>, t: nat, d: Config, at: Addr)
    requires Distinct(ch) && at in ch && IndexOf(ch, at) == |ch| - 1 && Succ(ch, at) !in ch
    requires forall a :: a in ch ==> a in c.cells && a in d.cells
    requires forall a :: a in ch && a != at && a != Succ(ch, at) ==> StationOf(d, a) == StationOf(c, a)
    requires t < |c.threads| && TokAt(c, at) == Some(TokenOf(t, c.threads[t])) && TokAt(d, at) == None
    requires StationOf(d, at).elem == StationOf(c, at).elem
    ensures var i, s := IndexOf(ch, at), View(c, ch);
            && View(d, ch) == s[..i] + [s[i].(tok := None)] + []
            && s[i].tok == Some(TokenOf(t, c.threads[t]))
  {
    LastChanged(c, d, ch, Succ(ch, at));
    LastSplit(View(c, ch), View(d, ch), View(c, ch)[|ch| - 1].(tok := None));
  }

  /** A view in which only the last station has changed. */
  lemma LastChanged(c: Config, d: Config, ch: seq<Addr>, x: Addr)
    requires Distinct(ch) && ch != [] && x !in ch && forall a :: a in ch ==> a in c.cells && a in d.cells
    requires forall a :: a in ch && a != ch[|ch| - 1] && a != x ==> StationOf(d, a) == StationOf(c, a)
    ensures forall j :: 0 <= j < |ch| - 1 ==> View(d, ch)[j] == View(c, ch)[j]
    ensures View(d, ch)[|ch| - 1] == StationOf(d, ch[|ch| - 1]) && View(c, ch)[|ch| - 1] == StationOf(c, ch[|ch| - 1])
  {
    forall j | 0 <= j < |ch| - 1 ensures View(d, ch)[j] == View(c, ch)[j] {
      assert ch[j] in ch && ch[j] != ch[|ch| - 1];
    }
  }

  lemma LastSplit(s: seq<Station>, s': seq<Station>, x: Station)
    requires |s'| == |s| > 0 && s'[|s| - 1] == x && forall j :: 0 <= j < |s| - 1 ==> s'[j] == s[j]
    ensures s' == s[..|s| - 1] + [x] + []
  {
  }

  // ----- reaching the end without appending

  lemma LookFairEnd(c: Config, ch: seq<Addr>, t: nat)
    requires LocalInv(c, ch, t) && c.threads[t].pc.Look? && !Appends(c.threads[t].op)
    requires c.cells[c.threads[t].pc.at].next == NULL
    ensures var th := c.threads[t]; var at := th.pc.at;
            var r := Finish(TokenOf(t, th)).1;
            var d := Edit(c, t, at, c.cells[at], th.(pc := Release(at, r)));
            && FairStep(c, ch, t, at, c.cells[at], th.(pc := Release(at, r)))
            && SettleReady(c, ch, t, d, at, r)
            && Succ(ch, at) == NULL && Finish(TokenOf(t, th)) == ([], r)
            && MoveOf(c, ch, t) == FinishAt(IndexOf(ch, at))
            && forall a :: Step(c, t, a) == Ok(d)
  {
    var at := c.threads[t].pc.at;
    SuccFacts(ch, at);
    assert c.cells[at := c.cells[at]] == c.cells;
  }

  lemma LookEndStep(c: Config, ch: seq<Addr>, t: nat, a: Addr)
    requires Inv(c, ch) && t < |c.threads| && c.threads[t].pc.Look? && !Appends(c.threads[t].op)
    requires c.threads[t].pc.at in c.cells && c.cells[c.threads[t].pc.at].next == NULL
    ensures Simulates(c, ch, t, Step(c, t, a))
  {
    var th := c.threads[t];
    var at := th.pc.at;
    Localize(c, ch, t);
    LookFairEnd(c, ch, t);
    var r := Finish(TokenOf(t, th)).1;
    EndSimulates(c, ch, t, at, c.cells[at], th.(pc := Release(at, r)), at, r);
  }

  // ----- a CREATE that finds its name taken

  lemma TakenFair(c: Config, ch: seq<Addr>, t: nat)
    requires LocalInv(c, ch, t) && c.threads[t].pc.Compare? && c.threads[t].op.AppendUnique?
    requires c.cells[c.threads[t].pc.el].id == c.threads[t].op.id
    ensures var th := c.threads[t]; var at := th.pc.at;
            FairStep(c, ch, t, at, c.cells[at], th.(pc := Release(at, Code(1))))
  {
    SuccFacts(ch, c.threads[t].pc.at);
  }

  lemma TakenReady(c: Config, ch: seq<Addr>, t: nat)
    requires LocalInv(c, ch, t) && c.threads[t].pc.Compare? && c.threads[t].op.AppendUnique?
    requires c.cells[c.threads[t].pc.el].id == c.threads[t].op.id
    ensures var th := c.threads[t]; var at, el := th.pc.at, th.pc.el;
            var d := Edit(c, t, at, c.cells[at], th.(pc := Release(at, Code(1))));
            && SettleReady(c, ch, t, d, at, Code(1))
            && Succ(ch, at) == el && el != NULL
            && Meet(TokenOf(t, th), Elem(c.cells[el].id, AbsData(c, el))) ==
               Stop([Elem(c.cells[el].id, AbsData(d, el))], Code(1))
            && forall a :: Step(c, t, a) == Ok(d)
  {
    SuccFacts(ch, c.threads[t].pc.at);
    TakenFair(c, ch, t);
    TakenMeets(c, ch, t);
  }

  lemma TakenMeets(c: Config, ch: seq<Addr>, t: nat)
    requires LocalInv(c, ch, t) && c.threads[t].pc.Compare? && c.threads[t].op.AppendUnique?
    requires c.cells[c.threads[t].pc.el].id == c.threads[t].op.id
    ensures var th := c.threads[t]; var at, el := th.pc.at, th.pc.el;
            var d := Edit(c, t, at, c.cells[at], th.(pc := Release(at, Code(1))));
            && d.cells == c.cells && AbsData(d, el) == AbsData(c, el)
            && Meet(TokenOf(t, th), Elem(c.cells[el].id, AbsData(c, el))) ==
               Stop([Elem(c.cells[el].id, AbsData(c, el))], Code(1))
            && forall a :: Step(c, t, a) == Ok(d)
  {
    var at := c.threads[t].pc.at;
    assert c.cells[at := c.cells[at]] == c.cells;
  }

  lemma TakenStep(c: Config, ch: seq<Addr>, t: nat, a: Addr)
    requires Inv(c, ch) && t < |c.threads| && c.threads[t].pc.Compare? && c.threads[t].op.AppendUnique?
    requires c.threads[t].pc.el in c.cells && c.cells[c.threads[t].pc.el].id == c.threads[t].op.id
    ensures Simulates(c, ch, t, Step(c, t, a))
  {
    var th := c.threads[t];
    var at := th.pc.at;
    Localize(c, ch, t);
    TakenFair(c, ch, t);
    TakenReady(c, ch, t);
    StopSimulates(c, ch, t, at, c.cells[at], th.(pc := Release(at, Code(1))), at, Code(1));
  }

  // ----- a reader or an updater getting the content lock

  lemma ContentFair(c: Config, ch: seq<Addr>, t: nat)
    requires LocalInv(c, ch, t) && c.threads[t].pc.LockContent? && !Removes(c.threads[t].op)
    requires c.cells[c.threads[t].pc.el].content.Open?
    ensures var th := c.threads[t]; var at, el := th.pc.at, th.pc.el;
            FairStep(c, ch, t, el, c.cells[el].(content := Held(t)), th.(pc := AfterContent(th.op, at, el)))
  {
    SuccFacts(ch, c.threads[t].pc.at);
  }

  function Found(c: Config, th: Thread, el: Addr): Result
    requires el in c.cells
  {
    if th.op.Update? then Code(0)
    else Payload(Some(if c.cells[el].payload.Block? then c.cells[el].payload.data else ""))
  }

  lemma ContentReady(c: Config, ch: seq<Addr>, t: nat)
    requires LocalInv(c, ch, t) && c.threads[t].pc.LockContent? && !Removes(c.threads[t].op)
    requires c.cells[c.threads[t].pc.el].content.Open?
    ensures var th := c.threads[t]; var at, el := th.pc.at, th.pc.el;
            var d := Edit(c, t, el, c.cells[el].(content := Held(t)), th.(pc := AfterContent(th.op, at, el)));
            && SettleReady(c, ch, t, d, at, Found(c, th, el))
            && Meet(TokenOf(t, th), Elem(c.cells[el].id, AbsData(c, el))) ==
               Stop([Elem(c.cells[el].id, AbsData(d, el))], Found(c, th, el))
            && forall a :: Step(c, t, a) == Ok(d)
  {
    SuccFacts(ch, c.threads[t].pc.at);
    ContentFair(c, ch, t);
  }

  lemma ContentStep(c: Config, ch: seq<Addr>, t: nat, a: Addr)
    requires Inv(c, ch) && t < |c.threads| && c.threads[t].pc.LockContent? && !Removes(c.threads[t].op)
    ensures Simulates(c, ch, t, Step(c, t, a))
  {
    var th := c.threads[t];
    var at, el := th.pc.at, th.pc.el;
    Localize(c, ch, t);
    SuccFacts(ch, at);
    if c.cells[el].content.Open? {
      ContentFair(c, ch, t);
      ContentReady(c, ch, t);
      StopSimulates(c, ch, t, el, c.cells[el].(content := Held(t)), th.(pc := AfterContent(th.op, at, el)), at,
                    Found(c, th, el));
    }
  }
}
