/** The steps that the pipeline does see: entering, walking on, and settling a result. */
module Moves {
  import opened ListSpec
  import opened Pipeline
  import opened Machine
  import opened Chains
  import opened Invariant
  import opened Preserve
  import opened Abstraction
  import opened Simulation

  /** A one-cell step that keeps the invariant, whatever the pipeline makes of it. */
  ghost predicate FairStep(c: Config, ch: seq<Addr>, t: nat, x: Addr, y: Cell, th: Thread) {
    && t < |c.threads| && x in c.cells && th.op == c.threads[t].op
    && FairCell(ch, t, x, c.cells[x], y, c.threads[t], th)
    && FairThread(x, c.threads[t], th)
    && FairLink(ch, x, c.cells[x], y, c.threads[t], th)
    && ThreadOk(c, ch, t, c.threads[t]) && ThreadOk(Edit(c, t, x, y, th), ch, t, th)
  }

  lemma FairKeepsInv(c: Config, ch: seq<Addr>, t: nat, x: Addr, y: Cell, th: Thread)
    requires Inv(c, ch) && FairStep(c, ch, t, x, y, th)
    ensures Inv(Edit(c, t, x, y, th), ch) && Respects(c, ch, Edit(c, t, x, y, th), ch, t)
  {
    OneCell(c, ch, t, x, y, th, Edit(c, t, x, y, th));
  }

  /** `entered` is a record only. */
  lemma RecordEntry(c: Config, ch: seq<Addr>, log: seq<Entry>)
    requires Inv(c, ch)
    ensures Inv(c.(entered := log), ch) && Abs(c.(entered := log), ch) == Abs(c, ch)
  {
    var d := c.(entered := log);
    forall u | 0 <= u < |d.threads| ensures ThreadOk(d, ch, u, d.threads[u]) {
      assert ThreadOk(c, ch, u, c.threads[u]);
    }
    forall a | a in d.cells ensures LockOk(d, a) && Owned(d, ch, a) {
      assert LockOk(c, a) && Owned(c, ch, a);
      if a !in ch {
        var u :| 0 <= u < |c.threads| && Private(c.threads[u]) == a;
        assert Private(d.threads[u]) == a;
      }
    }
    forall a | a in ch ensures LinkOk(d, ch, a) {
      assert LinkOk(c, ch, a);
    }
    SameAbs(c, d, ch);
  }

  lemma SameAbs(c: Config, d: Config, ch: seq<Addr>)
    requires Inv(c, ch) && Inv(d, ch) && d.cells == c.cells && d.threads == c.threads
    ensures Abs(d, ch) == Abs(c, ch)
  {
    assert View(d, ch) == View(c, ch) by { SameView(c, d, ch); }
    SamePromise(c, d, ch);
    EqualPromises(c, d);
  }

  lemma SameView(c: Config, d: Config, ch: seq<Addr>)
    requires d.cells == c.cells && d.threads == c.threads && forall a :: a in ch ==> a in c.cells
    ensures View(d, ch) == View(c, ch)
  {
    forall i | 0 <= i < |ch| ensures View(d, ch)[i] == View(c, ch)[i] {
      assert ch[i] in ch;
      assert AbsData(d, ch[i]) == AbsData(c, ch[i]);
      assert TokAt(d, ch[i]) == TokAt(c, ch[i]);
    }
  }

  lemma SamePromise(c: Config, d: Config, ch: seq<Addr>)
    requires ThreadsOk(c, ch) && d.cells == c.cells && d.threads == c.threads
    ensures forall u :: 0 <= u < |c.threads| ==>
              && (El(c.threads[u].pc) != NULL ==> El(c.threads[u].pc) in c.cells)
              && Promise(d, d.threads[u]) == Promise(c, c.threads[u])
  {
    forall u | 0 <= u < |c.threads|
      ensures El(c.threads[u].pc) != NULL ==> El(c.threads[u].pc) in c.cells
      ensures Promise(d, d.threads[u]) == Promise(c, c.threads[u])
    {
      assert ThreadOk(c, ch, u, c.threads[u]);
      PromiseFrame(c, d, c.threads[u]);
    }
  }

  /** Stations away from the one or two places the step is about. */
  lemma Elsewhere(c: Config, ch: seq<Addr>, c': Config, ch': seq<Addr>, t: nat, p: Addr, q: Addr)
    requires Inv(c, ch) && Inv(c', ch') && Respects(c, ch, c', ch', t) && t < |c.threads|
    requires c'.threads[t].op == c.threads[t].op
    requires TokenPlace(c.threads[t]) == NULL || TokenPlace(c.threads[t]) == p || TokenPlace(c.threads[t]) == q
    requires TokenPlace(c'.threads[t]) == NULL || TokenPlace(c'.threads[t]) == p || TokenPlace(c'.threads[t]) == q
    requires forall a :: a in ch && a in ch' && a != q && a in c.cells && a in c'.cells ==>
               c'.cells[a].content == c.cells[a].content && c'.cells[a].payload == c.cells[a].payload
    ensures forall a :: a in ch && a in ch' && a != p && a != q && a in c.cells && a in c'.cells ==>
              StationOf(c', a) == StationOf(c, a)
  {
    forall a | a in ch && a in ch' && a != p && a != q && a in c.cells && a in c'.cells
      ensures StationOf(c', a) == StationOf(c, a)
    {
      DataSame(c, ch, c', ch', t, a);
      StationSame(c, ch, c', ch', t, a);
    }
  }

  // ----- entering

  lemma EnterHeap(c: Config, ch: seq<Addr>, t: nat)
    requires LocalInv(c, ch, t) && c.threads[t].pc.LockList? && c.cells[LIST].usage.Open?
    ensures var y, th := c.cells[LIST].(usage := Held(t)), c.threads[t].(pc := Look(LIST));
            && FairStep(c, ch, t, LIST, y, th)
            && (forall a :: Step(c, t, a) == Ok(Edit(c, t, LIST, y, th).(entered := c.entered + [Entry(t, th.op)])))
  {
    assert ch[0] in ch;
  }

  lemma EnterStep(c: Config, ch: seq<Addr>, t: nat, a: Addr)
    requires Inv(c, ch) && t < |c.threads| && c.threads[t].pc.LockList?
    ensures Simulates(c, ch, t, Step(c, t, a))
  {
    Localize(c, ch, t);
    if c.cells[LIST].usage.Open? {
      EnterHeap(c, ch, t);
      EnterOk(c, ch, t, Edit(c, t, LIST, c.cells[LIST].(usage := Held(t)), c.threads[t].(pc := Look(LIST))));
    }
  }

  lemma EnterOk(c: Config, ch: seq<Addr>, t: nat, d: Config)
    requires Inv(c, ch) && t < |c.threads| && c.threads[t].pc.LockList? && c.cells[LIST].usage.Open?
    requires FairStep(c, ch, t, LIST, c.cells[LIST].(usage := Held(t)), c.threads[t].(pc := Look(LIST)))
    requires d == Edit(c, t, LIST, c.cells[LIST].(usage := Held(t)), c.threads[t].(pc := Look(LIST)))
    ensures Simulates(c, ch, t, Ok(d.(entered := c.entered + [Entry(t, c.threads[t].op)])))
  {
    FairKeepsInv(c, ch, t, LIST, c.cells[LIST].(usage := Held(t)), c.threads[t].(pc := Look(LIST)));
    EnterView(c, ch, t, d);
    EnterRecorded(c, ch, t, d);
  }

  lemma EnterRecorded(c: Config, ch: seq<Addr>, t: nat, d: Config)
    requires Inv(c, ch) && t < |c.threads| && c.threads[t].pc.LockList? && Inv(d, ch) && Respects(c, ch, d, ch, t)
    requires t < |d.threads| && d.threads[t].op == c.threads[t].op
    requires Enabled(Abs(c, ch), Enter(t, c.threads[t].op))
    requires Abs(d, ch) == After(Abs(c, ch), Enter(t, c.threads[t].op))
    ensures Simulates(c, ch, t, Ok(d.(entered := c.entered + [Entry(t, c.threads[t].op)])))
  {
    RecordEntry(d, ch, c.entered + [Entry(t, c.threads[t].op)]);
    RecordRespects(c, ch, d, t, c.entered + [Entry(t, c.threads[t].op)]);
  }

  lemma RecordRespects(c: Config, ch: seq<Addr>, d: Config, t: nat, log: seq<Entry>)
    requires Respects(c, ch, d, ch, t)
    ensures Respects(c, ch, d.(entered := log), ch, t)
  {
    var e := d.(entered := log);
    assert e.cells == d.cells && e.threads == d.threads;
    forall u | 0 <= u < |c.threads| && u != t ensures Kept(c, e, ch, Private(c.threads[u])) {
      assert Kept(c, d, ch, Private(c.threads[u]));
    }
  }

  lemma EnterView(c: Config, ch: seq<Addr>, t: nat, d: Config)
    requires Inv(c, ch) && t < |c.threads| && c.threads[t].pc.LockList? && c.cells[LIST].usage.Open?
    requires d == Edit(c, t, LIST, c.cells[LIST].(usage := Held(t)), c.threads[t].(pc := Look(LIST)))
    requires Inv(d, ch) && Respects(c, ch, d, ch, t)
    ensures Enabled(Abs(c, ch), Enter(t, c.threads[t].op))
    ensures Abs(d, ch) == After(Abs(c, ch), Enter(t, c.threads[t].op))
  {
    assert ThreadOk(c, ch, t, c.threads[t]) && ThreadOk(d, ch, t, d.threads[t]);
    PromisesSame(c, ch, d, ch, t);
    Elsewhere(c, ch, d, ch, t, LIST, NULL);
    DataSame(c, ch, d, ch, t, LIST);
    var s := View(c, ch);
    forall i | 0 <= i < |ch| ensures View(d, ch)[i] == s[0 := s[0].(tok := Some(Start(t, c.threads[t].op)))][i] {
      assert ch[i] in ch;
    }
    assert View(d, ch) == s[0 := s[0].(tok := Some(Start(t, c.threads[t].op)))];
  }

  // ----- walking on

  /** The token is about to go from `at` to the element after it. */
  ghost predicate PassReady(c: Config, ch: seq<Addr>, t: nat, d: Config, at: Addr, el: Addr) {
    && t < |c.threads| && t < |d.threads|
    && ThreadOk(c, ch, t, c.threads[t]) && ThreadOk(d, ch, t, d.threads[t])
    && Distinct(ch) && NULL !in ch && at in ch && el in ch && el == Succ(ch, at) && el != NULL
    && TokenPlace(c.threads[t]) == at && TokenPlace(d.threads[t]) == el
    && d.threads[t].op == c.threads[t].op && c.entered == d.entered
    && Promise(c, c.threads[t]) == None && Promise(d, d.threads[t]) == None
    && at in c.cells && at in d.cells && el in c.cells && el in d.cells
    && c.cells[at].usage == Held(t) && (c.cells[el].usage == Held(t) || c.cells[el].usage.Open?)
    && (forall a :: a in c.cells && a in d.cells ==>
          d.cells[a].content == c.cells[a].content && d.cells[a].payload == c.cells[a].payload)
    && Meet(TokenOf(t, c.threads[t]), Elem(c.cells[el].id, AbsData(c, el))) == Pass(TokenOf(t, d.threads[t]))
    && MoveOf(c, ch, t) == PassOn(IndexOf(ch, at)) && NextChain(c, ch, t) == ch
  }

  lemma PassView(c: Config, ch: seq<Addr>, t: nat, d: Config, at: Addr, el: Addr)
    requires Inv(c, ch) && Inv(d, ch) && Respects(c, ch, d, ch, t) && PassReady(c, ch, t, d, at, el)
    ensures Enabled(Abs(c, ch), PassOn(IndexOf(ch, at)))
    ensures Abs(d, ch) == After(Abs(c, ch), PassOn(IndexOf(ch, at)))
  {
    PromisesSame(c, ch, d, ch, t);
    SuccFacts(ch, at);
    PassTokens(c, ch, t, d, at, el);
    PassPlaces(c, ch, t, d, at, el);
  }

  lemma PassTokens(c: Config, ch: seq<Addr>, t: nat, d: Config, at: Addr, el: Addr)
    requires Inv(c, ch) && Inv(d, ch) && Respects(c, ch, d, ch, t) && PassReady(c, ch, t, d, at, el)
    ensures forall a :: a in ch && a != at && a != el && a in c.cells && a in d.cells ==> StationOf(d, a) == StationOf(c, a)
    ensures TokAt(c, at) == Some(TokenOf(t, c.threads[t])) && TokAt(d, at) == None
    ensures TokAt(c, el) == None && TokAt(d, el) == Some(TokenOf(t, d.threads[t]))
    ensures StationOf(d, at).elem == StationOf(c, at).elem && StationOf(d, el).elem == StationOf(c, el).elem
  {
    SuccFacts(ch, at);
    Elsewhere(c, ch, d, ch, t, at, el);
    DataSame(c, ch, d, ch, t, at);
    DataSame(c, ch, d, ch, t, el);
    TokenHolds(c, ch, t);
    TokenHolds(d, ch, t);
    TokGone(c, ch, d, ch, t, at);
  }

  lemma PassSimulates(c: Config, ch: seq<Addr>, t: nat, x: Addr, y: Cell, th: Thread, at: Addr, el: Addr)
    requires Inv(c, ch) && FairStep(c, ch, t, x, y, th) && PassReady(c, ch, t, Edit(c, t, x, y, th), at, el)
    ensures Simulates(c, ch, t, Ok(Edit(c, t, x, y, th)))
  {
    FairKeepsInv(c, ch, t, x, y, th);
    PassView(c, ch, t, Edit(c, t, x, y, th), at, el);
    MoveSimulates(c, ch, t, Edit(c, t, x, y, th), ch, PassOn(IndexOf(ch, at)));
  }

  /** A view in which two neighbouring stations have changed. */
  lemma OthersStand(c: Config, d: Config, ch: seq<Addr>, i: nat)
    requires Distinct(ch) && i + 1 < |ch| && forall a :: a in ch ==> a in c.cells && a in d.cells
    requires forall a :: a in ch && a != ch[i] && a != ch[i + 1] ==> StationOf(d, a) == StationOf(c, a)
    ensures View(d, ch) == View(c, ch)[i := View(d, ch)[i]][i + 1 := View(d, ch)[i + 1]]
    ensures View(c, ch)[i] == StationOf(c, ch[i]) && View(d, ch)[i] == StationOf(d, ch[i])
    ensures View(c, ch)[i + 1] == StationOf(c, ch[i + 1]) && View(d, ch)[i + 1] == StationOf(d, ch[i + 1])
  {
    forall j | 0 <= j < |ch| && j != i && j != i + 1 ensures View(d, ch)[j] == View(c, ch)[j] {
      assert ch[j] in ch && ch[j] != ch[i] && ch[j] != ch[i + 1];
    }
  }

  lemma PassStations(c: Config, ch: seq<Addr>, t: nat, d: Config, i: nat)
    requires Distinct(ch) && i + 1 < |ch| && forall a :: a in ch ==> a in c.cells && a in d.cells
    requires forall a :: a in ch && a != ch[i] && a != ch[i + 1] ==> StationOf(d, a) == StationOf(c, a)
    requires t < |c.threads| && t < |d.threads|
    requires TokAt(c, ch[i]) == Some(TokenOf(t, c.threads[t])) && TokAt(d, ch[i]) == None
    requires TokAt(c, ch[i + 1]) == None && TokAt(d, ch[i + 1]) == Some(TokenOf(t, d.threads[t]))
    requires StationOf(d, ch[i]).elem == StationOf(c, ch[i]).elem && StationOf(d, ch[i + 1]).elem == StationOf(c, ch[i + 1]).elem
    ensures var s := View(c, ch);
            && s[i].tok == Some(TokenOf(t, c.threads[t])) && s[i + 1].tok == None
            && s[i + 1].elem == Elem(c.cells[ch[i + 1]].id, AbsData(c, ch[i + 1]))
            && View(d, ch) == s[i := s[i].(tok := None)][i + 1 := s[i + 1].(tok := Some(TokenOf(t, d.threads[t])))]
  {
    OthersStand(c, d, ch, i);
  }

  lemma PassPlaces(c: Config, ch: seq<Addr>, t: nat, d: Config, at: Addr, el: Addr)
    requires Distinct(ch) && at in ch && el in ch && IndexOf(ch, el) == IndexOf(ch, at) + 1
    requires forall a :: a in ch ==> a in c.cells && a in d.cells
    requires forall a :: a in ch && a != at && a != el ==> StationOf(d, a) == StationOf(c, a)
    requires t < |c.threads| && t < |d.threads|
    requires TokAt(c, at) == Some(TokenOf(t, c.threads[t])) && TokAt(d, at) == None
    requires TokAt(c, el) == None && TokAt(d, el) == Some(TokenOf(t, d.threads[t]))
    requires StationOf(d, at).elem == StationOf(c, at).elem && StationOf(d, el).elem == StationOf(c, el).elem
    ensures var i, s := IndexOf(ch, at), View(c, ch);
            && i + 1 < |s| && s[i].tok == Some(TokenOf(t, c.threads[t])) && s[i + 1].tok == None
            && s[i + 1].elem == Elem(c.cells[el].id, AbsData(c, el))
            && View(d, ch) == s[i := s[i].(tok := None)][i + 1 := s[i + 1].(tok := Some(TokenOf(t, d.threads[t])))]
  {
    PassStations(c, ch, t, d, IndexOf(ch, at));
  }

  lemma LockNextHeapOk(c: Config, ch: seq<Addr>, t: nat)
    requires LocalInv(c, ch, t) && c.threads[t].pc.LockNext? && !c.threads[t].op.GetAllIds?
    requires c.cells[c.threads[t].pc.el].usage.Open?
    ensures var th := c.threads[t]; var pc := th.pc;
            FairStep(c, ch, t, pc.el, c.cells[pc.el].(usage := Held(t)), th.(pc := HandOver(pc.at, pc.el)))
  {
    SuccFacts(ch, c.threads[t].pc.at);
  }

  lemma LockNextReady(c: Config, ch: seq<Addr>, t: nat)
    requires LocalInv(c, ch, t) && c.threads[t].pc.LockNext? && !c.threads[t].op.GetAllIds?
    requires c.cells[c.threads[t].pc.el].usage.Open?
    ensures var th := c.threads[t]; var pc := th.pc;
            var d := Edit(c, t, pc.el, c.cells[pc.el].(usage := Held(t)), th.(pc := HandOver(pc.at, pc.el)));
            PassReady(c, ch, t, d, pc.at, pc.el) && forall a :: Step(c, t, a) == Ok(d)
  {
    SuccFacts(ch, c.threads[t].pc.at);
    LockNextHeapOk(c, ch, t);
    LockNextMeets(c, ch, t);
  }

  lemma LockNextMeets(c: Config, ch: seq<Addr>, t: nat)
    requires LocalInv(c, ch, t) && c.threads[t].pc.LockNext? && !c.threads[t].op.GetAllIds?
    requires c.cells[c.threads[t].pc.el].usage.Open?
    ensures var th := c.threads[t]; var pc := th.pc; var th' := th.(pc := HandOver(pc.at, pc.el));
            && Meet(TokenOf(t, th), Elem(c.cells[pc.el].id, AbsData(c, pc.el))) == Pass(TokenOf(t, th'))
            && forall a :: Step(c, t, a) == Ok(Edit(c, t, pc.el, c.cells[pc.el].(usage := Held(t)), th'))
  {
  }

  lemma LockNextStep(c: Config, ch: seq<Addr>, t: nat, a: Addr)
    requires Inv(c, ch) && t < |c.threads| && c.threads[t].pc.LockNext? && !c.threads[t].op.GetAllIds?
    ensures Simulates(c, ch, t, Step(c, t, a))
  {
    var th := c.threads[t];
    var at, el := th.pc.at, th.pc.el;
    Localize(c, ch, t);
    SuccFacts(ch, at);
    if c.cells[el].usage.Open? {
      LockNextHeapOk(c, ch, t);
      LockNextReady(c, ch, t);
      PassSimulates(c, ch, t, el, c.cells[el].(usage := Held(t)), th.(pc := HandOver(at, el)), at, el);
    }
  }

  function Noted(th: Thread, id: string): Thread
    requires th.pc.Note?
  {
    th.(pc := HandOver(th.pc.at, th.pc.el), count := th.count + 1, text := th.text + "\n" + id)
  }

  lemma NoteHeapOk(c: Config, ch: seq<Addr>, t: nat)
    requires LocalInv(c, ch, t) && c.threads[t].pc.Note?
    ensures var th := c.threads[t]; var pc := th.pc;
            && pc.el in c.cells && c.cells[pc.el].named
            && FairStep(c, ch, t, pc.at, c.cells[pc.at], Noted(th, c.cells[pc.el].id))
  {
    SuccFacts(ch, c.threads[t].pc.at);
  }

  lemma NoteReady(c: Config, ch: seq<Addr>, t: nat)
    requires LocalInv(c, ch, t) && c.threads[t].pc.Note? && c.threads[t].pc.el in c.cells
    ensures var th := c.threads[t]; var pc := th.pc;
            var d := Edit(c, t, pc.at, c.cells[pc.at], Noted(th, c.cells[pc.el].id));
            PassReady(c, ch, t, d, pc.at, pc.el) && forall a :: Step(c, t, a) == Ok(d)
  {
    SuccFacts(ch, c.threads[t].pc.at);
    NoteHeapOk(c, ch, t);
    NoteMeets(c, ch, t);
  }

  lemma NoteMeets(c: Config, ch: seq<Addr>, t: nat)
    requires LocalInv(c, ch, t) && c.threads[t].pc.Note? && c.threads[t].pc.el in c.cells && c.cells[c.threads[t].pc.el].named
    ensures var th := c.threads[t]; var pc := th.pc;
            var d := Edit(c, t, pc.at, c.cells[pc.at], Noted(th, c.cells[pc.el].id));
            && d.cells == c.cells && (forall a :: Step(c, t, a) == Ok(d))
            && Meet(TokenOf(t, th), Elem(c.cells[pc.el].id, AbsData(c, pc.el))) == Pass(TokenOf(t, d.threads[t]))
  {
    var at := c.threads[t].pc.at;
    assert c.cells[at := c.cells[at]] == c.cells;
  }

  lemma NoteStep(c: Config, ch: seq<Addr>, t: nat, a: Addr)
    requires Inv(c, ch) && t < |c.threads| && c.threads[t].pc.Note?
    ensures Simulates(c, ch, t, Step(c, t, a))
  {
    var th := c.threads[t];
    var at, el := th.pc.at, th.pc.el;
    Localize(c, ch, t);
    NoteHeapOk(c, ch, t);
    NoteReady(c, ch, t);
    PassSimulates(c, ch, t, at, c.cells[at], Noted(th, c.cells[el].id), at, el);
  }
}
