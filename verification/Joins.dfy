/** The same two threads, seen in memory: at every moment the handles joined so far, the payloads
    of the nodes in the chain (but for a head that is joined already) and an append under way are
    the handles created; and the node taken apart holds the handle last joined. */
module Joins {
  import opened ListSpec
  import Pipeline
  import opened Machine
  import opened Chains
  import opened Invariant
  import opened Abstraction
  import opened Simulation
  import opened Refinement
  import opened Theorems
  import opened Cleanup

  /** An appender at this point has published its node. */
  predicate HasLinked(pc: Pc) { pc.Release? || pc.Done? }

  /** A remover at this point has taken its element out of the chain, or found none. */
  predicate HasTaken(pc: Pc) { pc.Drop? || pc.Unlink? || pc.Release? || pc.Done? }

  /** The handles in the chain. */
  function InChain(s: seq<Pipeline.Station>): (m: seq<string>)
    requires s != []
    ensures |m| == |s| - 1 && forall i :: 0 <= i < |m| ==> m[i] == s[i + 1].elem.data
  {
    seq(|s| - 1, i requires 0 <= i < |s| - 1 => s[i + 1].elem.data)
  }

  /** Each of the two threads has at most one call under way. */
  ghost predicate Roles(c: Config, s: Duo) {
    && (forall u :: 0 <= u < |c.threads| ==>
          c.threads[u].pc.Done? || s.append == Some(u) || s.cleaner == Looking(u) || s.cleaner == Removing(u))
    && (s.append.Some? ==>
          && s.append.value < |c.threads| && s.created != []
          && c.threads[s.append.value].op == Append("NoName", s.created[|s.created| - 1]))
    && (s.cleaner.Looking? ==> s.cleaner.t < |c.threads| && c.threads[s.cleaner.t].op == GetFirst)
    && (s.cleaner.Removing? ==> s.cleaner.t < |c.threads| && c.threads[s.cleaner.t].op == RemoveFirst)
    && (forall u :: 0 <= u < |c.threads| ==> c.threads[u].op.Append? || c.threads[u].op.GetFirst? || c.threads[u].op.RemoveFirst?)
  }

  /** The handle whose node is not in the chain yet. */
  function Unlinked(c: Config, s: Duo): seq<string> {
    if s.append.Some? && s.append.value < |c.threads| && !HasLinked(c.threads[s.append.value].pc) && s.created != []
    then [s.created[|s.created| - 1]] else []
  }

  /** The head is joined and not taken out yet. */
  predicate HeadPending(c: Config, s: Duo) {
    s.cleaner.Removing? && s.cleaner.t < |c.threads| && !HasTaken(c.threads[s.cleaner.t].pc)
  }

  ghost predicate Balanced(c: Config, s: Duo, m: seq<string>) {
    if HeadPending(c, s) then
      && m != [] && s.joined != [] && m[0] == s.joined[|s.joined| - 1]
      && s.created == s.joined + m[1..] + Unlinked(c, s)
    else s.created == s.joined + m + Unlinked(c, s)
  }

  /** What getFirstListElement is committed to return is still the head. */
  ghost predicate FoundHead(s: Duo, m: seq<string>, done: map<nat, Result>) {
    s.cleaner.Looking? && s.cleaner.t in done ==>
      done[s.cleaner.t] == Payload(None) || (m != [] && done[s.cleaner.t] == Payload(Some(m[0])))
  }

  /** The node being taken apart holds the handle last joined, until its payload is freed. */
  ghost predicate TakesTheJoined(c: Config, s: Duo) {
    s.cleaner.Removing? && s.cleaner.t < |c.threads| && c.threads[s.cleaner.t].pc.Drop? && c.threads[s.cleaner.t].pc.stage <= 5 ==>
      var el := El(c.threads[s.cleaner.t].pc);
      && el in c.cells && c.cells[el].payload.Block? && s.joined != []
      && c.cells[el].payload.data == s.joined[|s.joined| - 1]
  }

  ghost predicate Holds(c: Config, s: Duo, m: seq<string>, done: map<nat, Result>) {
    Roles(c, s) && TakesTheJoined(c, s) && Balanced(c, s, m) && FoundHead(s, m, done)
  }

  ghost predicate InMemory(c: Config, ch: seq<Addr>, s: Duo) {
    Sound(c, ch) && Holds(c, s, InChain(Abs(c, ch).stations), Abs(c, ch).done)
  }

  // ----- what one step does to the chain's handles

  lemma AppendPoint(c: Config, ch: seq<Addr>, v: nat, a: Addr)
    requires v < |c.threads| && Step(c, v, a).Ok? && c.threads[v].op.Append? && Fits(c.threads[v])
    ensures v < |Step(c, v, a).c.threads|
    ensures HasLinked(Step(c, v, a).c.threads[v].pc) <==> HasLinked(c.threads[v].pc) || c.threads[v].pc.Link?
    ensures var m := MoveOf(c, ch, v);
            m.Stay? || m.Enter? || m.PassOn? || m.FinishAt?
    ensures MoveOf(c, ch, v).FinishAt? ==> c.threads[v].pc.Link? && MoveOf(c, ch, v).at == IndexOf(ch, At(c.threads[v].pc))
  {
  }

  lemma RemovePoint(c: Config, ch: seq<Addr>, v: nat, a: Addr)
    requires v < |c.threads| && Step(c, v, a).Ok? && c.threads[v].op.RemoveFirst? && Fits(c.threads[v])
    ensures v < |Step(c, v, a).c.threads|
    ensures var m := MoveOf(c, ch, v);
            && (m.Stay? || m.Enter? || m.StopAt? || m.FinishAt?)
            && (HasTaken(Step(c, v, a).c.threads[v].pc) <==> HasTaken(c.threads[v].pc) || m.StopAt? || m.FinishAt?)
            && (m.StopAt? || m.FinishAt? ==> m.at == IndexOf(ch, At(c.threads[v].pc)) && !HasTaken(c.threads[v].pc)
                                             && At(c.threads[v].pc) == LIST)
  {
  }

  lemma GetPoint(c: Config, ch: seq<Addr>, v: nat, a: Addr)
    requires v < |c.threads| && Step(c, v, a).Ok? && c.threads[v].op.GetFirst? && Fits(c.threads[v])
    ensures var m := MoveOf(c, ch, v);
            && (m.Stay? || m.Enter? || m.StopAt? || m.FinishAt?)
            && (m.StopAt? || m.FinishAt? ==> m.at == IndexOf(ch, At(c.threads[v].pc)) && At(c.threads[v].pc) == LIST)
  {
  }

  /** The token where a thread stands is its own. */
  lemma OwnToken(c: Config, ch: seq<Addr>, v: nat)
    requires Inv(c, ch) && v < |c.threads| && At(c.threads[v].pc) != NULL
    ensures var i := IndexOf(ch, At(c.threads[v].pc));
            i < |ch| && (View(c, ch)[i].tok.Some? ==> View(c, ch)[i].tok.value == TokenOf(v, c.threads[v]))
  {
    assert ThreadOk(c, ch, v, c.threads[v]);
  }

  lemma QuietChain(p: Pipeline.Pipe, m: Pipeline.Move)
    requires Pipeline.Enabled(p, m) && (m.Stay? || m.Enter? || m.PassOn?)
    ensures Pipeline.After(p, m).done == p.done && |Pipeline.After(p, m).stations| == |p.stations|
    ensures InChain(Pipeline.After(p, m).stations) == InChain(p.stations)
  {
  }

  lemma AppendChain(p: Pipeline.Pipe, i: nat)
    requires Pipeline.Enabled(p, Pipeline.FinishAt(i)) && p.stations[i].tok.value.op.Append?
    ensures var q, k := Pipeline.After(p, Pipeline.FinishAt(i)), p.stations[i].tok.value;
            q.stations != [] && InChain(q.stations) == InChain(p.stations) + [k.op.data] && q.done == p.done[k.tid := Void]
  {
    var q := Pipeline.After(p, Pipeline.FinishAt(i));
    assert |q.stations| == |p.stations| + 1;
    forall j | 0 <= j < |p.stations| ensures q.stations[j].elem == p.stations[j].elem {}
  }

  /** The move of a call that only deals with the first element. */
  lemma FirstChain(p: Pipeline.Pipe, m: Pipeline.Move)
    requires Pipeline.Enabled(p, m) && (m == Pipeline.StopAt(0) || m == Pipeline.FinishAt(0))
    requires p.stations[0].tok.value.op.GetFirst? || p.stations[0].tok.value.op.RemoveFirst?
    ensures var q, k, h := Pipeline.After(p, m), p.stations[0].tok.value, InChain(p.stations);
            && q.stations != [] && (m.FinishAt? <==> h == [])
            && InChain(q.stations) == (if k.op.RemoveFirst? && h != [] then h[1..] else h)
            && q.done == p.done[k.tid := if k.op.RemoveFirst? then Void else Payload(if h == [] then None else Some(h[0]))]
  {
    var s, q := p.stations, Pipeline.After(p, m);
    if m.FinishAt? {
      assert s[..0] == [] && |q.stations| == 1;
    } else if s[0].tok.value.op.RemoveFirst? {
      assert q.stations == [s[0].(tok := None)] + s[2..];
    }
  }

  /** A step's effect on the handles in the chain and on the results. */
  ghost predicate Effect(c: Config, v: nat, d: Config, m: seq<string>, m': seq<string>,
                         done: map<nat, Result>, done': map<nat, Result>)
  {
    && v < |c.threads| && v < |d.threads|
    && var op, p, q := c.threads[v].op, c.threads[v].pc, d.threads[v].pc;
       match op
       case Append(_, data) =>
         && (HasLinked(p) ==> HasLinked(q)) && m' == (if HasLinked(q) && !HasLinked(p) then m + [data] else m)
         && (done' == done || done' == done[v := Void])
       case GetFirst =>
         && m' == m
         && (done' == done || done' == done[v := Payload(if m == [] then None else Some(m[0]))])
       case RemoveFirst =>
         && (HasTaken(p) ==> HasTaken(q))
         && m' == (if HasTaken(q) && !HasTaken(p) && m != [] then m[1..] else m)
         && (done' == done || done' == done[v := Void])
       case _ => false
  }

  lemma StepEffect(c: Config, ch: seq<Addr>, v: nat, a: Addr)
    requires Inv(c, ch) && v < |c.threads| && Step(c, v, a).Ok? && Simulates(c, ch, v, Step(c, v, a))
    requires c.threads[v].op.Append? || c.threads[v].op.GetFirst? || c.threads[v].op.RemoveFirst?
    ensures var d, ch' := Step(c, v, a).c, NextChain(c, ch, v);
            Effect(c, v, d, InChain(Abs(c, ch).stations), InChain(Abs(d, ch').stations), Abs(c, ch).done, Abs(d, ch').done)
  {
    var p, m := Abs(c, ch), MoveOf(c, ch, v);
    assert ThreadOk(c, ch, v, c.threads[v]);
    if At(c.threads[v].pc) != NULL { OwnToken(c, ch, v); }
    if c.threads[v].op.Append? {
      AppendPoint(c, ch, v, a);
      if m.FinishAt? { AppendChain(p, m.at); } else { QuietChain(p, m); }
    } else {
      if c.threads[v].op.GetFirst? { GetPoint(c, ch, v, a); } else { RemovePoint(c, ch, v, a); }
      if m.StopAt? || m.FinishAt? {
        IndexAt(ch, 0);
        FirstChain(p, m);
      } else {
        QuietChain(p, m);
      }
    }
  }

  // ----- a step keeps the balance

  lemma StepRoles(c: Config, v: nat, d: Config, s: Duo)
    requires Roles(c, s) && OneThread(c, v, d) && !c.threads[v].pc.Done?
    ensures Roles(d, s)
    ensures c.threads[v].op.Append? ==> s.append == Some(v)
    ensures c.threads[v].op.GetFirst? ==> s.cleaner == Looking(v)
    ensures c.threads[v].op.RemoveFirst? ==> s.cleaner == Removing(v)
  {
    forall u | 0 <= u < |d.threads| ensures d.threads[u].op == c.threads[u].op && (u != v ==> d.threads[u] == c.threads[u]) {}
  }

  lemma StepBalance(c: Config, v: nat, d: Config, s: Duo, m: seq<string>, m': seq<string>,
                    done: map<nat, Result>, done': map<nat, Result>)
    requires Roles(c, s) && OneThread(c, v, d) && !c.threads[v].pc.Done? && Effect(c, v, d, m, m', done, done')
    requires Balanced(c, s, m) && FoundHead(s, m, done)
    ensures Balanced(d, s, m') && FoundHead(s, m', done')
  {
    StepRoles(c, v, d, s);
    match c.threads[v].op
    case Append(_, _) => AppendBalance(c, v, d, s, m, m', done, done');
    case GetFirst =>
    case RemoveFirst =>
    case _ =>
  }

  lemma AppendBalance(c: Config, v: nat, d: Config, s: Duo, m: seq<string>, m': seq<string>,
                      done: map<nat, Result>, done': map<nat, Result>)
    requires Roles(c, s) && OneThread(c, v, d) && !c.threads[v].pc.Done? && Effect(c, v, d, m, m', done, done')
    requires c.threads[v].op.Append? && s.append == Some(v)
    requires Balanced(c, s, m) && FoundHead(s, m, done)
    ensures Balanced(d, s, m') && FoundHead(s, m', done')
  {
    assert HeadPending(d, s) == HeadPending(c, s);
    if HasLinked(d.threads[v].pc) && !HasLinked(c.threads[v].pc) {
      assert Unlinked(d, s) == [] && Unlinked(c, s) == [c.threads[v].op.data];
      if HeadPending(c, s) { assert m'[1..] == m[1..] + [c.threads[v].op.data]; }
    }
  }

  /** Taking the first element out: it holds the handle last joined. */
  lemma TakingOut(c: Config, ch: seq<Addr>, v: nat, a: Addr, s: Duo)
    requires Inv(c, ch) && v < |c.threads| && Step(c, v, a).Ok? && s.cleaner == Removing(v) && c.threads[v].op.RemoveFirst?
    requires c.threads[v].pc.LockContent? && Balanced(c, s, InChain(View(c, ch)))
    ensures TakesTheJoined(Step(c, v, a).c, s)
  {
    assert InChain(View(c, ch))[0] == s.joined[|s.joined| - 1];
    TakenCell(c, v, a);
    FirstHandle(c, ch, v);
  }

  lemma TakenCell(c: Config, v: nat, a: Addr)
    requires v < |c.threads| && Step(c, v, a).Ok? && c.threads[v].pc.LockContent?
    ensures var d, el := Step(c, v, a).c, El(c.threads[v].pc);
            && |d.threads| == |c.threads| && el in c.cells && el in d.cells && d.cells[el].payload == c.cells[el].payload
            && c.cells[el].content.Open? && (d.threads[v].pc.Drop? ==> El(d.threads[v].pc) == el)
  {
  }

  lemma FirstHandle(c: Config, ch: seq<Addr>, v: nat)
    requires Inv(c, ch) && v < |c.threads| && c.threads[v].op.RemoveFirst? && c.threads[v].pc.LockContent?
    requires El(c.threads[v].pc) in c.cells && c.cells[El(c.threads[v].pc)].content.Open?
    ensures var el := El(c.threads[v].pc);
            c.cells[el].payload.Block? && |ch| > 1 && InChain(View(c, ch))[0] == c.cells[el].payload.data
  {
    var el := El(c.threads[v].pc);
    assert ThreadOk(c, ch, v, c.threads[v]);
    FirstAfterHeader(ch, el);
    assert NodeOk(c.cells[el]);
    assert AbsData(c, el) == c.cells[el].payload.data;
    assert View(c, ch)[1] == StationOf(c, el);
  }

  lemma FirstAfterHeader(ch: seq<Addr>, el: Addr)
    requires ch != [] && ch[0] == LIST && Distinct(ch) && el == Succ(ch, LIST) && el != NULL
    ensures |ch| > 1 && el == ch[1] && el in ch && el != LIST
  {
    IndexAt(ch, 0);
  }

  lemma DropsOn(c: Config, v: nat, a: Addr, s: Duo)
    requires v < |c.threads| && Step(c, v, a).Ok? && s.cleaner == Removing(v) && TakesTheJoined(c, s)
    requires c.threads[v].pc.Drop?
    ensures TakesTheJoined(Step(c, v, a).c, s)
  {
  }

  lemma OthersKeep(c: Config, ch: seq<Addr>, d: Config, ch': seq<Addr>, v: nat, s: Duo)
    requires Respects(c, ch, d, ch', v) && NULL !in c.cells && TakesTheJoined(c, s) && s.cleaner != Removing(v)
    ensures TakesTheJoined(d, s)
  {
    if s.cleaner.Removing? && s.cleaner.t < |c.threads| && c.threads[s.cleaner.t].pc.Drop? {
      assert Private(c.threads[s.cleaner.t]) == El(c.threads[s.cleaner.t].pc);
      assert Kept(c, d, ch', Private(c.threads[s.cleaner.t]));
    }
  }

  lemma DropFrom(c: Config, v: nat, a: Addr)
    requires v < |c.threads| && Step(c, v, a).Ok? && !c.threads[v].pc.LockContent? && !c.threads[v].pc.Drop?
    ensures v < |Step(c, v, a).c.threads| && !Step(c, v, a).c.threads[v].pc.Drop?
  {
    if UsesElement(c.threads[v].pc) { DropFromUse(c, v, a); }
  }

  lemma DropFromUse(c: Config, v: nat, a: Addr)
    requires v < |c.threads| && Step(c, v, a).Ok? && UsesElement(c.threads[v].pc)
    ensures v < |Step(c, v, a).c.threads| && !Step(c, v, a).c.threads[v].pc.Drop?
  {
  }

  lemma StepTakes(c: Config, ch: seq<Addr>, v: nat, a: Addr, s: Duo)
    requires Inv(c, ch) && v < |c.threads| && Step(c, v, a).Ok? && Simulates(c, ch, v, Step(c, v, a))
    requires Roles(c, s) && TakesTheJoined(c, s) && Balanced(c, s, InChain(View(c, ch)))
    ensures TakesTheJoined(Step(c, v, a).c, s)
  {
    if s.cleaner != Removing(v) { OthersKeep(c, ch, Step(c, v, a).c, NextChain(c, ch, v), v, s); }
    else if c.threads[v].pc.LockContent? { TakingOut(c, ch, v, a, s); }
    else if c.threads[v].pc.Drop? { DropsOn(c, v, a, s); }
    else { DropFrom(c, v, a); }
  }

  lemma EffectHolds(c: Config, v: nat, d: Config, s: Duo, m: seq<string>, m': seq<string>,
                    done: map<nat, Result>, done': map<nat, Result>)
    requires Holds(c, s, m, done) && OneThread(c, v, d) && !c.threads[v].pc.Done? && Effect(c, v, d, m, m', done, done')
    requires TakesTheJoined(d, s)
    ensures Holds(d, s, m', done')
  {
    StepRoles(c, v, d, s);
    StepBalance(c, v, d, s, m, m', done, done');
  }

  lemma NotDone(c: Config, v: nat, a: Addr)
    requires v < |c.threads| && Step(c, v, a).Ok?
    ensures !c.threads[v].pc.Done?
  {
  }

  lemma StepHolds(c: Config, ch: seq<Addr>, v: nat, a: Addr, s: Duo)
    requires Inv(c, ch) && v < |c.threads| && Step(c, v, a).Ok? && Simulates(c, ch, v, Step(c, v, a))
    requires OneThread(c, v, Step(c, v, a).c) && Holds(c, s, InChain(Abs(c, ch).stations), Abs(c, ch).done)
    ensures var d, ch' := Step(c, v, a).c, NextChain(c, ch, v);
            Holds(d, s, InChain(Abs(d, ch').stations), Abs(d, ch').done)
  {
    var d, ch' := Step(c, v, a).c, NextChain(c, ch, v);
    var m, m' := InChain(Abs(c, ch).stations), InChain(Abs(d, ch').stations);
    NotDone(c, v, a);
    StepTakes(c, ch, v, a, s);
    assert Effect(c, v, d, m, m', Abs(c, ch).done, Abs(d, ch').done) by { StepEffect(c, ch, v, a); }
    EffectHolds(c, v, d, s, m, m', Abs(c, ch).done, Abs(d, ch').done);
  }

  lemma StepInMemory(c: Config, ch: seq<Addr>, v: nat, a: Addr, s: Duo)
    requires InMemory(c, ch, s) && v < |c.threads| && Step(c, v, a).Ok?
    ensures InMemory(Step(c, v, a).c, NextChain(c, ch, v), s)
  {
    StepSound(c, ch, v, a);
    StepSimulates(c, ch, v, a);
    StepProgram(c, v, a);
    StepHolds(c, ch, v, a, s);
  }

  // ----- the events of the two threads

  /** A call has been added and nothing else changed. */
  ghost predicate OneCall(c: Config, d: Config, op: Op, done: map<nat, Result>) {
    && d.cells == c.cells && |d.threads| == |c.threads| + 1
    && d.threads[|c.threads|].op == op && !HasEntered(d.threads[|c.threads|])
    && (forall u :: 0 <= u < |c.threads| ==> d.threads[u] == c.threads[u])
    && |c.threads| !in done
  }

  /** A new call changes neither the chain nor the results. */
  lemma CallInMemory(s: Duo, ch: seq<Addr>, op: Op, e: Duo)
    requires Sound(List(s), ch) && e.schedule == s.schedule + [Call(op)]
    ensures var c, d := List(s), List(e);
            Sound(d, ch) && Abs(d, ch) == Abs(c, ch) && OneCall(c, d, op, Abs(c, ch).done)
  {
    NoRunFaults(s.schedule);
    Appended(s.schedule, Call(op));
    CallSound(List(s), ch, op);
    CallAbs(List(s), Fire(List(s), Call(op)).c, ch);
  }

  lemma Appended(schedule: seq<Event>, e: Event)
    requires Execute(INITIAL, schedule).Ok?
    ensures Execute(INITIAL, schedule + [e]) == Fire(Reached(schedule), e)
  {
    assert (schedule + [e])[..|schedule|] == schedule;
  }

  lemma AcceptHolds(c: Config, d: Config, s: Duo, e: Duo, handle: string, m: seq<string>, done: map<nat, Result>)
    requires Holds(c, s, m, done) && OneCall(c, d, Append("NoName", handle), done)
    requires s.append.Some? ==> s.append.value < |c.threads| && c.threads[s.append.value].pc.Done?
    requires e == s.(schedule := e.schedule, created := s.created + [handle], append := Some(|c.threads|))
    ensures Holds(d, e, m, done)
  {
    assert HeadPending(d, e) == HeadPending(c, s);
    assert Unlinked(c, s) == [] && Unlinked(d, e) == [handle];
  }

  lemma LookHolds(c: Config, d: Config, s: Duo, e: Duo, m: seq<string>, done: map<nat, Result>)
    requires Holds(c, s, m, done) && OneCall(c, d, GetFirst, done)
    requires s.cleaner.Idle? && e == s.(schedule := e.schedule, cleaner := Looking(|c.threads|))
    ensures Holds(d, e, m, done)
  {
    assert Unlinked(d, e) == Unlinked(c, s);
  }

  lemma JoinHolds(c: Config, d: Config, s: Duo, e: Duo, h: string, m: seq<string>, done: map<nat, Result>)
    requires Holds(c, s, m, done) && OneCall(c, d, RemoveFirst, done)
    requires s.cleaner.Looking? && s.cleaner.t in done && done[s.cleaner.t] == Payload(Some(h))
    requires s.cleaner.t < |c.threads| && c.threads[s.cleaner.t].pc.Done?
    requires e == s.(schedule := e.schedule, joined := s.joined + [h], cleaner := Removing(|c.threads|))
    ensures Holds(d, e, m, done)
  {
    assert Unlinked(d, e) == Unlinked(c, s);
    assert s.joined + m == (s.joined + [m[0]]) + m[1..];
  }

  lemma AcceptInMemory(s: Duo, ch: seq<Addr>, handle: string)
    requires InMemory(List(s), ch, s)
    ensures InMemory(List(Happen(s, Accept(handle))), ch, Happen(s, Accept(handle)))
  {
    var e := Happen(s, Accept(handle));
    if e != s {
      CallInMemory(s, ch, Append("NoName", handle), e);
      AcceptHolds(List(s), List(e), s, e, handle, InChain(Abs(List(s), ch).stations), Abs(List(s), ch).done);
    }
  }

  lemma LookInMemory(s: Duo, ch: seq<Addr>)
    requires InMemory(List(s), ch, s)
    ensures InMemory(List(Happen(s, DuoEvent.Look)), ch, Happen(s, DuoEvent.Look))
  {
    var e := Happen(s, DuoEvent.Look);
    if e != s {
      CallInMemory(s, ch, GetFirst, e);
      LookHolds(List(s), List(e), s, e, InChain(Abs(List(s), ch).stations), Abs(List(s), ch).done);
    }
  }

  lemma DoneResult(c: Config, ch: seq<Addr>, t: nat)
    requires Inv(c, ch) && t < |c.threads| && c.threads[t].pc.Done?
    ensures t in Abs(c, ch).done && Abs(c, ch).done[t] == c.threads[t].pc.r
  {
    assert Promise(c, c.threads[t]) == Some(c.threads[t].pc.r);
  }

  lemma JoinInMemory(s: Duo, ch: seq<Addr>)
    requires InMemory(List(s), ch, s)
    ensures InMemory(List(Happen(s, Join)), ch, Happen(s, Join))
  {
    var e := Happen(s, Join);
    if e != s {
      var h := List(s).threads[s.cleaner.t].pc.r.data.value;
      DoneResult(List(s), ch, s.cleaner.t);
      CallInMemory(s, ch, RemoveFirst, e);
      JoinHolds(List(s), List(e), s, e, h, InChain(Abs(List(s), ch).stations), Abs(List(s), ch).done);
    }
  }

  lemma RestHolds(c: Config, s: Duo, m: seq<string>, done: map<nat, Result>)
    requires Holds(c, s, m, done) && !s.cleaner.Idle? && s.cleaner.t < |c.threads| && c.threads[s.cleaner.t].pc.Done?
    ensures Holds(c, s.(cleaner := Idle), m, done)
  {
  }

  lemma RestInMemory(s: Duo, ch: seq<Addr>, e: DuoEvent)
    requires InMemory(List(s), ch, s) && (e.Sleep? || e.Removed?)
    ensures InMemory(List(Happen(s, e)), ch, Happen(s, e))
  {
    if Happen(s, e) != s {
      RestHolds(List(s), s, InChain(Abs(List(s), ch).stations), Abs(List(s), ch).done);
    }
  }

  lemma AdvanceInMemory(s: Duo, ch: seq<Addr>, t: nat, a: Addr, e: Duo) returns (ch': seq<Addr>)
    requires InMemory(List(s), ch, s) && e == s.(schedule := s.schedule + [Run(t, a)])
    ensures InMemory(List(e), ch', e)
  {
    Advanced(s, e, t, a);
    Rescheduled(List(s), ch, s, e);
    ch' := FireInMemory(List(s), ch, t, a, e, List(e));
  }

  lemma Advanced(s: Duo, e: Duo, t: nat, a: Addr)
    requires e == s.(schedule := s.schedule + [Run(t, a)])
    ensures Fire(List(s), Run(t, a)) == Ok(List(e))
  {
    NoRunFaults(s.schedule);
    NoRunFaults(e.schedule);
    Appended(s.schedule, Run(t, a));
  }

  /** The schedule is not part of what is kept. */
  lemma SameDuo(c: Config, s: Duo, e: Duo, m: seq<string>, done: map<nat, Result>)
    requires Holds(c, s, m, done) && e == s.(schedule := e.schedule)
    ensures Holds(c, e, m, done)
  {
  }

  lemma Rescheduled(c: Config, ch: seq<Addr>, s: Duo, e: Duo)
    requires InMemory(c, ch, s) && e == s.(schedule := e.schedule)
    ensures InMemory(c, ch, e)
  {
    SameDuo(c, s, e, InChain(Abs(c, ch).stations), Abs(c, ch).done);
  }

  lemma FireInMemory(c: Config, ch: seq<Addr>, t: nat, a: Addr, s: Duo, d: Config) returns (ch': seq<Addr>)
    requires InMemory(c, ch, s) && Fire(c, Run(t, a)) == Ok(d)
    ensures InMemory(d, ch', s)
  {
    ch' := ch;
    if t < |c.threads| && Step(c, t, a).Ok? {
      assert d == Step(c, t, a).c;
      StepInMemory(c, ch, t, a, s);
      ch' := NextChain(c, ch, t);
    } else {
      assert d == c;
    }
  }

  lemma {:induction false} RunInMemory(events: seq<DuoEvent>) returns (ch: seq<Addr>)
    ensures InMemory(List(After(events)), ch, After(events))
  {
    if events == [] {
      ch := [LIST];
      InitialSound();
    } else {
      var s := After(events[..|events| - 1]);
      ch := RunInMemory(events[..|events| - 1]);
      match events[|events| - 1]
      case Accept(handle) => AcceptInMemory(s, ch, handle);
      case Look => LookInMemory(s, ch);
      case Join => JoinInMemory(s, ch);
      case Sleep => RestInMemory(s, ch, Sleep);
      case Removed => RestInMemory(s, ch, Removed);
      case Advance(t, a) => ch := AdvanceInMemory(s, ch, t, a, After(events));
    }
  }

  // ----- in terms of the nodes

  ghost predicate AllFull(c: Config, ch: seq<Addr>) {
    ch != [] && forall i :: 1 <= i < |ch| ==> ch[i] in c.cells && Full(c.cells[ch[i]])
  }

  function Payloads(c: Config, ch: seq<Addr>): (m: seq<string>)
    requires AllFull(c, ch)
    ensures |m| == |ch| - 1 && forall i :: 0 <= i < |m| ==> m[i] == c.cells[ch[i + 1]].payload.data
  {
    seq(|ch| - 1, i requires 0 <= i < |ch| - 1 => c.cells[ch[i + 1]].payload.data)
  }

  lemma ChainPayloads(c: Config, ch: seq<Addr>, s: Duo)
    requires Inv(c, ch) && Roles(c, s)
    ensures AllFull(c, ch) && InChain(Abs(c, ch).stations) == Payloads(c, ch)
  {
    forall i | 1 <= i < |ch| ensures ch[i] in c.cells && Full(c.cells[ch[i]]) && AbsData(c, ch[i]) == c.cells[ch[i]].payload.data {
      assert ch[i] in ch && ch[i] != ch[0];
      PayloadFull(c, ch, ch[i]);
    }
  }

  /** In every run, on the nodes in memory: the handles joined, the payloads in the chain but for a
      head that is joined already, and an append under way are the handles created, in order. */
  lemma FifoInMemory(events: seq<DuoEvent>) returns (ch: seq<Addr>)
    ensures var s := After(events);
            && Sound(List(s), ch)
            && AllFull(List(s), ch)
            && Balanced(List(s), s, Payloads(List(s), ch))
  {
    ch := RunInMemory(events);
    ChainPayloads(List(After(events)), ch, After(events));
  }

  /** The node that removeFirstListElement takes apart holds the handle joined last: nothing else
      is ever freed by the cleanup thread. */
  lemma FreesTheJoined(events: seq<DuoEvent>)
    ensures TakesTheJoined(List(After(events)), After(events))
  {
    var _ := RunInMemory(events);
  }
}
