/** The files in memory: at every moment of every run of the file server, the nodes in the chain
    have different IDs, although creating a file checks and appends in many steps, and names,
    payloads and sizes within their limits. */
module Names {
  import opened ListSpec
  import opened Pipeline
  import opened Machine
  import opened Invariant
  import opened Abstraction
  import opened Simulation
  import opened Refinement
  import opened Theorems
  import opened History
  import Grammar
  import Messages
  import RoundTrip
  import Server

  ghost predicate NoTwins(s: seq<Station>) {
    forall i, j :: 1 <= i < j < |s| ==> s[i].elem.id != s[j].elem.id
  }

  /** A creation under way has not met its name so far. */
  ghost predicate Unmet(s: seq<Station>) {
    forall p, i :: 0 <= p < |s| && s[p].tok.Some? && s[p].tok.value.op.AppendUnique? && 1 <= i <= p ==>
      s[i].elem.id != s[p].tok.value.op.id
  }

  ghost predicate FileTokens(s: seq<Station>) {
    forall p :: 0 <= p < |s| && s[p].tok.Some? ==> FileOp(s[p].tok.value.op)
  }

  ghost predicate NamesOk(s: seq<Station>) {
    NoTwins(s) && Unmet(s) && FileTokens(s)
  }

  lemma PassKeepsNames(p: Pipe, i: nat)
    requires Enabled(p, PassOn(i)) && NamesOk(p.stations)
    ensures NamesOk(After(p, PassOn(i)).stations)
  {}

  lemma StopKeepsNames(p: Pipe, i: nat)
    requires Enabled(p, StopAt(i)) && NamesOk(p.stations)
    ensures NamesOk(After(p, StopAt(i)).stations)
  {
    var s := p.stations;
    if Meet(s[i].tok.value, s[i + 1].elem).left == [] {
      TakeOutKeepsNames(s, i);
    } else {
      SameIds(s, After(p, StopAt(i)).stations);
    }
  }

  /** Only payloads change, and tokens only go away. */
  lemma SameIds(s: seq<Station>, d: seq<Station>)
    requires NamesOk(s) && |d| == |s|
    requires forall j :: 0 <= j < |s| ==> d[j].elem.id == s[j].elem.id && (d[j].tok == s[j].tok || d[j].tok.None?)
    ensures NamesOk(d)
  {}

  lemma TakeOutKeepsNames(s: seq<Station>, i: nat)
    requires i + 1 < |s| && NamesOk(s)
    ensures NamesOk(s[..i] + [s[i].(tok := None)] + s[i + 2..])
  {
    var d := s[..i] + [s[i].(tok := None)] + s[i + 2..];
    forall k | 0 <= k < |d| && k != i ensures d[k] == s[if k < i then k else k + 1] {}
  }

  lemma FinishKeepsNames(p: Pipe, i: nat)
    requires Enabled(p, FinishAt(i)) && NamesOk(p.stations)
    ensures NamesOk(After(p, FinishAt(i)).stations)
  {}

  lemma MoveKeepsNames(p: Pipe, m: Move)
    requires Enabled(p, m) && NamesOk(p.stations) && (m.Enter? ==> FileOp(m.op))
    ensures NamesOk(After(p, m).stations)
  {
    match m
    case Stay =>
    case Enter(t, op) =>
    case PassOn(i) => PassKeepsNames(p, i);
    case StopAt(i) => StopKeepsNames(p, i);
    case SwallowAt(_) => assert false;
    case FinishAt(i) => FinishKeepsNames(p, i);
  }

  // ----- names and payloads within their limits

  ghost predicate AllStored(s: seq<Station>) {
    && (forall i :: 1 <= i < |s| ==> RoundTrip.Stored(s[i].elem))
    && (forall p :: 0 <= p < |s| && s[p].tok.Some? ==> RoundTrip.Askable(s[p].tok.value.op))
  }

  lemma StopKeepsStored(p: Pipe, i: nat)
    requires Enabled(p, StopAt(i)) && AllStored(p.stations)
    ensures AllStored(After(p, StopAt(i)).stations)
  {
    var s, d := p.stations, After(p, StopAt(i)).stations;
    if Meet(s[i].tok.value, s[i + 1].elem).left == [] {
      forall k | 0 <= k < |d| && k != i ensures d[k] == s[if k < i then k else k + 1] {}
    }
  }

  lemma MoveKeepsStored(p: Pipe, m: Move)
    requires Enabled(p, m) && AllStored(p.stations) && (m.Enter? ==> RoundTrip.Askable(m.op))
    ensures AllStored(After(p, m).stations)
  {
    match m
    case Stay =>
    case Enter(t, op) =>
    case PassOn(i) =>
    case StopAt(i) => StopKeepsStored(p, i);
    case SwallowAt(_) => assert false;
    case FinishAt(i) => assert RoundTrip.Askable(p.stations[i].tok.value.op);
  }

  // ----- runs

  ghost predicate FileRun(schedule: seq<Event>) {
    forall i :: 0 <= i < |schedule| && schedule[i].Call? ==> FileOp(schedule[i].op)
  }

  ghost predicate FileCalls(c: Config) {
    forall u :: 0 <= u < |c.threads| ==> FileOp(c.threads[u].op)
  }

  ghost predicate AskableCalls(c: Config) {
    forall u :: 0 <= u < |c.threads| ==> RoundTrip.Askable(c.threads[u].op)
  }

  /** A sound state of a run of file operations, and its chain's names; and, if requests can ask
      for these operations, its contents. */
  ghost predicate Named(c: Config, ch: seq<Addr>) {
    && Sound(c, ch) && FileCalls(c) && NamesOk(Abs(c, ch).stations)
    && (AskableCalls(c) ==> AllStored(Abs(c, ch).stations))
  }

  lemma SimulatedNames(c: Config, ch: seq<Addr>, t: nat, d: Config)
    requires Inv(c, ch) && t < |c.threads| && Simulates(c, ch, t, Ok(d)) && FileOp(c.threads[t].op)
    requires NamesOk(Abs(c, ch).stations)
    ensures Inv(d, NextChain(c, ch, t)) && NamesOk(Abs(d, NextChain(c, ch, t)).stations)
  {
    MoveKeepsNames(Abs(c, ch), MoveOf(c, ch, t));
  }

  lemma SimulatedStored(c: Config, ch: seq<Addr>, t: nat, d: Config)
    requires Inv(c, ch) && t < |c.threads| && Simulates(c, ch, t, Ok(d)) && RoundTrip.Askable(c.threads[t].op)
    requires AllStored(Abs(c, ch).stations)
    ensures Inv(d, NextChain(c, ch, t)) && AllStored(Abs(d, NextChain(c, ch, t)).stations)
  {
    MoveKeepsStored(Abs(c, ch), MoveOf(c, ch, t));
  }

  lemma StepCalls(c: Config, t: nat, d: Config)
    requires OneThread(c, t, d) && FileCalls(c)
    ensures FileCalls(d) && (AskableCalls(d) ==> AskableCalls(c))
  {
    forall u | 0 <= u < |c.threads| ensures d.threads[u].op == c.threads[u].op {}
  }

  lemma StepNamed(c: Config, ch: seq<Addr>, t: nat, a: Addr)
    requires Named(c, ch) && t < |c.threads| && Step(c, t, a).Ok?
    ensures Named(Step(c, t, a).c, NextChain(c, ch, t))
  {
    var d := Step(c, t, a).c;
    StepSound(c, ch, t, a);
    StepSimulates(c, ch, t, a);
    SimulatedNames(c, ch, t, d);
    StepProgram(c, t, a);
    StepCalls(c, t, d);
    if AskableCalls(d) { SimulatedStored(c, ch, t, d); }
  }

  lemma CallNamed(c: Config, ch: seq<Addr>, op: Op)
    requires Named(c, ch) && FileOp(op)
    ensures Named(Fire(c, Call(op)).c, ch)
  {
    CallSound(c, ch, op);
    var d := Fire(c, Call(op)).c;
    CallAbs(c, d, ch);
    CallAskable(c, op);
  }

  lemma CallAskable(c: Config, op: Op)
    requires FileCalls(c) && FileOp(op)
    ensures FileCalls(Fire(c, Call(op)).c)
    ensures AskableCalls(Fire(c, Call(op)).c) ==> AskableCalls(c)
  {
    var d := Fire(c, Call(op)).c;
    forall u | 0 <= u < |c.threads| ensures d.threads[u].op == c.threads[u].op {}
  }

  lemma FireNamed(c: Config, ch: seq<Addr>, e: Event) returns (ch': seq<Addr>)
    requires Named(c, ch) && (e.Call? ==> FileOp(e.op))
    ensures Fire(c, e).Ok? && Named(Fire(c, e).c, ch')
  {
    var _ := FireSound(c, ch, e);
    ch' := ch;
    match e
    case Call(op) => CallNamed(c, ch, op);
    case Run(t, a) =>
      if t < |c.threads| && Step(c, t, a).Ok? {
        StepNamed(c, ch, t, a);
        ch' := NextChain(c, ch, t);
      }
  }

  lemma {:induction false} RunNamed(schedule: seq<Event>) returns (ch: seq<Addr>)
    requires FileRun(schedule)
    ensures Execute(INITIAL, schedule).Ok? && Named(Reached(schedule), ch)
  {
    if schedule == [] {
      ch := [LIST];
      InitialSound();
    } else {
      var init, e := schedule[..|schedule| - 1], schedule[|schedule| - 1];
      forall i | 0 <= i < |init| && init[i].Call? ensures FileOp(init[i].op) { assert init[i] == schedule[i]; }
      ch := RunNamed(init);
      ch := FireNamed(Reached(init), ch, e);
      ExecuteSnoc(INITIAL, schedule);
    }
  }

  /** At every moment no two nodes of the chain have the same ID. */
  lemma NamesUniqueInMemory(schedule: seq<Event>) returns (ch: seq<Addr>)
    requires FileRun(schedule)
    ensures Execute(INITIAL, schedule).Ok? && Sound(Reached(schedule), ch)
    ensures var c := Reached(schedule);
            forall i, j :: 1 <= i < j < |ch| ==> ch[i] in c.cells && ch[j] in c.cells && c.cells[ch[i]].id != c.cells[ch[j]].id
  {
    ch := RunNamed(schedule);
    DistinctNames(Reached(schedule), ch);
  }

  lemma DistinctNames(c: Config, ch: seq<Addr>)
    requires Inv(c, ch) && NoTwins(Abs(c, ch).stations)
    ensures forall i, j :: 1 <= i < j < |ch| ==> ch[i] in c.cells && ch[j] in c.cells && c.cells[ch[i]].id != c.cells[ch[j]].id
  {
    var s := Abs(c, ch).stations;
    forall i, j | 1 <= i < j < |ch| ensures ch[i] in c.cells && ch[j] in c.cells && c.cells[ch[i]].id != c.cells[ch[j]].id {
      assert ch[i] in ch && ch[j] in ch;
      assert s[i].elem.id == c.cells[ch[i]].id && s[j].elem.id == c.cells[ch[j]].id;
    }
  }

  /** The server's runs are such runs. */
  lemma {:induction false} ServerRunsFiles(events: seq<Server.ServerEvent>)
    ensures FileRun(Server.Admit(events).schedule)
  {
    if events != [] {
      ServerRunsFiles(events[..|events| - 1]);
      match events[|events| - 1]
      case Advance(_, _) =>
      case Arrive(r) =>
        if Server.Reaction(r).Ask? { Server.AsksFiles(r); }
    }
  }

  // ----- payloads in memory

  /** A node as the limits have it: name and content of 1 to 1024 characters of their classes, and
      the size field the length of the string plus one for its terminator. */
  ghost predicate WellStored(x: Cell) {
    && Full(x) && RoundTrip.Stored(Elem(x.id, x.payload.data))
    && x.size == |Messages.CString(x.payload.data)| + 1
  }

  lemma {:induction false} ServerAsks(events: seq<Server.ServerEvent>)
    requires Execute(INITIAL, Server.Admit(events).schedule).Ok?
    ensures AskableCalls(Reached(Server.Admit(events).schedule))
  {
    Server.CallersMatch(events);
    var s := Server.Admit(events);
    Server.ThreadsAreCalls(s.schedule);
    var th := Reached(s.schedule).threads;
    forall t | 0 <= t < |th| ensures RoundTrip.Askable(th[t].op) {
      var r := s.requests[s.callers[t]];
      assert Server.Reaction(r) == Messages.Ask(th[t].op);
      RoundTrip.ReactionsAskable(r.msg, r.memory);
    }
  }

  /** In every state of every run of the server, every node of the chain that no UPDATE is writing
      is well-stored, names are within their limits at all times, and no two are the same. */
  lemma StoreInMemory(events: seq<Server.ServerEvent>) returns (ch: seq<Addr>)
    requires Execute(INITIAL, Server.Admit(events).schedule).Ok?
    ensures Sound(Reached(Server.Admit(events).schedule), ch)
    ensures var c := Reached(Server.Admit(events).schedule);
            && (forall i :: 1 <= i < |ch| ==>
                  && ch[i] in c.cells && Grammar.InField(Grammar.Filename, c.cells[ch[i]].id) && |c.cells[ch[i]].id| <= Grammar.MAX_BUFLEN
                  && (Updating(c, ch[i]) || WellStored(c.cells[ch[i]])))
            && (forall i, j :: 1 <= i < j < |ch| ==> ch[i] in c.cells && ch[j] in c.cells && c.cells[ch[i]].id != c.cells[ch[j]].id)
  {
    ServerRunsFiles(events);
    ServerAsks(events);
    var schedule := Server.Admit(events).schedule;
    ch := RunNamed(schedule);
    var c := Reached(schedule);
    DistinctNames(c, ch);
    forall i | 1 <= i < |ch|
      ensures ch[i] in c.cells && Grammar.InField(Grammar.Filename, c.cells[ch[i]].id) && |c.cells[ch[i]].id| <= Grammar.MAX_BUFLEN
      ensures Updating(c, ch[i]) || WellStored(c.cells[ch[i]])
    {
      NodeStored(c, ch, i);
    }
  }

  lemma NodeStored(c: Config, ch: seq<Addr>, i: nat)
    requires Inv(c, ch) && AllStored(Abs(c, ch).stations) && 1 <= i < |ch|
    ensures ch[i] in c.cells && Grammar.InField(Grammar.Filename, c.cells[ch[i]].id) && |c.cells[ch[i]].id| <= Grammar.MAX_BUFLEN
    ensures Updating(c, ch[i]) || WellStored(c.cells[ch[i]])
  {
    assert ch[i] in ch && ch[i] != ch[0];
    PayloadFull(c, ch, ch[i]);
    var e := Abs(c, ch).stations[i].elem;
    assert RoundTrip.Stored(e);
    RoundTrip.StoredString(e);
  }
}
