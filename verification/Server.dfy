/** The file server: every request that arrives is handled by its own thread, which parses it,
    performs at most one operation on the shared list, and answers. */
module Server {
  import opened ListSpec
  import opened Machine
  import opened Refinement
  import opened Theorems
  import opened History
  import Messages
  import RoundTrip

  datatype Request = Request(msg: string, memory: string)

  /** What happens to the server: a request arrives, or the scheduler lets thread `t` step. */
  datatype ServerEvent = Arrive(r: Request) | Advance(t: nat, a: Addr)

  /** The requests so far; which of them each list call belongs to; and the run of the list. */
  datatype Intake = Intake(requests: seq<Request>, callers: seq<nat>, schedule: seq<Event>)

  function Reaction(r: Request): Messages.Reaction {
    Messages.React(r.msg, r.memory)
  }

  function AdmitOne(before: Intake, e: ServerEvent): Intake {
    match e
    case Advance(t, a) => before.(schedule := before.schedule + [Run(t, a)])
    case Arrive(r) =>
      var requests := before.requests + [r];
      match Reaction(r)
      case Reply(_) => before.(requests := requests)
      case Ask(op) => Intake(requests, before.callers + [|before.requests|], before.schedule + [Call(op)])
  }

  function Admit(events: seq<ServerEvent>): Intake {
    if events == [] then Intake([], [], [])
    else AdmitOne(Admit(events[..|events| - 1]), events[|events| - 1])
  }

  /** The operations started by a run of the list, in the order of their threads. */
  function Calls(schedule: seq<Event>): seq<Op> {
    if schedule == [] then [] else
      var before := Calls(schedule[..|schedule| - 1]);
      match schedule[|schedule| - 1]
      case Call(op) => before + [op]
      case Run(_, _) => before
  }

  /** The threads of a run are its calls. */
  lemma {:induction false} ThreadsAreCalls(schedule: seq<Event>)
    ensures Execute(INITIAL, schedule).Ok?
    ensures var th := Reached(schedule).threads;
            |th| == |Calls(schedule)| && forall t :: 0 <= t < |th| ==> th[t].op == Calls(schedule)[t]
  {
    NoRunFaults(schedule);
    if schedule != [] {
      var init := schedule[..|schedule| - 1];
      ThreadsAreCalls(init);
      var c := Reached(init);
      match schedule[|schedule| - 1]
      case Call(op) =>
      case Run(t, a) => if t < |c.threads| && Step(c, t, a).Ok? { StepProgram(c, t, a); }
    }
  }

  function Reactions(requests: seq<Request>): (rs: seq<Messages.Reaction>)
    ensures |rs| == |requests| && forall j :: 0 <= j < |rs| ==> rs[j] == Reaction(requests[j])
  {
    seq(|requests|, j requires 0 <= j < |requests| => Reaction(requests[j]))
  }

  /** Each list call is some request's, in the order of arrival, and asks for its operation; the
      requests without one answer at once. */
  ghost predicate Matched(rs: seq<Messages.Reaction>, callers: seq<nat>, calls: seq<Op>) {
    && |callers| == |calls|
    && (forall t :: 0 <= t < |callers| ==> callers[t] < |rs| && rs[callers[t]] == Messages.Ask(calls[t]))
    && (forall t, u :: 0 <= t < u < |callers| ==> callers[t] < callers[u])
    && (forall j :: 0 <= j < |rs| ==> rs[j].Reply? || j in callers)
  }

  lemma MatchedAsk(rs: seq<Messages.Reaction>, callers: seq<nat>, calls: seq<Op>, op: Op)
    requires Matched(rs, callers, calls)
    ensures Matched(rs + [Messages.Ask(op)], callers + [|rs|], calls + [op])
  {
    var more := callers + [|rs|];
    assert more[|callers|] == |rs|;
    forall j | 0 <= j < |rs| && j in callers ensures j in more {
      var t :| 0 <= t < |callers| && callers[t] == j;
      assert more[t] == j;
    }
  }

  lemma ReactionsSnoc(requests: seq<Request>, r: Request)
    ensures Reactions(requests + [r]) == Reactions(requests) + [Reaction(r)]
  {}

  lemma CallsSnoc(schedule: seq<Event>, e: Event)
    ensures Calls(schedule + [e]) == Calls(schedule) + match e case Call(op) => [op] case Run(_, _) => []
  {
    assert (schedule + [e])[..|schedule|] == schedule;
  }

  /** One arrival or one step. */
  lemma EventMatches(before: Intake, e: ServerEvent, s: Intake)
    requires Matched(Reactions(before.requests), before.callers, Calls(before.schedule))
    requires s == AdmitOne(before, e)
    ensures Matched(Reactions(s.requests), s.callers, Calls(s.schedule))
  {
    match e
    case Advance(t, a) => CallsSnoc(before.schedule, Run(t, a));
    case Arrive(r) =>
      ReactionsSnoc(before.requests, r);
      if Reaction(r).Ask? {
        CallsSnoc(before.schedule, Call(Reaction(r).op));
        MatchedAsk(Reactions(before.requests), before.callers, Calls(before.schedule), Reaction(r).op);
      }
  }

  lemma {:induction false} CallersMatch(events: seq<ServerEvent>)
    ensures var s := Admit(events); Matched(Reactions(s.requests), s.callers, Calls(s.schedule))
  {
    if events != [] {
      CallersMatch(events[..|events| - 1]);
      EventMatches(Admit(events[..|events| - 1]), events[|events| - 1], Admit(events));
    }
  }

  // ----- the requests handled one at a time

  datatype Day = Day(store: seq<Elem>, answers: map<nat, string>)

  /** The requests served one at a time, in this order, on an empty store. */
  function ServeAll(requests: seq<Request>, order: seq<nat>): Day
    requires forall i :: 0 <= i < |order| ==> order[i] < |requests|
  {
    if order == [] then Day([], map[]) else
      var before := ServeAll(requests, order[..|order| - 1]);
      var j := order[|order| - 1];
      var (store, answer) := Messages.Serve(requests[j].msg, requests[j].memory, before.store);
      Day(store, before.answers[j := answer])
  }

  /** The same, once the requests are parsed. */
  function SettleAll(rs: seq<Messages.Reaction>, order: seq<nat>): Day
    requires forall i :: 0 <= i < |order| ==> order[i] < |rs|
  {
    if order == [] then Day([], map[]) else
      var before := SettleAll(rs, order[..|order| - 1]);
      var j := order[|order| - 1];
      var (store, answer) := Messages.Settle(rs[j], before.store);
      Day(store, before.answers[j := answer])
  }

  lemma {:induction false} ServeSettles(requests: seq<Request>, order: seq<nat>)
    requires forall i :: 0 <= i < |order| ==> order[i] < |requests|
    ensures ServeAll(requests, order) == SettleAll(Reactions(requests), order)
  {
    if order != [] { ServeSettles(requests, order[..|order| - 1]); }
  }

  lemma SettleSnoc(rs: seq<Messages.Reaction>, order: seq<nat>, j: nat)
    requires (forall i :: 0 <= i < |order| ==> order[i] < |rs|) && j < |rs|
    ensures var before := SettleAll(rs, order);
            var (store, answer) := Messages.Settle(rs[j], before.store);
            SettleAll(rs, order + [j]) == Day(store, before.answers[j := answer])
  {
    assert (order + [j])[..|order|] == order;
  }

  /** The order in which the list calls of a history belong to requests. */
  function OrderOf(log: seq<Entry>, callers: seq<nat>): (order: seq<nat>)
    requires forall i :: 0 <= i < |log| ==> log[i].tid < |callers|
    ensures |order| == |log| && forall i :: 0 <= i < |log| ==> order[i] == callers[log[i].tid]
  {
    seq(|log|, i requires 0 <= i < |log| => callers[log[i].tid])
  }

  /** The history's calls come from these requests. */
  ghost predicate Backed(log: seq<Entry>, callers: seq<nat>, rs: seq<Messages.Reaction>) {
    && (forall i :: 0 <= i < |log| ==>
          log[i].tid < |callers| && callers[log[i].tid] < |rs| && rs[callers[log[i].tid]] == Messages.Ask(log[i].op))
    && (forall i, j :: 0 <= i < j < |log| ==> log[i].tid != log[j].tid)
    && (forall t, u :: 0 <= t < u < |callers| ==> callers[t] < callers[u])
  }

  /** Each call's request has the answer that the call's result prints. */
  ghost predicate Answered(answers: map<nat, string>, log: seq<Entry>, h: seq<Happening>, callers: seq<nat>) {
    |h| == |log| && forall i :: 0 <= i < |log| ==>
      log[i].tid < |callers| && callers[log[i].tid] in answers
      && answers[callers[log[i].tid]] == Messages.Respond(log[i].op, h[i].r)
  }

  lemma BackedSnoc(log: seq<Entry>, callers: seq<nat>, rs: seq<Messages.Reaction>)
    requires log != [] && Backed(log, callers, rs)
    ensures var n := |log| - 1;
            && Backed(log[..n], callers, rs)
            && OrderOf(log, callers) == OrderOf(log[..n], callers) + [callers[log[n].tid]]
            && forall i :: 0 <= i < n ==> callers[log[..n][i].tid] != callers[log[n].tid]
  {}

  lemma AnsweredSnoc(answers: map<nat, string>, log: seq<Entry>, h: seq<Happening>, callers: seq<nat>, e: Entry, x: Happening)
    requires Answered(answers, log, h, callers) && e.tid < |callers|
    requires forall i :: 0 <= i < |log| ==> callers[log[i].tid] != callers[e.tid]
    ensures Answered(answers[callers[e.tid] := Messages.Respond(e.op, x.r)], log + [e], h + [x], callers)
  {}

  lemma {:induction false} HistorySnoc(log: seq<Entry>)
    requires log != []
    ensures var n := |log| - 1;
            var (l, r) := Apply(log[n].op, Serial(log[..n]).list);
            Serial(log).list == l && Trace(log) == Trace(log[..n]) + [Happening(log[n].op, r)]
  {}

  lemma {:induction false} SettleAsk(rs: seq<Messages.Reaction>, order: seq<nat>, j: nat, op: Op)
    requires (forall i :: 0 <= i < |order| ==> order[i] < |rs|) && j < |rs| && rs[j] == Messages.Ask(op)
    ensures var before := SettleAll(rs, order);
            var (l, r) := Apply(op, before.store);
            SettleAll(rs, order + [j]) == Day(l, before.answers[j := Messages.Respond(op, r)])
  {
    SettleSnoc(rs, order, j);
  }

  /** Serving the requests of a history's calls gives its list, and the responses its results print. */
  lemma {:induction false} HistoryServed(log: seq<Entry>, callers: seq<nat>, rs: seq<Messages.Reaction>)
    requires Backed(log, callers, rs)
    ensures var day := SettleAll(rs, OrderOf(log, callers));
            day.store == Serial(log).list && Answered(day.answers, log, Trace(log), callers)
  {
    if log != [] {
      var n := |log| - 1;
      var init, e := log[..n], log[n];
      BackedSnoc(log, callers, rs);
      HistoryServed(init, callers, rs);
      HistorySnoc(log);
      SettleAsk(rs, OrderOf(init, callers), callers[e.tid], e.op);
      var x := Happening(e.op, Apply(e.op, Serial(init).list).1);
      AnsweredSnoc(SettleAll(rs, OrderOf(init, callers)).answers, init, Trace(init), callers, e, x);
      assert log == init + [e];
    }
  }

  /** The requests below `n` that answer at once. */
  function Immediate(rs: seq<Messages.Reaction>, n: nat): (js: seq<nat>)
    requires n <= |rs|
    ensures forall i :: 0 <= i < |js| ==> js[i] < n && rs[js[i]].Reply?
    ensures forall i, j :: 0 <= i < j < |js| ==> js[i] < js[j]
  {
    if n == 0 then [] else if rs[n - 1].Reply? then Immediate(rs, n - 1) + [n - 1] else Immediate(rs, n - 1)
  }

  lemma {:induction false} ImmediateAll(rs: seq<Messages.Reaction>, n: nat, j: nat)
    requires j < n <= |rs| && rs[j].Reply?
    ensures j in Immediate(rs, n)
  {
    if j < n - 1 { ImmediateAll(rs, n - 1, j); }
  }

  /** The requests `extra` were served too; none of them touched the store or an earlier answer. */
  ghost predicate OnlyReplies(rs: seq<Messages.Reaction>, day: Day, all: Day, extra: seq<nat>)
    requires forall i :: 0 <= i < |extra| ==> extra[i] < |rs| && rs[extra[i]].Reply?
  {
    && all.store == day.store
    && (forall j :: j in day.answers && j < |rs| && rs[j].Ask? ==> j in all.answers && all.answers[j] == day.answers[j])
    && (forall i :: 0 <= i < |extra| ==> extra[i] in all.answers && all.answers[extra[i]] == rs[extra[i]].text)
  }

  lemma OneMoreReply(rs: seq<Messages.Reaction>, day: Day, all: Day, extra: seq<nat>, j: nat)
    requires forall i :: 0 <= i < |extra| ==> extra[i] < |rs| && rs[extra[i]].Reply?
    requires OnlyReplies(rs, day, all, extra) && j < |rs| && rs[j].Reply?
    ensures OnlyReplies(rs, day, Day(all.store, all.answers[j := rs[j].text]), extra + [j])
  {}

  lemma SettleReply(rs: seq<Messages.Reaction>, order: seq<nat>, j: nat)
    requires (forall i :: 0 <= i < |order| ==> order[i] < |rs|) && j < |rs| && rs[j].Reply?
    ensures var before := SettleAll(rs, order);
            SettleAll(rs, order + [j]) == Day(before.store, before.answers[j := rs[j].text])
  {
    SettleSnoc(rs, order, j);
  }

  lemma Snoc(order: seq<nat>, extra: seq<nat>)
    requires extra != []
    ensures order + extra == (order + extra[..|extra| - 1]) + [extra[|extra| - 1]]
    ensures extra == extra[..|extra| - 1] + [extra[|extra| - 1]]
  {}

  /** Requests that answer at once can be served at the end: they leave the store as it is. */
  lemma {:induction false} RepliesServed(rs: seq<Messages.Reaction>, order: seq<nat>, extra: seq<nat>)
    requires forall i :: 0 <= i < |order| ==> order[i] < |rs|
    requires forall i :: 0 <= i < |extra| ==> extra[i] < |rs| && rs[extra[i]].Reply?
    ensures OnlyReplies(rs, SettleAll(rs, order), SettleAll(rs, order + extra), extra)
    decreases |extra|
  {
    if extra == [] {
      assert order + extra == order;
    } else {
      var init, j := extra[..|extra| - 1], extra[|extra| - 1];
      RepliesServed(rs, order, init);
      Snoc(order, extra);
      SettleReply(rs, order + init, j);
      OneMoreReply(rs, SettleAll(rs, order), SettleAll(rs, order + init), init, j);
    }
  }

  // ----- the main result

  /** Request `j` has been answered with `text`: at once, or when its list call returned. */
  ghost predicate Replied(rs: seq<Messages.Reaction>, callers: seq<nat>, c: Config, j: nat, text: string) {
    j < |rs|
    && (rs[j] == Messages.Reply(text)
        || exists t: nat :: t < |callers| && callers[t] == j && Returned(c, t, text))
  }

  ghost predicate Returned(c: Config, t: nat, text: string) {
    t < |c.threads| && c.threads[t].pc.Done? && text == Messages.Respond(c.threads[t].op, c.threads[t].pc.r)
  }

  lemma CallsBacked(events: seq<ServerEvent>)
    ensures var s := Admit(events);
            Execute(INITIAL, s.schedule).Ok? && Backed(Reached(s.schedule).entered, s.callers, Reactions(s.requests))
  {
    CallersMatch(events);
    var s := Admit(events);
    ThreadsAreCalls(s.schedule);
    var _ := RunSound(s.schedule);
  }

  /** A finished call's place in the history, and its result there. */
  lemma ReturnedAt(schedule: seq<Event>, t: nat) returns (i: nat)
    requires Execute(INITIAL, schedule).Ok? && t < |Reached(schedule).threads| && Reached(schedule).threads[t].pc.Done?
    ensures var c := Reached(schedule);
            && i < |c.entered| && c.entered[i] == Entry(t, c.threads[t].op)
            && c.threads[t].pc.r == Trace(c.entered)[i].r
  {
    var _ := RunSound(schedule);
    var c := Reached(schedule);
    assert Listed(c, t);
    i :| 0 <= i < |c.entered| && c.entered[i].tid == t;
    Serialisable(schedule, t);
    ResultsTraced(c.entered, i);
  }

  /** The order of the one-at-a-time run: list calls as they locked the header, then the others. */
  function SerialOrder(events: seq<ServerEvent>): (order: seq<nat>)
    ensures forall i :: 0 <= i < |order| ==> order[i] < |Admit(events).requests|
  {
    CallsBacked(events);
    var s := Admit(events);
    var rs := Reactions(s.requests);
    OrderOf(Reached(s.schedule).entered, s.callers) + Immediate(rs, |rs|)
  }

  /** Whole-server refinement: under every schedule, the responses sent so far are those of
      serving requests one at a time on a map from names to contents, in one order. */
  lemma ResponsesSerialise(events: seq<ServerEvent>, j: nat, text: string)
    requires Execute(INITIAL, Admit(events).schedule).Ok?
    requires var s := Admit(events); Replied(Reactions(s.requests), s.callers, Reached(s.schedule), j, text)
    ensures j in SerialOrder(events)
    ensures var day := ServeAll(Admit(events).requests, SerialOrder(events)); j in day.answers && day.answers[j] == text
  {
    CallsBacked(events);
    var s := Admit(events);
    var rs, c := Reactions(s.requests), Reached(s.schedule);
    var order := OrderOf(c.entered, s.callers);
    ServeSettles(s.requests, SerialOrder(events));
    HistoryServed(c.entered, s.callers, rs);
    RepliesServed(rs, order, Immediate(rs, |rs|));
    if rs[j] == Messages.Reply(text) {
      ImmediateAll(rs, |rs|, j);
    } else {
      var t: nat :| t < |s.callers| && s.callers[t] == j && Returned(c, t, text);
      var i := ReturnedAt(s.schedule, t);
      assert order[i] == j;
    }
  }

  /** No request is handled twice. */
  lemma OrderDistinct(events: seq<ServerEvent>)
    ensures var order := SerialOrder(events); forall a, b :: 0 <= a < b < |order| ==> order[a] != order[b]
  {
    CallsBacked(events);
    var s := Admit(events);
    var rs, log := Reactions(s.requests), Reached(s.schedule).entered;
    var first, last := OrderOf(log, s.callers), Immediate(rs, |rs|);
    forall a, b | 0 <= a < b < |first + last| ensures (first + last)[a] != (first + last)[b] {
      if b < |first| {
        assert log[a].tid != log[b].tid;
      } else if a < |first| {
        assert rs[first[a]].Ask? && rs[last[b - |first|]].Reply?;
      }
    }
  }

  /** When all requests have been answered, the one-at-a-time run handles each of them, and leaves
      exactly the list that is in memory. */
  lemma FinalStore(events: seq<ServerEvent>)
    requires Execute(INITIAL, Admit(events).schedule).Ok? && Quiescent(Reached(Admit(events).schedule))
    ensures var s, order := Admit(events), SerialOrder(events);
            var c := Reached(s.schedule);
            && (forall j :: 0 <= j < |s.requests| ==> j in order)
            && LIST in c.cells && Spells(c, c.cells[LIST].next, ServeAll(s.requests, order).store)
  {
    CallsBacked(events);
    CallersMatch(events);
    var s := Admit(events);
    var rs, c := Reactions(s.requests), Reached(s.schedule);
    var first := OrderOf(c.entered, s.callers);
    ThreadsAreCalls(s.schedule);
    forall j | 0 <= j < |s.requests| ensures j in SerialOrder(events) {
      if rs[j].Reply? {
        ImmediateAll(rs, |rs|, j);
      } else {
        var t :| 0 <= t < |s.callers| && s.callers[t] == j;
        var i := ReturnedAt(s.schedule, t);
        assert first[i] == j;
      }
    }
    ServeSettles(s.requests, SerialOrder(events));
    HistoryServed(c.entered, s.callers, rs);
    RepliesServed(rs, first, Immediate(rs, |rs|));
    FinalList(s.schedule);
  }

  // ----- the order respects real time

  /** `u` is a later intake: its new list calls belong to requests that arrived since `s`. */
  ghost predicate Later(s: Intake, u: Intake) {
    && s.requests <= u.requests && s.callers <= u.callers && s.schedule <= u.schedule
    && forall t :: |s.callers| <= t < |u.callers| ==> |s.requests| <= u.callers[t]
  }

  lemma OneLater(s: Intake, u: Intake, e: ServerEvent)
    requires Later(s, u)
    ensures Later(s, AdmitOne(u, e))
  {}

  lemma {:induction false} AdmitSplit(e1: seq<ServerEvent>, e2: seq<ServerEvent>)
    ensures Later(Admit(e1), Admit(e1 + e2))
    decreases |e2|
  {
    if e2 == [] {
      assert e1 + e2 == e1;
    } else {
      var e := e1 + e2;
      assert e[..|e| - 1] == e1 + e2[..|e2| - 1];
      AdmitSplit(e1, e2[..|e2| - 1]);
      OneLater(Admit(e1), Admit(e[..|e| - 1]), e[|e| - 1]);
    }
  }

  lemma Suffix(s: seq<Event>, u: seq<Event>) returns (more: seq<Event>)
    requires s <= u
    ensures u == s + more
  {
    more := u[|s|..];
  }

  /** The serial order starts with the calls' requests, as the calls entered. */
  lemma OrderStarts(events: seq<ServerEvent>, i: nat)
    requires Execute(INITIAL, Admit(events).schedule).Ok? && i < |Reached(Admit(events).schedule).entered|
    ensures var u := Reached(Admit(events).schedule).entered[i].tid;
            u < |Admit(events).callers| && i < |SerialOrder(events)| && SerialOrder(events)[i] == Admit(events).callers[u]
  {
    CallsBacked(events);
  }

  lemma InOrder(events: seq<ServerEvent>, t: nat, u: nat, i: nat, j: nat)
    requires Execute(INITIAL, Admit(events).schedule).Ok?
    requires var log := Reached(Admit(events).schedule).entered; i < j < |log| && log[i].tid == t && log[j].tid == u
    ensures t < |Admit(events).callers| && u < |Admit(events).callers|
    ensures var callers, order := Admit(events).callers, SerialOrder(events);
            exists a, b :: 0 <= a < b < |order| && order[a] == callers[t] && order[b] == callers[u]
  {
    OrderStarts(events, i);
    OrderStarts(events, j);
    var order := SerialOrder(events);
    assert order[i] == Admit(events).callers[t] && order[j] == Admit(events).callers[u];
  }

  /** A request that was answered through the list before another arrived comes before it. */
  lemma OrderIsRealTime(e1: seq<ServerEvent>, e2: seq<ServerEvent>, t: nat, u: nat)
    requires Execute(INITIAL, Admit(e1).schedule).Ok? && Execute(INITIAL, Admit(e1 + e2).schedule).Ok?
    requires t < |Reached(Admit(e1).schedule).threads| && Reached(Admit(e1).schedule).threads[t].pc.Done?
    requires |Reached(Admit(e1).schedule).threads| <= u < |Reached(Admit(e1 + e2).schedule).threads|
    requires HasEntered(Reached(Admit(e1 + e2).schedule).threads[u])
    ensures t < |Admit(e1 + e2).callers| && u < |Admit(e1 + e2).callers|
    ensures var callers, order := Admit(e1 + e2).callers, SerialOrder(e1 + e2);
            exists a, b :: 0 <= a < b < |order| && order[a] == callers[t] && order[b] == callers[u]
  {
    AdmitSplit(e1, e2);
    var more := Suffix(Admit(e1).schedule, Admit(e1 + e2).schedule);
    RealTimeOrder(Admit(e1).schedule, more, t, u);
    var log := Reached(Admit(e1 + e2).schedule).entered;
    var i, j :| 0 <= i < j < |log| && log[i].tid == t && log[j].tid == u;
    InOrder(e1 + e2, t, u, i, j);
  }

  // ----- what holds of the store in every run

  /** The list calls of the server are the operations that requests can ask for. */
  lemma HistoryAskable(events: seq<ServerEvent>)
    requires Execute(INITIAL, Admit(events).schedule).Ok?
    ensures var log := Reached(Admit(events).schedule).entered;
            FileLog(log) && forall i :: 0 <= i < |log| ==> RoundTrip.Askable(log[i].op)
  {
    CallsBacked(events);
    var s := Admit(events);
    var log := Reached(s.schedule).entered;
    forall i | 0 <= i < |log| ensures RoundTrip.Askable(log[i].op) {
      var r := s.requests[s.callers[log[i].tid]];
      RoundTrip.ReactionsAskable(r.msg, r.memory);
    }
  }

  lemma AsksFiles(r: Request)
    requires Reaction(r).Ask?
    ensures FileOp(Reaction(r).op)
  {
    RoundTrip.ReactionsAskable(r.msg, r.memory);
  }

  /** In every run the store is well-formed: unique names of 1 to 1024 characters, contents of 1 to
      1024 characters with their terminator. */
  lemma StoreAlways(events: seq<ServerEvent>)
    requires Execute(INITIAL, Admit(events).schedule).Ok?
    ensures RoundTrip.StoreOk(Serial(Reached(Admit(events).schedule).entered).list)
  {
    HistoryAskable(events);
    SerialStore(Reached(Admit(events).schedule).entered);
  }

  lemma {:induction false} SerialStore(log: seq<Entry>)
    requires forall i :: 0 <= i < |log| ==> RoundTrip.Askable(log[i].op)
    ensures RoundTrip.StoreOk(Serial(log).list)
  {
    if log != [] {
      SerialStore(log[..|log| - 1]);
      RoundTrip.ApplyKeepsStore(log[|log| - 1].op, Serial(log[..|log| - 1]).list);
    }
  }

  /** Reads are never torn: a finished READ, although it copied the payload byte by byte among
      other threads' steps, has the whole payload of the latest successful CREATE or UPDATE of its
      name before it in the serial order, or nothing if the name did not exist there. */
  lemma ReadsNeverTorn(events: seq<ServerEvent>, t: nat) returns (i: nat)
    requires Execute(INITIAL, Admit(events).schedule).Ok?
    requires var c := Reached(Admit(events).schedule); t < |c.threads| && c.threads[t].pc.Done? && c.threads[t].op.GetById?
    ensures var c := Reached(Admit(events).schedule);
            var id, h := c.threads[t].op.id, Trace(c.entered);
            && i < |c.entered| && c.entered[i] == Entry(t, c.threads[t].op)
            && match c.threads[t].pc.r
               case Payload(Some(data)) =>
                 exists k: nat, w: nat :: Alive(h[..i], k, id) && LastWrite(h[..i], w, id) && k <= w && h[w].op.data == data
               case Payload(None) => forall k: nat :: !Alive(h[..i], k, id)
               case _ => false
  {
    HistoryAskable(events);
    i := ReturnedAt(Admit(events).schedule, t);
    var c := Reached(Admit(events).schedule);
    ReadsLatest(c.entered, i, c.threads[t].op.id);
  }

  lemma {:induction false} ListResult(log: seq<Entry>, i: nat)
    requires i < |log| && log[i].op == GetAllIds
    ensures var l := Serial(log[..i]).list; Trace(log)[i].r == Listing(|l|, IdText(l))
  {
    TracePrefix(log, i);
  }

  lemma {:induction false} ListLines(l: seq<Elem>)
    requires RoundTrip.StoreOk(l)
    ensures RoundTrip.Lines(Messages.Respond(GetAllIds, Listing(|l|, IdText(l))))
         == ["ACK " + Messages.Clip(Messages.Print(|l|), 3)] + RoundTrip.Ids(l)
  {
    assert Messages.Respond(GetAllIds, Listing(|l|, IdText(l))) == Messages.ListText(|l|, IdText(l));
    RoundTrip.ListDecodes(l);
  }

  /** The names of `l` in the order of their latest successful CREATE, as a LIST response. */
  ghost predicate ListedInOrder(before: seq<Entry>, response: string) {
    var l := Serial(before).list;
    && FileLog(before) && AllExplained(Trace(before), Origins(before), l)
    && RoundTrip.Lines(response) == ["ACK " + Messages.Clip(Messages.Print(|l|), 3)] + RoundTrip.Ids(l)
  }

  lemma {:induction false} ListExplained(log: seq<Entry>, i: nat)
    requires FileLog(log) && i < |log| && log[i].op == GetAllIds
    requires forall k :: 0 <= k < |log| ==> RoundTrip.Askable(log[k].op)
    ensures ListedInOrder(log[..i], Messages.Respond(GetAllIds, Trace(log)[i].r))
  {
    HistoryExplains(log[..i]);
    SerialStore(log[..i]);
    ListResult(log, i);
    ListLines(Serial(log[..i]).list);
  }

  /** A finished LIST answers with the names at its place in the serial order, in the order of
      each name's latest successful CREATE before it. */
  lemma {:induction false} ListsInOrder(events: seq<ServerEvent>, t: nat) returns (i: nat)
    requires Execute(INITIAL, Admit(events).schedule).Ok?
    requires var c := Reached(Admit(events).schedule); t < |c.threads| && c.threads[t].pc.Done? && c.threads[t].op.GetAllIds?
    ensures var c := Reached(Admit(events).schedule);
            && i < |c.entered| && c.entered[i] == Entry(t, GetAllIds)
            && ListedInOrder(c.entered[..i], Messages.Respond(GetAllIds, c.threads[t].pc.r))
  {
    HistoryAskable(events);
    i := ReturnedAt(Admit(events).schedule, t);
    ListExplained(Reached(Admit(events).schedule).entered, i);
  }

  // ----- names and sizes in the answers of a run

  function AnswerOf(c: Config, t: nat): string
    requires t < |c.threads| && c.threads[t].pc.Done?
  {
    Messages.Respond(c.threads[t].op, c.threads[t].pc.r)
  }

  /** A finished call's result has the form its operation's results have. */
  lemma {:induction false} ResultForm(log: seq<Entry>, i: nat)
    requires i < |log|
    ensures var x := Trace(log)[i];
            && x.op == log[i].op
            && (x.op.AppendUnique? || x.op.RemoveById? ==> x.r == Code(0) || x.r == Code(1))
  {
    TracePrefix(log, i);
    assert Trace(log)[i] == Happening(log[i].op, Apply(log[i].op, Serial(log[..i]).list).1);
    if log[i].op.AppendUnique? || log[i].op.RemoveById? { CodesOnly(log[i].op, Serial(log[..i]).list); }
  }

  lemma CodesOnly(op: Op, l: seq<Elem>)
    requires op.AppendUnique? || op.RemoveById?
    ensures Apply(op, l).1 in [Code(0), Code(1)]
  {}

  /** The answers for a name alternate. A CREATE answered with FILECREATED comes, in the serial
      order, after a successful DELETE if after another successful CREATE; a DELETE answered with
      DELETED comes after a successful CREATE with no successful DELETE in between. */
  lemma AnswersAlternate(events: seq<ServerEvent>, t: nat) returns (j: nat)
    requires Execute(INITIAL, Admit(events).schedule).Ok?
    requires var c := Reached(Admit(events).schedule); t < |c.threads| && c.threads[t].pc.Done?
    ensures var c := Reached(Admit(events).schedule);
            j < |c.entered| && c.entered[j] == Entry(t, c.threads[t].op)
    ensures var c := Reached(Admit(events).schedule);
            var op, h := c.threads[t].op, Trace(c.entered);
            op.AppendUnique? && AnswerOf(c, t) == Messages.FILECREATED ==>
              forall i :: 0 <= i < j && Creates(h[i], op.id) ==> exists k :: i < k < j && Deletes(h[k], op.id)
    ensures var c := Reached(Admit(events).schedule);
            var op, h := c.threads[t].op, Trace(c.entered);
            op.RemoveById? && AnswerOf(c, t) == Messages.DELETED ==>
              exists k :: 0 <= k < j && Creates(h[k], op.id) && forall i :: k < i < j ==> !Deletes(h[i], op.id)
  {
    HistoryAskable(events);
    j := ReturnedAt(Admit(events).schedule, t);
    var c := Reached(Admit(events).schedule);
    ResultForm(c.entered, j);
    if c.threads[t].op.AppendUnique? || c.threads[t].op.RemoveById? {
      Alternate(c.entered, c.threads[t].op.id, j);
    }
  }

  ghost predicate Creating(c: Config, t: nat, id: string) {
    t < |c.threads| && c.threads[t].op.AppendUnique? && c.threads[t].op.id == id
  }

  /** Call `w` won: it was told FILECREATED, and every other CREATE of the name FILEEXISTS. */
  ghost predicate Wins(c: Config, w: nat, id: string)
    requires Quiescent(c)
  {
    && Creating(c, w, id) && AnswerOf(c, w) == Messages.FILECREATED
    && forall u: nat :: Creating(c, u, id) && u != w ==> AnswerOf(c, u) == Messages.FILEEXISTS
  }

  lemma CreatesAnswered(events: seq<ServerEvent>, t: nat, id: string) returns (j: nat)
    requires Execute(INITIAL, Admit(events).schedule).Ok? && Creating(Reached(Admit(events).schedule), t, id)
    requires Reached(Admit(events).schedule).threads[t].pc.Done?
    requires forall i :: 0 <= i < |Admit(events).requests| ==> Reaction(Admit(events).requests[i]) != Messages.Ask(RemoveById(id))
    ensures var c := Reached(Admit(events).schedule);
            && j < |c.entered| && c.entered[j] == Entry(t, c.threads[t].op)
            && AnswerOf(c, t) == (if IsFirst(c.entered, j, id) then Messages.FILECREATED else Messages.FILEEXISTS)
  {
    HistoryAskable(events);
    CallsBacked(events);
    j := ReturnedAt(Admit(events).schedule, t);
    var c := Reached(Admit(events).schedule);
    ResultForm(c.entered, j);
    forall i | 0 <= i < |c.entered| && c.entered[i].op.RemoveById? ensures c.entered[i].op.id != id {
      var r := Admit(events).requests[Admit(events).callers[c.entered[i].tid]];
      assert Reaction(r) == Messages.Ask(c.entered[i].op);
    }
    OneWinner(c.entered, id, j);
  }

  ghost predicate IsFirst(log: seq<Entry>, j: nat, id: string)
    requires j <= |log|
  {
    forall i :: 0 <= i < j && log[i].op.AppendUnique? ==> log[i].op.id != id
  }

  lemma FirstCreate(log: seq<Entry>, j: nat, id: string) returns (i: nat)
    requires j < |log| && log[j].op.AppendUnique? && log[j].op.id == id
    ensures i < |log| && log[i].op.AppendUnique? && log[i].op.id == id && IsFirst(log, i, id)
  {
    i := 0;
    while !(log[i].op.AppendUnique? && log[i].op.id == id)
      invariant i <= j && IsFirst(log, i, id)
      decreases j - i
    {
      i := i + 1;
    }
  }

  /** Of any number of concurrent CREATEs of a name that no request deletes, exactly one wins. */
  lemma OneWinnerServed(events: seq<ServerEvent>, id: string, t: nat) returns (w: nat)
    requires Execute(INITIAL, Admit(events).schedule).Ok? && Quiescent(Reached(Admit(events).schedule))
    requires Creating(Reached(Admit(events).schedule), t, id)
    requires forall i :: 0 <= i < |Admit(events).requests| ==> Reaction(Admit(events).requests[i]) != Messages.Ask(RemoveById(id))
    ensures Wins(Reached(Admit(events).schedule), w, id)
  {
    RunRecorded(Admit(events).schedule);
    var c := Reached(Admit(events).schedule);
    var j := CreatesAnswered(events, t, id);
    var i := FirstCreate(c.entered, j, id);
    w := c.entered[i].tid;
    var k := CreatesAnswered(events, w, id);
    forall u: nat | Creating(c, u, id) && u != w ensures AnswerOf(c, u) == Messages.FILEEXISTS {
      var l := CreatesAnswered(events, u, id);
      assert l > i;
    }
  }

  /** Every response to a finished READ fits a message buffer. */
  lemma ReadAnswersFit(events: seq<ServerEvent>, t: nat)
    requires Execute(INITIAL, Admit(events).schedule).Ok?
    requires var c := Reached(Admit(events).schedule); t < |c.threads| && c.threads[t].pc.Done? && c.threads[t].op.GetById?
    ensures |AnswerOf(Reached(Admit(events).schedule), t)| <= RoundTrip.MAX_MSG_LEN
  {
    var i := ReadsNeverTorn(events, t);
    HistoryAskable(events);
    var c := Reached(Admit(events).schedule);
    var id, h := c.threads[t].op.id, Trace(c.entered);
    match c.threads[t].pc.r
    case Payload(Some(data)) =>
      var k: nat, w: nat :| Alive(h[..i], k, id) && LastWrite(h[..i], w, id) && k <= w && h[w].op.data == data;
      ResultForm(c.entered, w);
      assert RoundTrip.Askable(c.entered[w].op);
      RoundTrip.ReadFits(Elem(id, data));
    case _ =>
  }
}
