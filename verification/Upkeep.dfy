/** The listener and the cleanup thread get things done: whatever has happened, every thread
    created can still be joined, and any handles can follow. */
module Upkeep {
  import opened ListSpec
  import opened Machine
  import opened Refinement
  import opened Theorems
  import opened Termination
  import opened Cleanup
  import History

  function Fold<S, E>(f: (S, E) -> S, s: S, events: seq<E>): S {
    if events == [] then s else f(Fold(f, s, events[..|events| - 1]), events[|events| - 1])
  }

  lemma {:induction false} FoldTwice<S, E>(f: (S, E) -> S, s: S, a: seq<E>, b: seq<E>)
    ensures Fold(f, s, a + b) == Fold(f, Fold(f, s, a), b)
    decreases |b|
  {
    if b == [] {
      assert a + b == a;
    } else {
      var all := a + b;
      assert all[..|all| - 1] == a + b[..|b| - 1];
      FoldTwice(f, s, a, b[..|b| - 1]);
    }
  }

  /** More events, from a given state. */
  function HappenAll(s: Duo, more: seq<DuoEvent>): Duo {
    Fold(Happen, s, more)
  }

  lemma {:induction false} AfterFold(events: seq<DuoEvent>)
    ensures After(events) == Fold(Happen, START, events)
  {
    if events != [] { AfterFold(events[..|events| - 1]); }
  }

  lemma AfterAll(events: seq<DuoEvent>, more: seq<DuoEvent>)
    ensures After(events + more) == HappenAll(After(events), more)
  {
    AfterFold(events);
    AfterFold(events + more);
    FoldTwice(Happen, START, events, more);
  }

  lemma HappenTwice(s: Duo, a: seq<DuoEvent>, b: seq<DuoEvent>)
    ensures HappenAll(s, a + b) == HappenAll(HappenAll(s, a), b)
  {
    FoldTwice(Happen, s, a, b);
  }

  lemma HappenSnoc(s: Duo, more: seq<DuoEvent>, e: DuoEvent)
    ensures HappenAll(s, more + [e]) == Happen(HappenAll(s, more), e)
  {
    assert (more + [e])[..|more|] == more;
  }

  lemma HappenOne(s: Duo, e: DuoEvent)
    ensures HappenAll(s, [e]) == Happen(s, e)
  {
    assert [e][..0] == [];
    assert HappenAll(s, [e][..0]) == s;
  }

  // ----- what holds of all states

  ghost predicate Sane(s: Duo) {
    Fifo(s) && forall i :: 0 <= i < |s.created| ==> s.created[i] != ""
  }

  lemma SaneHappens(s: Duo, e: DuoEvent)
    requires Sane(s)
    ensures Sane(Happen(s, e))
  {
    match e
    case Accept(handle) => AcceptKeeps(s, handle);
    case Look => LookKeeps(s);
    case Join => JoinKeeps(s);
    case Sleep => RestKeeps(s, Sleep);
    case Removed => RestKeeps(s, Removed);
    case Advance(t, a) => AdvanceKeeps(s, t, a);
  }

  lemma {:induction false} SaneAll(s: Duo, more: seq<DuoEvent>)
    requires Sane(s)
    ensures Sane(HappenAll(s, more))
  {
    if more != [] {
      SaneAll(s, more[..|more| - 1]);
      SaneHappens(HappenAll(s, more[..|more| - 1]), more[|more| - 1]);
    }
  }

  lemma SaneAfter(events: seq<DuoEvent>)
    ensures Sane(After(events))
  {
    assert [] + events == events;
    AfterAll([], events);
    FifoAlways([]);
    SaneAll(START, events);
  }

  // ----- calls run to their end

  function AsSteps(more: seq<Event>): (events: seq<DuoEvent>)
    requires OnlyRuns(more)
    ensures |events| == |more| && forall i :: 0 <= i < |more| ==> events[i] == Advance(more[i].t, more[i].a)
  {
    seq(|more|, i requires 0 <= i < |more| => Advance(more[i].t, more[i].a))
  }

  lemma {:induction false} StepsHappen(s: Duo, more: seq<Event>)
    requires OnlyRuns(more)
    ensures HappenAll(s, AsSteps(more)) == s.(schedule := s.schedule + more)
    decreases |more|
  {
    if more == [] {
      assert s.schedule + more == s.schedule;
    } else {
      var init, e := more[..|more| - 1], more[|more| - 1];
      StepsHappen(s, init);
      assert AsSteps(more)[..|AsSteps(more)| - 1] == AsSteps(init);
      assert more == init + [Run(e.t, e.a)];
    }
  }

  ghost predicate NoAccepts(events: seq<DuoEvent>) {
    forall i :: 0 <= i < |events| ==> !events[i].Accept?
  }

  /** The same state, with all calls returned. */
  lemma Rested(s: Duo) returns (more: seq<Event>, events: seq<DuoEvent>)
    ensures OnlyRuns(more) && NoAccepts(events)
    ensures HappenAll(s, events) == s.(schedule := s.schedule + more)
    ensures Quiescent(List(s.(schedule := s.schedule + more)))
  {
    NoRunFaults(s.schedule);
    more := CanFinish(s.schedule);
    NoRunFaults(s.schedule + more);
    events := AsSteps(more);
    StepsHappen(s, more);
    ExecuteSplit(INITIAL, s.schedule, more);
  }

  lemma {:induction false} RunsKeepThreads(c: Config, more: seq<Event>)
    requires OnlyRuns(more) && Execute(c, more).Ok?
    ensures |Execute(c, more).c.threads| == |c.threads|
    ensures forall t :: 0 <= t < |c.threads| ==> Execute(c, more).c.threads[t].op == c.threads[t].op
  {
    if more != [] {
      var init, e := more[..|more| - 1], more[|more| - 1];
      RunsKeepThreads(c, init);
      var d := Execute(c, init).c;
      if e.t < |d.threads| && Step(d, e.t, e.a).Ok? { StepProgram(d, e.t, e.a); }
    }
  }

  lemma EnteredAlready(c: Config, d: Config, k: nat, u: nat)
    requires Recorded(c) && Recorded(d) && c.entered <= d.entered && Quiescent(c) && |c.entered| <= k < |d.entered|
    requires u < |c.threads|
    ensures d.entered[k].tid != u
  {
    assert Listed(c, u);
    var j :| 0 <= j < |c.entered| && c.entered[j].tid == u;
    assert d.entered[j].tid == u;
  }

  /** The calls returned have entered already. */
  lemma EnteredLater(c: Config, d: Config, k: nat)
    requires Recorded(c) && Recorded(d) && c.entered <= d.entered && Quiescent(c) && |c.entered| <= k < |d.entered|
    ensures d.entered[k].tid >= |c.threads|
  {
    var u := d.entered[k].tid;
    if u < |c.threads| {
      EnteredAlready(c, d, k, u);
      assert false;
    }
  }

  /** From rest, one call alone is the next in the serial history. */
  lemma OneEntry(c: Config, d: Config, op: Op)
    requires Recorded(c) && Recorded(d) && c.entered <= d.entered && |d.threads| == |c.threads| + 1
    requires Quiescent(c) && Quiescent(d) && d.threads[|c.threads|].op == op
    ensures d.entered == c.entered + [Entry(|c.threads|, op)]
  {
    var n := |c.threads|;
    forall k | 0 <= k < |c.entered| ensures d.entered[k] == c.entered[k] && d.entered[k].tid != n {}
    forall k | |c.entered| <= k < |d.entered| ensures d.entered[k].tid == n {
      EnteredLater(c, d, k);
    }
    assert Listed(d, n);
    var i :| 0 <= i < |d.entered| && d.entered[i].tid == n;
    forall j | |c.entered| <= j < |d.entered| ensures d.entered[j] == d.entered[i] && j == i {
      assert d.entered[j].tid == d.entered[i].tid;
    }
    assert |d.entered| == |c.entered| + 1 by {
      assert d.entered[|c.entered|] == d.entered[i] && d.entered[|d.entered| - 1] == d.entered[i];
    }
  }

  /** A call started at rest and run to its end. */
  lemma CalledAlone(s1: seq<Event>, op: Op, more: seq<Event>)
    requires OnlyRuns(more) && Execute(INITIAL, s1).Ok? && Execute(INITIAL, s1 + [Call(op)] + more).Ok?
    requires Quiescent(Reached(s1)) && Quiescent(Reached(s1 + [Call(op)] + more))
    ensures var c, d := Reached(s1), Reached(s1 + [Call(op)] + more);
            |d.threads| == |c.threads| + 1 && d.entered == c.entered + [Entry(|c.threads|, op)]
  {
    CalledThreads(s1, op, more);
    EntriesGrow(s1, [Call(op)], more);
    RunRecorded(s1);
    RunRecorded(s1 + [Call(op)] + more);
    OneEntry(Reached(s1), Reached(s1 + [Call(op)] + more), op);
  }

  lemma CalledThreads(s1: seq<Event>, op: Op, more: seq<Event>)
    requires OnlyRuns(more) && Execute(INITIAL, s1).Ok? && Execute(INITIAL, s1 + [Call(op)] + more).Ok?
    ensures var c, d := Reached(s1), Reached(s1 + [Call(op)] + more);
            |d.threads| == |c.threads| + 1 && d.threads[|c.threads|].op == op
  {
    NoRunFaults(s1 + [Call(op)]);
    CallGrows(s1, op);
    ExecuteSplit(INITIAL, s1 + [Call(op)], more);
    RunsKeepThreads(Reached(s1 + [Call(op)]), more);
  }

  lemma EntriesGrow(s1: seq<Event>, s2: seq<Event>, s3: seq<Event>)
    requires Execute(INITIAL, s1).Ok? && Execute(INITIAL, s1 + s2 + s3).Ok?
    ensures Reached(s1).entered <= Reached(s1 + s2 + s3).entered
  {
    assert s1 + s2 + s3 == s1 + (s2 + s3);
    RunSplit(s1, s2 + s3);
  }

  lemma CallAlone(s: Duo, op: Op, e: Duo, more: seq<Event>)
    requires Quiescent(List(s)) && OnlyRuns(more) && e.schedule == s.schedule + [Call(op)] + more && Quiescent(List(e))
    ensures var n, l := Next(s), Content(List(s));
            && Next(e) == n + 1 && List(e).threads[n].pc.Done? && List(e).threads[n].pc.r == Apply(op, l).1
            && Content(List(e)) == Apply(op, l).0
  {
    NoRunFaults(s.schedule);
    NoRunFaults(e.schedule);
    CalledAlone(s.schedule, op, more);
    Serialisable(e.schedule, Next(s));
    SerialSnoc(List(s).entered, Entry(Next(s), op));
  }

  // ----- one turn of the cleanup thread

  /** At rest, with the cleanup thread between two turns. */
  ghost predicate Waiting(s: Duo) {
    Sane(s) && Quiescent(List(s)) && s.cleaner.Idle?
  }

  /** At rest all appends count. */
  lemma RestBalance(s: Duo)
    requires Sane(s) && Quiescent(List(s)) && !HeadJoined(List(s), s.cleaner)
    ensures s.created == s.joined + Handles(Content(List(s)))
  {
    assert InFlight(List(s), s.created, s.append) == [];
    assert s.joined + Handles(Content(List(s))) + [] == s.joined + Handles(Content(List(s)));
  }

  /** A call of the cleanup thread, run to its end, and nothing else. */
  lemma CallReturns(s: Duo, op: Op, e: Duo) returns (events: seq<DuoEvent>, d: Duo)
    requires Quiescent(List(s)) && e.schedule == s.schedule + [Call(op)]
    ensures NoAccepts(events) && HappenAll(e, events) == d && d == e.(schedule := d.schedule) && Quiescent(List(d))
    ensures var n, l := Next(s), Content(List(s));
            && Next(d) == n + 1 && List(d).threads[n].pc.Done? && List(d).threads[n].pc.r == Apply(op, l).1
            && Content(List(d)) == Apply(op, l).0
  {
    var more;
    more, events := Rested(e);
    d := e.(schedule := e.schedule + more);
    CallAlone(s, op, d, more);
  }

  /** The handle found is joined and removed. */
  lemma JoinTurn(s: Duo) returns (events: seq<DuoEvent>, d: Duo)
    requires Sane(s) && Quiescent(List(s)) && s.cleaner.Looking? && IsDone(s, s.cleaner.t)
    requires List(s).threads[s.cleaner.t].pc.r != Payload(None)
    ensures NoAccepts(events) && HappenAll(s, events) == d && Waiting(d)
    ensures d.created == s.created && |d.joined| == |s.joined| + 1
  {
    FoundFirst(s);
    RestBalance(s);
    var l := Content(List(s));
    assert l[0].data == Handles(l)[0] == s.created[|s.joined|];
    var joining := Happen(s, Join);
    assert joining == s.(schedule := s.schedule + [Call(RemoveFirst)], joined := s.joined + [l[0].data],
                         cleaner := Removing(Next(s)));
    var removed: Duo;
    var rest;
    rest, removed := CallReturns(s, RemoveFirst, joining);
    d := Happen(removed, Removed);
    assert d == removed.(cleaner := Idle);
    events := [Join] + rest + [Removed];
    JoinHappens(s, rest);
    SaneAll(s, events);
  }

  lemma JoinHappens(s: Duo, rest: seq<DuoEvent>)
    ensures HappenAll(s, [Join] + rest + [Removed]) == Happen(HappenAll(Happen(s, Join), rest), Removed)
  {
    HappenOne(s, Join);
    HappenTwice(s, [Join], rest);
    HappenSnoc(s, [Join] + rest, Removed);
  }

  /** One turn: the first handle is looked up, joined and removed. */
  lemma OneTurn(s: Duo) returns (events: seq<DuoEvent>, d: Duo)
    requires Waiting(s) && Content(List(s)) != []
    ensures NoAccepts(events) && HappenAll(s, events) == d && Waiting(d)
    ensures d.created == s.created && |d.joined| == |s.joined| + 1
  {
    var looking := Happen(s, DuoEvent.Look);
    var found: Duo;
    var first, rest;
    first, found := CallReturns(s, GetFirst, looking);
    HappenOne(s, DuoEvent.Look);
    HappenTwice(s, [DuoEvent.Look], first);
    SaneAll(s, [DuoEvent.Look] + first);
    rest, d := JoinTurn(found);
    HappenTwice(s, [DuoEvent.Look] + first, rest);
    events := [DuoEvent.Look] + first + rest;
  }

  /** As many turns as there are handles left. */
  lemma {:induction false} Turns(s: Duo) returns (events: seq<DuoEvent>, d: Duo)
    requires Waiting(s)
    ensures NoAccepts(events) && HappenAll(s, events) == d && Waiting(d)
    ensures d.created == s.created == d.joined && Content(List(d)) == []
    decreases |s.created| - |s.joined|
  {
    RestBalance(s);
    if Content(List(s)) == [] {
      events, d := [], s;
      assert s.joined + Handles([]) == s.joined;
    } else {
      var turn, rest;
      var next: Duo;
      turn, next := OneTurn(s);
      RestBalance(next);
      rest, d := Turns(next);
      events := turn + rest;
      HappenTwice(s, turn, rest);
    }
  }

  // ----- from any state

  /** Whatever the cleanup thread is doing at rest, it comes back to waiting. */
  lemma TurnEnds(s: Duo) returns (events: seq<DuoEvent>, d: Duo)
    requires Sane(s) && Quiescent(List(s))
    ensures NoAccepts(events) && HappenAll(s, events) == d && Waiting(d) && d.created == s.created
  {
    events, d := [], s;
    if s.cleaner.Removing? {
      events, d := [Removed], Happen(s, Removed);
      HappenOne(s, Removed);
      SaneHappens(s, Removed);
    } else if s.cleaner.Looking? {
      if List(s).threads[s.cleaner.t].pc.r == Payload(None) {
        events, d := [Sleep], Happen(s, Sleep);
        HappenOne(s, Sleep);
        SaneHappens(s, Sleep);
      } else {
        events, d := JoinTurn(s);
      }
    }
  }

  lemma BackToWaiting(s: Duo) returns (events: seq<DuoEvent>, d: Duo)
    requires Sane(s)
    ensures NoAccepts(events) && HappenAll(s, events) == d && Waiting(d) && d.created == s.created
  {
    var more, rest;
    more, events := Rested(s);
    SaneAll(s, events);
    rest, d := TurnEnds(s.(schedule := s.schedule + more));
    HappenTwice(s, events, rest);
    events := events + rest;
  }

  /** Everything created is joined, the cleanup thread waits, and the list in memory is empty. */
  ghost predicate CaughtUp(d: Duo) {
    && d.joined == d.created && d.cleaner.Idle? && Quiescent(List(d))
    && |List(d).cells| == 1 && LIST in List(d).cells && List(d).cells[LIST].next == NULL
  }

  lemma CatchUpFrom(s: Duo) returns (events: seq<DuoEvent>, d: Duo)
    requires Sane(s)
    ensures NoAccepts(events) && HappenAll(s, events) == d && d.created == s.created && CaughtUp(d)
  {
    var rest;
    var waiting: Duo;
    events, waiting := BackToWaiting(s);
    rest, d := Turns(waiting);
    HappenTwice(s, events, rest);
    events := events + rest;
    NoRunFaults(d.schedule);
    FinalList(d.schedule);
  }

  /** From every moment of every run, with no further connection, all threads created so far can
      be joined, and the list emptied. */
  lemma CatchesUp(events: seq<DuoEvent>) returns (more: seq<DuoEvent>)
    ensures NoAccepts(more) && After(events + more).created == After(events).created && CaughtUp(After(events + more))
  {
    SaneAfter(events);
    var d: Duo;
    more, d := CatchUpFrom(After(events));
    AfterAll(events, more);
  }

  /** The cleanup thread sleeps exactly when its look came to an empty list, and otherwise joins
      the handle that was first there. */
  lemma LookDecides(events: seq<DuoEvent>) returns (i: nat)
    requires var s := After(events); s.cleaner.Looking? && IsDone(s, s.cleaner.t)
    ensures var s := After(events);
            i < |List(s).entered| && List(s).entered[i] == Entry(s.cleaner.t, GetFirst)
    ensures var s := After(events);
            var l := Serial(List(s).entered[..i]).list;
            if l == [] then Happen(s, Join) == s && Happen(s, Sleep).cleaner.Idle?
            else Happen(s, Sleep) == s && Happen(s, Join).joined == s.joined + [l[0].data]
                 && Happen(s, Join).cleaner.Removing?
  {
    SaneAfter(events);
    var s := After(events);
    i := LookResult(s);
    FoundFirst(s);
    if List(s).threads[s.cleaner.t].pc.r != Payload(None) { HeadNonempty(s); }
  }

  /** What a finished look found, and where it entered. */
  lemma LookResult(s: Duo) returns (i: nat)
    requires Fifo(s) && s.cleaner.Looking? && IsDone(s, s.cleaner.t)
    ensures i < |List(s).entered| && List(s).entered[i] == Entry(s.cleaner.t, GetFirst)
    ensures List(s).threads[s.cleaner.t].pc.r == Apply(GetFirst, Serial(List(s).entered[..i]).list).1
  {
    NoRunFaults(s.schedule);
    RunRecorded(s.schedule);
    var log, t := List(s).entered, s.cleaner.t;
    assert Listed(List(s), t);
    i :| 0 <= i < |log| && log[i].tid == t;
    Serialisable(s.schedule, t);
    History.ResultsTraced(log, i);
    History.TracePrefix(log, i);
  }

  lemma HeadNonempty(s: Duo)
    requires Sane(s) && s.cleaner.Looking? && Content(List(s)) != []
    ensures Content(List(s))[0].data != ""
  {
    var l := Content(List(s));
    assert l[0].data == Handles(l)[0] == s.created[|s.joined|];
  }

  // ----- any connections can follow

  lemma AcceptOne(s: Duo, handle: string) returns (events: seq<DuoEvent>, d: Duo)
    requires Sane(s) && Quiescent(List(s)) && handle != ""
    ensures HappenAll(s, events) == d && Sane(d) && Quiescent(List(d)) && d.created == s.created + [handle]
  {
    var e := Happen(s, Accept(handle));
    HappenOne(s, Accept(handle));
    var more;
    more, events := Rested(e);
    d := e.(schedule := e.schedule + more);
    HappenTwice(s, [Accept(handle)], events);
    events := [Accept(handle)] + events;
    SaneAll(s, events);
  }

  lemma {:induction false} AcceptAll(s: Duo, handles: seq<string>) returns (events: seq<DuoEvent>, d: Duo)
    requires Sane(s) && Quiescent(List(s)) && forall i :: 0 <= i < |handles| ==> handles[i] != ""
    ensures HappenAll(s, events) == d && Sane(d) && Quiescent(List(d)) && d.created == s.created + handles
    decreases |handles|
  {
    events, d := [], s;
    if handles != [] {
      var init, last := handles[..|handles| - 1], handles[|handles| - 1];
      assert handles == init + [last];
      var rest;
      var before: Duo;
      events, before := AcceptAll(s, init);
      rest, d := AcceptOne(before, last);
      HappenTwice(s, events, rest);
      events := events + rest;
    }
  }

  /** From every moment of every run, any threads can be created next, and then all of them
      joined, in this order, after those before. */
  lemma AnyHandlesJoined(events: seq<DuoEvent>, handles: seq<string>) returns (more: seq<DuoEvent>)
    requires forall i :: 0 <= i < |handles| ==> handles[i] != ""
    ensures After(events + more).created == After(events).created + handles && CaughtUp(After(events + more))
  {
    SaneAfter(events);
    var s := After(events);
    var steps, accepts, rest;
    var d: Duo;
    steps, more := Rested(s);
    SaneAll(s, more);
    accepts, d := AcceptAll(s.(schedule := s.schedule + steps), handles);
    HappenTwice(s, more, accepts);
    rest, d := CatchUpFrom(d);
    HappenTwice(s, more + accepts, rest);
    more := more + accepts + rest;
    AfterAll(events, more);
  }
}
