/** The listener and the cleanup thread of the server over their shared thread list: handles are
    joined exactly once, in the order in which they were created. */
module Cleanup {
  import opened ListSpec
  import opened Machine
  import opened Refinement
  import opened Theorems

  /** Where the cleanup thread is: about to look at the first element, in getFirstListElement, or,
      after joining a handle, in removeFirstListElement. */
  datatype Cleaner = Idle | Looking(t: nat) | Removing(t: nat)

  /** `append` is the listener's latest appendListElement call. */
  datatype Duo = Duo(schedule: seq<Event>, created: seq<string>, joined: seq<string>, append: Option<nat>, cleaner: Cleaner)

  const START: Duo := Duo([], [], [], None, Idle)

  function List(s: Duo): Config {
    NoRunFaults(s.schedule);
    Reached(s.schedule)
  }

  predicate IsDone(s: Duo, t: nat) {
    t < |List(s).threads| && List(s).threads[t].pc.Done?
  }

  /** The next call's number. */
  function Next(s: Duo): nat {
    |List(s).threads|
  }

  datatype DuoEvent =
    | Accept(handle: string)     // the listener creates a thread and appends its handle
    | Look                       // the cleanup thread calls getFirstListElement
    | Join                       // it got a handle, joins that thread and calls removeFirstListElement
    | Sleep                      // it got none
    | Removed                    // removeFirstListElement is done
    | Advance(t: nat, a: Addr)   // a list call takes a step

  /** One event. Each of the two threads has one call at a time: an event that its program is not
      ready for changes nothing. */
  function Happen(s: Duo, e: DuoEvent): Duo {
    match e
    case Accept(handle) =>
      if handle == "" || (s.append.Some? && !IsDone(s, s.append.value)) then s
      else Duo(s.schedule + [Call(Append("NoName", handle))], s.created + [handle], s.joined, Some(Next(s)), s.cleaner)
    case Look =>
      if !s.cleaner.Idle? then s
      else s.(schedule := s.schedule + [Call(GetFirst)], cleaner := Looking(Next(s)))
    case Join =>
      if !s.cleaner.Looking? || !IsDone(s, s.cleaner.t) then s else
        var r := List(s).threads[s.cleaner.t].pc.r;
        if !r.Payload? || r.data.None? || r.data.value == "" then s
        else s.(schedule := s.schedule + [Call(RemoveFirst)], joined := s.joined + [r.data.value], cleaner := Removing(Next(s)))
    case Sleep =>
      if s.cleaner.Looking? && IsDone(s, s.cleaner.t) && List(s).threads[s.cleaner.t].pc.r == Payload(None)
      then s.(cleaner := Idle) else s
    case Removed => if s.cleaner.Removing? && IsDone(s, s.cleaner.t) then s.(cleaner := Idle) else s
    case Advance(t, a) => s.(schedule := s.schedule + [Run(t, a)])
  }

  function After(events: seq<DuoEvent>): Duo {
    if events == [] then START else Happen(After(events[..|events| - 1]), events[|events| - 1])
  }

  // ----- what every run keeps

  function Handles(l: seq<Elem>): (hs: seq<string>)
    ensures |hs| == |l| && forall i :: 0 <= i < |l| ==> hs[i] == l[i].data
  {
    seq(|l|, i requires 0 <= i < |l| => l[i].data)
  }

  /** The call has locked the header: it counts in the serial order. */
  predicate Counted(c: Config, t: nat) {
    t < |c.threads| && HasEntered(c.threads[t])
  }

  /** The list as the serial order leaves it. */
  function Content(c: Config): seq<Elem> {
    Serial(c.entered).list
  }

  /** The handle whose append does not count yet. */
  function InFlight(c: Config, created: seq<string>, append: Option<nat>): seq<string> {
    if append.Some? && !Counted(c, append.value) && created != [] then [created[|created| - 1]] else []
  }

  /** The handle that is joined but still in the list. */
  predicate HeadJoined(c: Config, cleaner: Cleaner) {
    cleaner.Removing? && !Counted(c, cleaner.t)
  }

  /** Joined so far, then the list without a head that is joined already, then an append under
      way: these are the handles created, in order. */
  ghost predicate Conserved(c: Config, s: Duo) {
    var l := Content(c);
    if HeadJoined(c, s.cleaner) then
      l != [] && s.joined != [] && l[0].data == s.joined[|s.joined| - 1]
      && s.created == s.joined + Handles(l)[1..] + InFlight(c, s.created, s.append)
    else s.created == s.joined + Handles(l) + InFlight(c, s.created, s.append)
  }

  /** The calls of the two threads, and nobody else's, are under way. */
  ghost predicate Programs(c: Config, s: Duo) {
    && (s.append.Some? ==>
          && s.append.value < |c.threads| && s.created != []
          && c.threads[s.append.value].op == Append("NoName", s.created[|s.created| - 1]))
    && (s.cleaner.Looking? ==> s.cleaner.t < |c.threads| && c.threads[s.cleaner.t].op == GetFirst)
    && (s.cleaner.Removing? ==> s.cleaner.t < |c.threads| && c.threads[s.cleaner.t].op == RemoveFirst)
    && (forall u :: 0 <= u < |c.threads| && !HasEntered(c.threads[u]) ==>
          s.append == Some(u) || s.cleaner == Looking(u) || s.cleaner == Removing(u))
  }

  /** What getFirstListElement found is still the first element. */
  ghost predicate StillFirst(c: Config, s: Duo) {
    s.cleaner.Looking? && Counted(c, s.cleaner.t) ==>
      var r := Serial(c.entered).results;
      s.cleaner.t in r && (r[s.cleaner.t] == Payload(None)
                           || (Content(c) != [] && r[s.cleaner.t] == Payload(Some(Content(c)[0].data))))
  }

  ghost predicate Fifo(s: Duo) {
    Programs(List(s), s) && Conserved(List(s), s) && StillFirst(List(s), s)
  }

  // ----- how the list's run changes

  lemma CallGrows(schedule: seq<Event>, op: Op)
    requires Execute(INITIAL, schedule).Ok?
    ensures Execute(INITIAL, schedule + [Call(op)]).Ok?
    ensures var c, d := Reached(schedule), Reached(schedule + [Call(op)]);
            && d.entered == c.entered && |d.threads| == |c.threads| + 1 && d.threads[..|c.threads|] == c.threads
            && d.threads[|c.threads|].op == op && !HasEntered(d.threads[|c.threads|])
  {
    assert (schedule + [Call(op)])[..|schedule|] == schedule;
  }

  lemma RunGrows(schedule: seq<Event>, t: nat, a: Addr)
    requires Execute(INITIAL, schedule).Ok? && Execute(INITIAL, schedule + [Run(t, a)]).Ok?
    ensures var c, d := Reached(schedule), Reached(schedule + [Run(t, a)]); d == c || OneThread(c, t, d)
  {
    assert (schedule + [Run(t, a)])[..|schedule|] == schedule;
    var c := Reached(schedule);
    if t < |c.threads| && Step(c, t, a).Ok? { StepProgram(c, t, a); }
  }

  /** A call that does not count yet changes nothing. */
  lemma SameCalls(c: Config, d: Config, t: nat)
    requires d.entered == c.entered && |c.threads| <= |d.threads| && t < |c.threads|
    requires d.threads[..|c.threads|] == c.threads
    ensures Counted(d, t) == Counted(c, t) && d.threads[t].op == c.threads[t].op
  {
    assert d.threads[t] == d.threads[..|c.threads|][t];
  }

  lemma NewCall(c: Config, d: Config, s: Duo)
    requires Programs(c, s) && Conserved(c, s) && StillFirst(c, s)
    requires d.entered == c.entered && |c.threads| <= |d.threads| && d.threads[..|c.threads|] == c.threads
    ensures Conserved(d, s) && StillFirst(d, s)
  {
    if s.append.Some? { SameCalls(c, d, s.append.value); }
    if s.cleaner.Looking? || s.cleaner.Removing? { SameCalls(c, d, s.cleaner.t); }
  }

  /** A step that is not an entry. */
  lemma QuietStep(c: Config, d: Config, t: nat, s: Duo)
    requires Programs(c, s) && Conserved(c, s) && StillFirst(c, s) && OneThread(c, t, d) && !c.threads[t].pc.LockList?
    ensures Programs(d, s) && Conserved(d, s) && StillFirst(d, s)
  {
    assert d.entered == c.entered;
    forall u | 0 <= u < |c.threads|
            ensures HasEntered(d.threads[u]) == HasEntered(c.threads[u]) && d.threads[u].op == c.threads[u].op {}
  }

  lemma EnterStep(c: Config, d: Config, t: nat, s: Duo)
    requires Programs(c, s) && Conserved(c, s) && StillFirst(c, s) && OneThread(c, t, d) && c.threads[t].pc.LockList?
    ensures Programs(d, s) && Conserved(d, s) && StillFirst(d, s)
  {
    forall u | 0 <= u < |c.threads|
      ensures Counted(d, u) <==> Counted(c, u) || u == t
      ensures d.threads[u].op == c.threads[u].op
    {}
    SerialSnoc(c.entered, Entry(t, c.threads[t].op));
    var l := Content(c);
    match c.threads[t].op
    case Append(id, data) => assert Handles(l + [Elem(id, data)]) == Handles(l) + [data];
    case GetFirst =>
    case RemoveFirst => assert Handles(l[1..]) == Handles(l)[1..];
    case _ =>
  }

  // ----- every event keeps the order

  lemma DoneCounts(s: Duo, t: nat)
    requires IsDone(s, t)
    ensures Counted(List(s), t)
  {}

  lemma AcceptKeeps(s: Duo, handle: string)
    requires Fifo(s)
    ensures Fifo(Happen(s, Accept(handle)))
  {
    var d := Happen(s, Accept(handle));
    if d != s {
      NoRunFaults(s.schedule);
      CallGrows(s.schedule, Append("NoName", handle));
      NewCall(List(s), List(d), s);
      Unentered(List(s), List(d), s);
      AcceptFifo(List(s), List(d), s, d, handle);
    }
  }

  lemma AcceptFifo(c: Config, d: Config, s: Duo, e: Duo, handle: string)
    requires Programs(c, s) && Conserved(d, s) && StillFirst(d, s)
    requires d.entered == c.entered && |d.threads| == |c.threads| + 1
    requires forall u :: 0 <= u < |c.threads| ==> d.threads[u] == c.threads[u]
    requires d.threads[|c.threads|].op == Append("NoName", handle) && !HasEntered(d.threads[|c.threads|])
    requires s.append.Some? ==> Counted(c, s.append.value)
    requires e == s.(schedule := e.schedule, created := s.created + [handle], append := Some(|c.threads|))
    ensures Programs(d, e) && Conserved(d, e) && StillFirst(d, e)
  {
    assert InFlight(d, s.created, s.append) == [] && InFlight(d, e.created, e.append) == [handle];
  }

  lemma LookKeeps(s: Duo)
    requires Fifo(s)
    ensures Fifo(Happen(s, DuoEvent.Look))
  {
    var d := Happen(s, DuoEvent.Look);
    if d != s {
      NoRunFaults(s.schedule);
      CallGrows(s.schedule, GetFirst);
      NewCall(List(s), List(d), s);
      Unentered(List(s), List(d), s);
    }
  }

  /** The calls under way stay the same when a new one starts. */
  lemma Unentered(c: Config, d: Config, s: Duo)
    requires Programs(c, s) && |d.threads| == |c.threads| + 1 && d.threads[..|c.threads|] == c.threads
    ensures forall u :: 0 <= u < |c.threads| ==> d.threads[u] == c.threads[u]
  {
    forall u | 0 <= u < |c.threads| ensures d.threads[u] == c.threads[u] {
      assert d.threads[u] == d.threads[..|c.threads|][u];
    }
  }

  /** The handle that the cleanup thread got is the first in the list, and still is. */
  lemma FoundFirst(s: Duo)
    requires Fifo(s) && s.cleaner.Looking? && IsDone(s, s.cleaner.t)
    ensures var r, l := List(s).threads[s.cleaner.t].pc.r, Content(List(s));
            r == Payload(None) || (l != [] && r == Payload(Some(l[0].data)))
  {
    NoRunFaults(s.schedule);
    Serialisable(s.schedule, s.cleaner.t);
  }

  lemma JoinKeeps(s: Duo)
    requires Fifo(s)
    ensures Fifo(Happen(s, Join))
  {
    var d := Happen(s, Join);
    if d != s {
      FoundFirst(s);
      NoRunFaults(s.schedule);
      CallGrows(s.schedule, RemoveFirst);
      var idle := s.(cleaner := Idle);
      NewCall(List(s), List(d), idle);
      Unentered(List(s), List(d), s);
      JoinFifo(List(s), List(d), s, d);
    }
  }

  lemma JoinFifo(c: Config, d: Config, s: Duo, e: Duo)
    requires Programs(c, s) && Conserved(d, s.(cleaner := Idle)) && s.cleaner.Looking? && Counted(c, s.cleaner.t)
    requires d.entered == c.entered && |d.threads| == |c.threads| + 1 && Content(d) != []
    requires forall u :: 0 <= u < |c.threads| ==> d.threads[u] == c.threads[u]
    requires d.threads[|c.threads|].op == RemoveFirst && !HasEntered(d.threads[|c.threads|])
    requires e == s.(schedule := e.schedule, joined := s.joined + [Content(d)[0].data], cleaner := Removing(|c.threads|))
    ensures Programs(d, e) && Conserved(d, e) && StillFirst(d, e)
  {
    assert InFlight(d, e.created, e.append) == InFlight(d, s.created, s.append);
    var hs := Handles(Content(d));
    assert s.joined + hs == (s.joined + [hs[0]]) + hs[1..];
  }

  lemma RestKeeps(s: Duo, e: DuoEvent)
    requires Fifo(s) && (e.Sleep? || e.Removed?)
    ensures Fifo(Happen(s, e))
  {
    if Happen(s, e) != s { DoneCounts(s, s.cleaner.t); }
  }

  lemma AdvanceKeeps(s: Duo, t: nat, a: Addr)
    requires Fifo(s)
    ensures Fifo(Happen(s, Advance(t, a)))
  {
    var d := Happen(s, Advance(t, a));
    NoRunFaults(d.schedule);
    RunGrows(s.schedule, t, a);
    var c := List(s);
    if List(d) != c {
      if c.threads[t].pc.LockList? { EnterStep(c, List(d), t, s); } else { QuietStep(c, List(d), t, s); }
    }
  }

  /** Exactly-once FIFO joining: in every run the handles joined so far, then the thread list
      without a head that is joined already, then an append under way, are the handles created,
      in the order of their creation. */
  lemma {:induction false} FifoAlways(events: seq<DuoEvent>)
    ensures Fifo(After(events))
  {
    if events != [] {
      var s := After(events[..|events| - 1]);
      FifoAlways(events[..|events| - 1]);
      match events[|events| - 1]
      case Accept(handle) => AcceptKeeps(s, handle);
      case Look => LookKeeps(s);
      case Join => JoinKeeps(s);
      case Sleep => RestKeeps(s, Sleep);
      case Removed => RestKeeps(s, Removed);
      case Advance(t, a) => AdvanceKeeps(s, t, a);
    }
  }

  /** The handles joined are a prefix of those created: none twice, none skipped. */
  lemma JoinedInOrder(events: seq<DuoEvent>)
    ensures After(events).joined <= After(events).created
  {
    FifoAlways(events);
  }

  /** Although looking and removing are separate critical sections, the element about to be
      removed is the one that was just joined. */
  lemma RemovesTheJoined(events: seq<DuoEvent>)
    requires var s := After(events); s.cleaner.Removing? && !Counted(List(s), s.cleaner.t)
    ensures var s := After(events);
            Content(List(s)) != [] && s.joined != [] && Content(List(s))[0].data == s.joined[|s.joined| - 1]
  {
    FifoAlways(events);
  }
}
