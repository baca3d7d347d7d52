/** The server as its clients see it: nothing that arrives is lost, everything can be answered,
    and each answer says what was there at the request's place in the serial order. */
module Service {
  import opened ListSpec
  import opened Machine
  import opened Refinement
  import opened Theorems
  import opened Termination
  import opened History
  import opened Server
  import Messages
  import RoundTrip
  import Answers

  // ----- arrivals

  /** The requests among the events, in order. */
  function Arrivals(events: seq<ServerEvent>): seq<Request> {
    if events == [] then []
    else (if events[0].Arrive? then [events[0].r] else []) + Arrivals(events[1..])
  }

  lemma {:induction false} ArrivalsSnoc(events: seq<ServerEvent>, e: ServerEvent)
    ensures Arrivals(events + [e]) == Arrivals(events) + (if e.Arrive? then [e.r] else [])
  {
    if events == [] {
      assert ([] + [e])[1..] == [];
    } else {
      ArrivalsSnoc(events[1..], e);
      assert (events + [e])[1..] == events[1..] + [e];
    }
  }

  /** Every request that arrives is taken in, in the order of arrival. */
  lemma {:induction false} AllAdmitted(events: seq<ServerEvent>)
    ensures Admit(events).requests == Arrivals(events)
  {
    if events != [] {
      var init, e := events[..|events| - 1], events[|events| - 1];
      AllAdmitted(init);
      ArrivalsSnoc(init, e);
      assert events == init + [e];
    }
  }

  // ----- progress

  /** The scheduler's part of a run, as server events. */
  function Advances(more: seq<Event>): (events: seq<ServerEvent>)
    requires OnlyRuns(more)
    ensures |events| == |more| && forall i :: 0 <= i < |more| ==> events[i] == Advance(more[i].t, more[i].a)
  {
    seq(|more|, i requires 0 <= i < |more| => Advance(more[i].t, more[i].a))
  }

  lemma {:induction false} AdmitAdvances(events: seq<ServerEvent>, more: seq<Event>)
    requires OnlyRuns(more)
    ensures Admit(events + Advances(more)) == Admit(events).(schedule := Admit(events).schedule + more)
    decreases |more|
  {
    if more == [] {
      assert events + Advances(more) == events;
    } else {
      var init, e := more[..|more| - 1], more[|more| - 1];
      AdmitAdvances(events, init);
      var all := events + Advances(more);
      assert all[..|all| - 1] == events + Advances(init);
      assert more == init + [Run(e.t, e.a)];
    }
  }

  ghost predicate Scheduling(events: seq<ServerEvent>) {
    forall i :: 0 <= i < |events| ==> events[i].Advance?
  }

  /** From every moment of every run the scheduler can bring it about, without further arrivals,
      that all requests have been answered, each as in the one-at-a-time run. */
  lemma EveryoneAnswered(events: seq<ServerEvent>) returns (more: seq<ServerEvent>)
    requires Execute(INITIAL, Admit(events).schedule).Ok?
    ensures Scheduling(more) && Execute(INITIAL, Admit(events + more).schedule).Ok?
    ensures Admit(events + more).requests == Arrivals(events)
    ensures Quiescent(Reached(Admit(events + more).schedule))
    ensures var s, day := Admit(events + more), ServeAll(Admit(events + more).requests, SerialOrder(events + more));
            forall j :: 0 <= j < |s.requests| ==>
              j in day.answers && Replied(Reactions(s.requests), s.callers, Reached(s.schedule), j, day.answers[j])
  {
    var steps := CanFinish(Admit(events).schedule);
    more := Advances(steps);
    AllAdmitted(events);
    AdmitAdvances(events, steps);
    ExecuteSplit(INITIAL, Admit(events).schedule, steps);
    AllReplied(events + more);
  }

  /** At rest everyone has been answered. */
  lemma AllReplied(events: seq<ServerEvent>)
    requires Execute(INITIAL, Admit(events).schedule).Ok? && Quiescent(Reached(Admit(events).schedule))
    ensures var s, day := Admit(events), ServeAll(Admit(events).requests, SerialOrder(events));
            forall j :: 0 <= j < |s.requests| ==>
              j in day.answers && Replied(Reactions(s.requests), s.callers, Reached(s.schedule), j, day.answers[j])
  {
    CallersMatch(events);
    var s := Admit(events);
    var rs, c := Reactions(s.requests), Reached(s.schedule);
    ThreadsAreCalls(s.schedule);
    forall j | 0 <= j < |s.requests|
      ensures var day := ServeAll(s.requests, SerialOrder(events));
              j in day.answers && Replied(rs, s.callers, c, j, day.answers[j])
    {
      var text := SomeReply(rs, s.callers, c, j);
      ResponsesSerialise(events, j, text);
    }
  }

  lemma SomeReply(rs: seq<Messages.Reaction>, callers: seq<nat>, c: Config, j: nat) returns (text: string)
    requires j < |rs| && |callers| == |c.threads| && Quiescent(c) && (rs[j].Reply? || j in callers)
    ensures Replied(rs, callers, c, j, text)
  {
    if rs[j].Reply? {
      text := rs[j].text;
    } else {
      var t :| 0 <= t < |callers| && callers[t] == j;
      text := AnswerOf(c, t);
      assert Returned(c, t, text);
    }
  }

  // ----- what each finished call was told

  /** The name is there: it was created, and not deleted since. */
  ghost predicate There(h: seq<Happening>, id: string) {
    exists k: nat :: Alive(h, k, id)
  }

  lemma {:induction false} ThereIsListed(log: seq<Entry>, id: string)
    requires FileLog(log)
    ensures There(Trace(log), id) <==> Has(Serial(log).list, id)
  {
    HistoryExplains(log);
    var h, l := Trace(log), Serial(log).list;
    if Has(l, id) {
      assert Explains(h, Origins(log)[Find(l, id)], l[Find(l, id)]);
    } else {
      assert Gone(h, id);
    }
  }

  /** The answer to a request for this operation, given what happened before. */
  ghost predicate ToldFor(op: Op, h: seq<Happening>, text: string) {
    match op
    case AppendUnique(id, _) => text == if There(h, id) then "FILEEXISTS\n" else "FILECREATED\n"
    case Update(id, _) => text == if There(h, id) then "UPDATED\n" else "NOSUCHFILE\n"
    case RemoveById(id) => text == if There(h, id) then "DELETED\n" else "NOSUCHFILE\n"
    case GetById(id) =>
      if There(h, id) then
        exists w: nat :: LastWrite(h, w, id) && FileOp(h[w].op) && |WrittenBy(h[w].op)| > 0
          && text == Answers.FileContent(id, RoundTrip.ContentOf(Elem(id, WrittenBy(h[w].op))))
      else text == "NOSUCHFILE\n"
    case _ => true
  }

  /** The payload an operation brings. */
  function WrittenBy(op: Op): string {
    if op.AppendUnique? || op.Update? then op.data else ""
  }

  /** Each finished CREATE, UPDATE, DELETE and READ was told what its place in the serial order
      makes true: whether the name was there, and for a READ the content of the latest write. */
  lemma ToldTheTruth(events: seq<ServerEvent>, t: nat) returns (i: nat)
    requires Execute(INITIAL, Admit(events).schedule).Ok?
    requires var c := Reached(Admit(events).schedule); t < |c.threads| && c.threads[t].pc.Done?
    ensures var c := Reached(Admit(events).schedule);
            && i < |c.entered| && c.entered[i] == Entry(t, c.threads[t].op)
            && ToldFor(c.threads[t].op, Trace(c.entered[..i]), AnswerOf(c, t))
  {
    HistoryAskable(events);
    i := ReturnedAt(Admit(events).schedule, t);
    var c := Reached(Admit(events).schedule);
    PlaceTells(c.entered, i);
  }

  lemma {:induction false} PlaceTells(log: seq<Entry>, i: nat)
    requires FileLog(log) && i < |log| && forall k :: 0 <= k < |log| ==> RoundTrip.Askable(log[k].op)
    ensures ToldFor(log[i].op, Trace(log[..i]), Messages.Respond(log[i].op, Trace(log)[i].r))
  {
    TracePrefix(log, i);
    var op, l := log[i].op, Serial(log[..i]).list;
    if op.GetById? {
      ThereIsListed(log[..i], op.id);
      if Has(l, op.id) { ReadTells(log[..i], op.id); }
    } else if !op.GetAllIds? {
      ThereIsListed(log[..i], op.id);
      CodeTells(op, l);
    }
  }

  lemma {:induction false} CodeTells(op: Op, l: seq<Elem>)
    requires op.AppendUnique? || op.Update? || op.RemoveById?
    ensures Messages.Respond(op, Apply(op, l).1) ==
            if op.AppendUnique? then (if Has(l, op.id) then "FILEEXISTS\n" else "FILECREATED\n")
            else if op.Update? then (if Has(l, op.id) then "UPDATED\n" else "NOSUCHFILE\n")
            else (if Has(l, op.id) then "DELETED\n" else "NOSUCHFILE\n")
  {
  }

  lemma {:induction false} ReadTells(log: seq<Entry>, id: string)
    requires FileLog(log) && Has(Serial(log).list, id) && forall k :: 0 <= k < |log| ==> RoundTrip.Askable(log[k].op)
    ensures There(Trace(log), id)
    ensures ToldFor(GetById(id), Trace(log), Messages.Respond(GetById(id), Apply(GetById(id), Serial(log).list).1))
  {
    ThereIsListed(log, id);
    HistoryExplains(log);
    SerialStore(log);
    var l, h := Serial(log).list, Trace(log);
    var e, o := l[Find(l, id)], Origins(log)[Find(l, id)];
    assert Explains(h, o, e) && RoundTrip.Stored(e) && Matches(e, id);
    RoundTrip.ReadTextIs(e);
    Answers.FileJoins(id, Messages.Print(|RoundTrip.ContentOf(e)|), RoundTrip.ContentOf(e));
    TracePrefix(log, o.write);
  }
}
