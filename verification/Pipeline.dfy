/** The list as a pipeline: the chain of elements with, after each element, at most one
    operation that has reached it. Operations enter at the header, walk towards the tail and
    never overtake, so letting the pending ones run to completion, tail-most first,
    gives the state that the whole serial history would give. */
module Pipeline {
  import opened ListSpec

  /** An operation on its way through the list, with what it has accumulated so far. */
  datatype Token = Token(tid: nat, op: Op, count: nat, text: string)

  /** What an operation does on meeting one element: walk past it, stop there leaving `left`
      in its place, or take it out and go on. */
  datatype Encounter = Pass(next: Token) | Stop(left: seq<Elem>, result: Result) | Swallow

  function Meet(k: Token, e: Elem): Encounter {
    match k.op
    case Append(_, _) => Pass(k)
    case AppendUnique(id, _) => if Matches(e, id) then Stop([e], Code(1)) else Pass(k)
    case GetFirst => Stop([e], Payload(Some(e.data)))
    case GetById(id) => if Matches(e, id) then Stop([e], Payload(Some(e.data))) else Pass(k)
    case GetAllIds => Pass(k.(count := k.count + 1, text := k.text + "\n" + e.id))
    case RemoveFirst => Stop([], Void)
    case RemoveById(id) => if Matches(e, id) then Stop([], Code(0)) else Pass(k)
    case Update(id, data) => if Matches(e, id) then Stop([Elem(e.id, data)], Code(0)) else Pass(k)
    case RemoveAll => Swallow
  }

  /** What it does on reaching the end: the elements it appends and its result. */
  function Finish(k: Token): (seq<Elem>, Result) {
    match k.op
    case Append(id, data) => ([Elem(id, data)], Void)
    case AppendUnique(id, data) => ([Elem(id, data)], Code(0))
    case GetFirst => ([], Payload(None))
    case GetById(_) => ([], Payload(None))
    case GetAllIds => ([], Listing(k.count, k.text))
    case RemoveFirst => ([], Void)
    case RemoveById(_) => ([], Code(1))
    case Update(_, _) => ([], Code(1))
    case RemoveAll => ([], Void)
  }

  /** The rest of an operation, run alone on the elements still ahead of it. */
  function Through(k: Token, l: seq<Elem>): (seq<Elem>, Result)
    decreases |l|
  {
    if l == [] then Finish(k) else
      match Meet(k, l[0])
      case Pass(k') => var (rest, r) := Through(k', l[1..]); ([l[0]] + rest, r)
      case Stop(left, r) => (left + l[1..], r)
      case Swallow => Through(k, l[1..])
  }

  function Start(t: nat, op: Op): Token {
    Token(t, op, 0, "")
  }

  /** Walking the list element by element is the operation as specified on whole lists. */
  lemma ThroughIsApply(t: nat, op: Op, l: seq<Elem>)
    ensures Through(Start(t, op), l) == Apply(op, l)
  {
    if op.GetAllIds? {
      ThroughCollects(Start(t, op), l);
      assert "" + IdText(l) == IdText(l);
    } else {
      ThroughWalks(Start(t, op), l);
    }
  }

  lemma {:induction false} ThroughCollects(k: Token, l: seq<Elem>)
    requires k.op.GetAllIds?
    ensures Through(k, l) == (l, Listing(k.count + |l|, k.text + IdText(l)))
    decreases |l|
  {
    if l == [] {
      assert k.text + "" == k.text;
    } else {
      ThroughCollects(Meet(k, l[0]).next, l[1..]);
      assert [l[0]] + l[1..] == l;
      assert k.text + "\n" + l[0].id + IdText(l[1..]) == k.text + ("\n" + l[0].id + IdText(l[1..]));
    }
  }

  lemma {:induction false} ThroughWalks(k: Token, l: seq<Elem>)
    requires !k.op.GetAllIds?
    ensures Through(k, l) == Apply(k.op, l)
    decreases |l|
  {
    if l == [] {
      assert l + Finish(k).0 == Finish(k).0;
    } else {
      match Meet(k, l[0])
      case Pass(k') =>
        ThroughWalks(k', l[1..]);
        PassedOver(k.op, l);
      case Stop(left, r) => StoppedHere(k, l);
      case Swallow => ThroughWalks(k, l[1..]);
    }
  }

  lemma StoppedHere(k: Token, l: seq<Elem>)
    requires l != [] && Meet(k, l[0]).Stop?
    ensures Apply(k.op, l) == (Meet(k, l[0]).left + l[1..], Meet(k, l[0]).result)
  {
    HeadSplit(l);
    if Searches(k.op) { HeadFound(l, k.op.id); }
  }

  /** useElementByID is used by these. */
  predicate Searches(op: Op) {
    op.AppendUnique? || op.GetById? || op.RemoveById? || op.Update?
  }

  lemma HeadFound(l: seq<Elem>, id: string)
    requires l != [] && Matches(l[0], id)
    ensures Find(l, id) == 0
  {}

  lemma HeadSplit(l: seq<Elem>)
    requires l != []
    ensures l == [l[0]] + l[1..] && l[..0] + l[1..] == [] + l[1..] == l[1..]
    ensures forall e :: l[0 := e] == [e] + l[1..]
  {}

  /** An operation that walks past the head does to the whole list what it does to the tail. */
  lemma PassedOver(op: Op, l: seq<Elem>)
    requires l != [] && !op.GetAllIds? && Meet(Start(0, op), l[0]).Pass?
    ensures Apply(op, l) == ([l[0]] + Apply(op, l[1..]).0, Apply(op, l[1..]).1)
  {
    var h, t := l[0], l[1..];
    assert l == [h] + t;
    match op
    case Append(id, data) =>
      assert l + [Elem(id, data)] == [h] + (t + [Elem(id, data)]);
    case AppendUnique(id, data) =>
      assert l + [Elem(id, data)] == [h] + (t + [Elem(id, data)]);
    case GetById(id) =>
    case RemoveById(id) => RemovedLater(h, t, id);
    case Update(id, data) =>
      var i := Find(t, id);
      if i < |t| { assert l[i + 1 := Elem(id, data)] == [h] + t[i := Elem(id, data)]; }
  }

  lemma RemovedLater(h: Elem, t: seq<Elem>, id: string)
    requires !Matches(h, id)
    ensures Apply(RemoveById(id), [h] + t) ==
            ([h] + Apply(RemoveById(id), t).0, Apply(RemoveById(id), t).1)
  {
    var l := [h] + t;
    assert l[1..] == t;
    var i := Find(t, id);
    assert Find(l, id) == i + 1;
    if i < |t| {
      assert l[..i + 1] == [h] + t[..i];
      assert l[i + 2..] == t[i + 1..];
      assert [h] + t[..i] + t[i + 1..] == [h] + (t[..i] + t[i + 1..]);
    }
  }

  /** A place in the chain. Station 0 is the list header; its `elem` is a placeholder. */
  datatype Station = Station(elem: Elem, tok: Option<Token>)

  datatype Pipe = Pipe(stations: seq<Station>, done: map<nat, Result>)

  /** Everything pending from here to the tail run to completion. */
  function Drain(s: seq<Station>): Outcome {
    if s == [] then Outcome([], map[]) else
      var rest := Drain(s[1..]);
      match s[0].tok
      case None => Outcome([s[0].elem] + rest.list, rest.results)
      case Some(k) =>
        var (l, r) := Through(k, rest.list);
        Outcome([s[0].elem] + l, rest.results[k.tid := r])
  }

  lemma {:induction false} DrainHeader(s: seq<Station>)
    requires s != []
    ensures Drain(s).list != [] && Drain(s).list[0] == s[0].elem
  {
  }

  /** The list and all results once every operation that has entered is done. */
  function Total(p: Pipe): Outcome
    requires p.stations != []
  {
    DrainHeader(p.stations);
    var d := Drain(p.stations);
    Outcome(d.list[1..], p.done + d.results)
  }

  /** What one step of one operation can do to the pipeline. */
  datatype Move =
    | Stay
    | Enter(tid: nat, op: Op)
    | PassOn(at: nat)
    | StopAt(at: nat)
    | SwallowAt(at: nat)
    | FinishAt(at: nat)

  ghost predicate Alone(s: seq<Station>, i: nat)
    requires i < |s| && s[i].tok.Some?
  {
    forall j :: 0 <= j < |s| && j != i && s[j].tok.Some? ==> s[j].tok.value.tid != s[i].tok.value.tid
  }

  ghost predicate Enabled(p: Pipe, m: Move) {
    var s := p.stations;
    && s != []
    && match m
       case Stay => true
       case Enter(_, _) => s[0].tok.None?
       case PassOn(i) =>
         && i + 1 < |s| && s[i].tok.Some? && s[i + 1].tok.None?
         && Meet(s[i].tok.value, s[i + 1].elem).Pass?
       case StopAt(i) =>
         && i + 1 < |s| && s[i].tok.Some? && Alone(s, i)
         && var e := Meet(s[i].tok.value, s[i + 1].elem);
            && e.Stop?
            && (|e.left| == 1 || (e.left == [] && s[i + 1].tok.None?))
       case SwallowAt(i) =>
         && i + 1 < |s| && s[i].tok.Some? && s[i + 1].tok.None?
         && Meet(s[i].tok.value, s[i + 1].elem).Swallow?
       case FinishAt(i) =>
         && i + 1 == |s| && s[i].tok.Some? && Alone(s, i)
         && |Finish(s[i].tok.value).0| <= 1
  }

  ghost function After(p: Pipe, m: Move): Pipe
    requires Enabled(p, m)
  {
    var s := p.stations;
    match m
    case Stay => p
    case Enter(t, op) => p.(stations := s[0 := s[0].(tok := Some(Start(t, op)))])
    case PassOn(i) =>
      var k := Meet(s[i].tok.value, s[i + 1].elem).next;
      p.(stations := s[i := s[i].(tok := None)][i + 1 := s[i + 1].(tok := Some(k))])
    case StopAt(i) =>
      var k := s[i].tok.value;
      var e := Meet(k, s[i + 1].elem);
      Pipe(
        if e.left == [] then s[..i] + [s[i].(tok := None)] + s[i + 2..]
        else s[i := s[i].(tok := None)][i + 1 := s[i + 1].(elem := e.left[0])],
        p.done[k.tid := e.result])
    case SwallowAt(i) => p.(stations := s[..i + 1] + s[i + 2..])
    case FinishAt(i) =>
      var k := s[i].tok.value;
      var (app, r) := Finish(k);
      Pipe(
        s[..i] + [s[i].(tok := None)] + (if app == [] then [] else [Station(app[0], None)]),
        p.done[k.tid := r])
  }

  /** Draining looks at a prefix only through what the rest drains to. */
  lemma {:induction false} DrainPrefix(pre: seq<Station>, a: seq<Station>, b: seq<Station>)
    requires Drain(a) == Drain(b)
    ensures Drain(pre + a) == Drain(pre + b)
  {
    if pre == [] {
      assert pre + a == a && pre + b == b;
    } else {
      DrainPrefix(pre[1..], a, b);
      assert (pre + a)[1..] == pre[1..] + a;
      assert (pre + b)[1..] == pre[1..] + b;
    }
  }

  /** Two rests with the same list and the same results except for `t`: so are the wholes. */
  lemma {:induction false} DrainPrefixRetire(pre: seq<Station>, a: seq<Station>, b: seq<Station>, t: nat, r: Result)
    requires Drain(a).list == Drain(b).list
    requires Drain(a).results == Drain(b).results[t := r]
    requires forall j :: 0 <= j < |pre| && pre[j].tok.Some? ==> pre[j].tok.value.tid != t
    ensures Drain(pre + a).list == Drain(pre + b).list
    ensures Drain(pre + a).results == Drain(pre + b).results[t := r]
  {
    if pre == [] {
      assert pre + a == a && pre + b == b;
    } else {
      DrainPrefixRetire(pre[1..], a, b, t, r);
      assert (pre + a)[1..] == pre[1..] + a;
      assert (pre + b)[1..] == pre[1..] + b;
    }
  }

  lemma {:induction false} DrainOwners(s: seq<Station>, t: nat)
    requires forall j :: 0 <= j < |s| && s[j].tok.Some? ==> s[j].tok.value.tid != t
    ensures t !in Drain(s).results
  {
    if s != [] { DrainOwners(s[1..], t); }
  }

  /** Every move but entering leaves the total as it is: the results and the final list are
      already settled when an operation enters. */
  lemma MoveKeepsTotal(p: Pipe, m: Move)
    requires Enabled(p, m) && !m.Enter?
    ensures After(p, m).stations != [] && Total(After(p, m)) == Total(p)
  {
    match m
    case Stay =>
    case PassOn(i) => PassKeepsTotal(p, i);
    case StopAt(i) => StopKeepsTotal(p, i);
    case SwallowAt(i) => SwallowKeepsTotal(p, i);
    case FinishAt(i) => FinishKeepsTotal(p, i);
  }

  lemma PassKeepsTotal(p: Pipe, i: nat)
    requires Enabled(p, PassOn(i))
    ensures Total(After(p, PassOn(i))) == Total(p)
  {
    var s, s' := p.stations, After(p, PassOn(i)).stations;
    var rest := s[i + 2..];
    assert s == s[..i] + ([s[i], s[i + 1]] + rest);
    assert s' == s[..i] + ([s'[i], s'[i + 1]] + rest);
    PassTwo(s[i], s[i + 1], s'[i], s'[i + 1], rest);
    DrainPrefix(s[..i], [s[i], s[i + 1]] + rest, [s'[i], s'[i + 1]] + rest);
  }

  lemma PassTwo(x: Station, y: Station, x': Station, y': Station, rest: seq<Station>)
    requires x.tok.Some? && y.tok.None? && Meet(x.tok.value, y.elem).Pass?
    requires x' == x.(tok := None) && y' == y.(tok := Some(Meet(x.tok.value, y.elem).next))
    ensures Drain([x', y'] + rest) == Drain([x, y] + rest)
  {
    DrainTwo(x, y, rest);
    DrainTwo(x', y', rest);
    assert ([y.elem] + Drain(rest).list)[1..] == Drain(rest).list;
  }

  lemma DrainOne(a: Station, rest: seq<Station>)
    ensures Drain([a] + rest) ==
            match a.tok
            case None => Outcome([a.elem] + Drain(rest).list, Drain(rest).results)
            case Some(k) => var (l, r) := Through(k, Drain(rest).list);
                            Outcome([a.elem] + l, Drain(rest).results[k.tid := r])
  {
    assert ([a] + rest)[1..] == rest;
  }

  lemma DrainTwo(a: Station, b: Station, rest: seq<Station>)
    ensures Drain([a, b] + rest) == Drain([a] + ([b] + rest))
    ensures Drain([b] + rest) ==
            match b.tok
            case None => Outcome([b.elem] + Drain(rest).list, Drain(rest).results)
            case Some(k) => var (l, r) := Through(k, Drain(rest).list);
                            Outcome([b.elem] + l, Drain(rest).results[k.tid := r])
    ensures Drain([a, b] + rest) ==
            match a.tok
            case None => Outcome([a.elem] + Drain([b] + rest).list, Drain([b] + rest).results)
            case Some(k) => var (l, r) := Through(k, Drain([b] + rest).list);
                            Outcome([a.elem] + l, Drain([b] + rest).results[k.tid := r])
  {
    assert [a, b] + rest == [a] + ([b] + rest);
    DrainOne(b, rest);
    DrainOne(a, [b] + rest);
  }

  /** One operation's result moves from the pending ones to the settled ones. */
  lemma RetireTotal(p: Pipe, p': Pipe, pre: seq<Station>, a: seq<Station>, b: seq<Station>, t: nat, r: Result)
    requires p.stations == pre + a && p'.stations == pre + b
    requires p'.done == p.done[t := r]
    requires a != [] && b != [] && a[0].elem == b[0].elem
    requires Drain(a).list == Drain(b).list
    requires Drain(a).results == Drain(b).results[t := r]
    requires forall j :: 0 <= j < |pre| && pre[j].tok.Some? ==> pre[j].tok.value.tid != t
    requires forall j :: 0 <= j < |b| && b[j].tok.Some? ==> b[j].tok.value.tid != t
    ensures Total(p') == Total(p)
  {
    DrainPrefixRetire(pre, a, b, t, r);
    NotAmong(pre, b, t);
    MoveUpdate(p.done, Drain(pre + b).results, t, r);
  }

  lemma NotAmong(pre: seq<Station>, b: seq<Station>, t: nat)
    requires forall j :: 0 <= j < |pre| && pre[j].tok.Some? ==> pre[j].tok.value.tid != t
    requires forall j :: 0 <= j < |b| && b[j].tok.Some? ==> b[j].tok.value.tid != t
    ensures t !in Drain(pre + b).results
  {
    DrainOwners(pre + b, t);
  }

  lemma MoveUpdate(m: map<nat, Result>, n: map<nat, Result>, t: nat, r: Result)
    requires t !in n
    ensures m + n[t := r] == m[t := r] + n
  {
  }

  lemma StopKeepsTotal(p: Pipe, i: nat)
    requires Enabled(p, StopAt(i))
    ensures After(p, StopAt(i)).stations != [] && Total(After(p, StopAt(i))) == Total(p)
  {
    if Meet(p.stations[i].tok.value, p.stations[i + 1].elem).left == [] {
      StopRemoving(p, i);
    } else {
      StopReplacing(p, i);
    }
  }

  lemma StopRemoving(p: Pipe, i: nat)
    requires Enabled(p, StopAt(i)) && Meet(p.stations[i].tok.value, p.stations[i + 1].elem).left == []
    ensures After(p, StopAt(i)).stations != [] && Total(After(p, StopAt(i))) == Total(p)
  {
    var s, p' := p.stations, After(p, StopAt(i));
    var e := Meet(s[i].tok.value, s[i + 1].elem);
    var rest := s[i + 2..];
    var a := [s[i], s[i + 1]] + rest;
    assert s == s[..i] + a;
    DrainTwo(s[i], s[i + 1], rest);
    assert ([s[i + 1].elem] + Drain(rest).list)[1..] == Drain(rest).list;
    var b := [s[i].(tok := None)] + rest;
    assert p'.stations == s[..i] + b;
    DrainOne(s[i].(tok := None), rest);
    forall j | 0 <= j < |b| && b[j].tok.Some? ensures b[j].tok.value.tid != s[i].tok.value.tid {
      assert b[j] == s[i + 1 + j];
    }
    RetireTotal(p, p', s[..i], a, b, s[i].tok.value.tid, e.result);
  }

  lemma StopReplacing(p: Pipe, i: nat)
    requires Enabled(p, StopAt(i)) && Meet(p.stations[i].tok.value, p.stations[i + 1].elem).left != []
    ensures After(p, StopAt(i)).stations != [] && Total(After(p, StopAt(i))) == Total(p)
  {
    var s, p' := p.stations, After(p, StopAt(i));
    var k := s[i].tok.value;
    var e := Meet(k, s[i + 1].elem);
    var x, y := s[i].(tok := None), s[i + 1].(elem := e.left[0]);
    var rest := s[i + 2..];
    UpdateTwo(s, i, x, y);
    AheadReplaced(s[i + 1], y, rest);
    DrainOne(s[i], [s[i + 1]] + rest);
    DrainOne(x, [y] + rest);
    var b := [x] + ([y] + rest);
    forall j | 0 <= j < |b| && b[j].tok.Some? ensures b[j].tok.value.tid != k.tid {
      assert j > 0 && b[j].tok == s[i + j].tok;
    }
    RetireTotal(p, p', s[..i], [s[i]] + ([s[i + 1]] + rest), b, k.tid, e.result);
  }

  lemma UpdateTwo(s: seq<Station>, i: nat, x: Station, y: Station)
    requires i + 1 < |s|
    ensures s == s[..i] + ([s[i]] + ([s[i + 1]] + s[i + 2..]))
    ensures s[i := x][i + 1 := y] == s[..i] + ([x] + ([y] + s[i + 2..]))
  {
  }

  lemma AheadReplaced(a: Station, a': Station, rest: seq<Station>)
    requires a.tok == a'.tok
    ensures Drain([a] + rest).results == Drain([a'] + rest).results
    ensures Drain([a] + rest).list != [] && Drain([a] + rest).list[0] == a.elem
    ensures Drain([a'] + rest).list == [a'.elem] + Drain([a] + rest).list[1..]
  {
    DrainOne(a, rest);
    DrainOne(a', rest);
  }

  lemma SwallowKeepsTotal(p: Pipe, i: nat)
    requires Enabled(p, SwallowAt(i))
    ensures Total(After(p, SwallowAt(i))) == Total(p)
  {
    var s, s' := p.stations, After(p, SwallowAt(i)).stations;
    var rest := s[i + 2..];
    assert s == s[..i] + ([s[i], s[i + 1]] + rest);
    assert s' == s[..i] + ([s[i]] + rest);
    DrainTwo(s[i], s[i + 1], rest);
    DrainOne(s[i], rest);
    assert ([s[i + 1].elem] + Drain(rest).list)[1..] == Drain(rest).list;
    DrainPrefix(s[..i], [s[i], s[i + 1]] + rest, [s[i]] + rest);
  }

  lemma FinishKeepsTotal(p: Pipe, i: nat)
    requires Enabled(p, FinishAt(i))
    ensures After(p, FinishAt(i)).stations != [] && Total(After(p, FinishAt(i))) == Total(p)
  {
    var s, p' := p.stations, After(p, FinishAt(i));
    var (app, r) := Finish(s[i].tok.value);
    var tail := if app == [] then [] else [Station(app[0], None)];
    assert s == s[..i] + [s[i]];
    assert [s[i]] + [] == [s[i]];
    DrainOne(s[i], []);
    var b := [s[i].(tok := None)] + tail;
    assert p'.stations == s[..i] + b;
    DrainOne(s[i].(tok := None), tail);
    assert Drain(tail) == Outcome(app, map[]) by {
      if app != [] { assert tail[1..] == []; assert [app[0]] + [] == app; }
    }
    RetireTotal(p, p', s[..i], [s[i]], b, s[i].tok.value.tid, r);
  }

  /** Entering appends the operation to the serial history. */
  lemma EnterExtendsTotal(p: Pipe, t: nat, op: Op)
    requires Enabled(p, Enter(t, op))
    ensures var (l, r) := Apply(op, Total(p).list);
            Total(After(p, Enter(t, op))) == Outcome(l, Total(p).results[t := r])
  {
    var s, s' := p.stations, After(p, Enter(t, op)).stations;
    assert s == [s[0]] + s[1..] && s' == [s'[0]] + s[1..];
    DrainOne(s[0], s[1..]);
    DrainOne(s'[0], s[1..]);
    ThroughIsApply(t, op, Drain(s[1..]).list);
    var r := Apply(op, Drain(s[1..]).list).1;
    assert p.done + Drain(s[1..]).results[t := r] == (p.done + Drain(s[1..]).results)[t := r];
  }
}
