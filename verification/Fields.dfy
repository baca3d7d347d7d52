/** The fields of a message come in order: filename, length, content. Which actions can follow
    which, and when the loop must have returned. */
module Fields {
  import opened Grammar
  import opened Language

  /** How many fields are closed before this one is read. */
  function Index(f: FieldKind): nat {
    match f case Filename => 0 case Length => 1 case Content => 2
  }

  /** After `n` fields, the expression reads the others in order, and no literal ends a message. */
  ghost predicate Ordered(re: Re, n: nat) {
    match re
    case Nothing | Done | Last(_, _) => true
    case Chr(_, rest) => !rest.More? && !rest.Done? && Ordered(rest, n)
    case Field(f, rest) => n == Index(f) && (rest.Chr? || rest.Last?) && Ordered(rest, n + 1)
    case More(f, rest) => n == Index(f) && (rest.Chr? || rest.Last?) && Ordered(rest, n + 1)
    case Or(a, b) => Diverge(a, b) && Ordered(a, n) && Ordered(b, n)
  }

  predicate Plain(re: Re) {
    !re.More? && !re.Done?
  }

  /** The lists of actions that a transition to `next` can have after `n` fields. */
  ghost predicate Legal(acts: seq<Action>, next: Re, n: nat) {
    if acts == [] then Plain(next) && Ordered(next, n)
    else match acts[0]
      case Init => next.More? && n == Index(next.f) && acts == [Init, Append(next.f)] && Ordered(next, n)
      case Append(f) => next.More? && n == Index(f) && f == next.f && |acts| == 1 && Ordered(next, n)
      case Term(f) => n == Index(f) && ((|acts| == 1 && Plain(next) && Ordered(next, n + 1)) || (|acts| == 2 && acts[1].Return?))
      case Return(_) => |acts| == 1
  }

  lemma {:induction false} StepLegal(re: Re, n: nat, c: char)
    requires Deterministic(re) && Ordered(re, n) && Starts(re, c)
    ensures Legal(Derive(re, c).acts, Derive(re, c).next, n)
  {
    match re
    case Nothing | Done | Last(_, _) | Chr(_, _) | Field(_, _) =>
    case More(f, rest) =>
      if !InClass(f, c) { assert ([Term(f)] + Derive(rest, c).acts)[0] == Term(f); }
    case Or(a, b) =>
      if Starts(a, c) { StepLegal(a, n, c); }
      if Starts(b, c) { StepLegal(b, n, c); }
      if Starts(a, c) && Starts(b, c) { BothGoOn(a, b, c); }
  }

  lemma {:induction false} LitOrdered(w: string, rest: Re, n: nat)
    requires Ordered(rest, n) && Plain(rest)
    ensures Ordered(Lit(w, rest), n) && Plain(Lit(w, rest))
  {
    if w != "" { LitOrdered(w[1..], rest, n); }
  }

  lemma {:induction false} AnyOfOrdered(cmds: seq<Command>)
    requires cmds != [] && forall i, j :: 0 <= i < j < |cmds| ==> cmds[i] != cmds[j]
    ensures Ordered(AnyOf(cmds), 0)
  {
    var init, last := cmds[..|cmds| - 1], cmds[|cmds| - 1];
    TailOrdered(last);
    LitOrdered(Keyword(last), Tail(last), 0);
    if |cmds| > 1 {
      AnyOfOrdered(init);
      AnyOfDiverges(init, last);
    }
  }

  lemma TailOrdered(cmd: Command)
    ensures Ordered(Tail(cmd), 0) && Plain(Tail(cmd))
  {
    assert Ordered(ContentPart(cmd), 2);
    assert Ordered(LengthPart(cmd), 1);
  }

  /** The reading of every message starts in order. */
  lemma MainOrdered()
    ensures Deterministic(Definition()) && Ordered(Definition(), 0)
  {
    AnyOfDeterministic(ALTERNATIVES);
    AnyOfOrdered(ALTERNATIVES);
  }
}
