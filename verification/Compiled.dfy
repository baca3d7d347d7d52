/** The table machine and the grammar walk in step: each state stands for the part of the
    expression that is left, and each transition for a derivative. */
module Compiled {
  import opened Grammar
  import opened Tables
  import opened Generated

  /** The command that an action list returns for, if it ends in one. */
  function Returns(off: int): (cmd: Command) {
    match off
    case 13 => Special
    case 15 => Update
    case 18 => Create
    case 21 => Read
    case 24 => Delete
    case _ => List
  }

  /** What is left of the grammar in state `q`, read off the rules from the back. */
  function Residual(q: nat): Re
    decreases 48 - q
  {
    match RuleOf(q)
    case Dead => if q == 48 then Done else Nothing
    case Branch(_) => if q == 1 then Definition() else Or(Chr('d', Residual(14)), Chr('R', Residual(3)))
    case Letter(c, next, act) => After(q, c, next, act)
    case Enter(f, next, _) =>
      var r := RuleOf(next);
      if r.Inside? && q < next then Field(f, After(next, r.c, r.next, r.act)) else Nothing
    case Inside(f, _, c, next, act) => More(f, After(q, c, next, act))
  }

  /** Leaving a keyword's letter or a field by `c`. */
  function After(q: nat, c: char, next: nat, act: int): Re
    decreases 48 - q, 0
  {
    if next == 48 then Last(c, Returns(act)) else if q < next < 48 then Chr(c, Residual(next)) else Nothing
  }

  /** The actions of a rule are those that the grammar embeds at its place. */
  ghost predicate WellFormed(q: nat, rule: Rule) {
    match rule
    case Dead => q == 0 || q >= 48
    case Branch(_) => q == 1 || q == 2
    case Letter(c, next, act) =>
      ListOf(act) == (if next == 48 then [Return(Returns(act))] else []) && q < next <= 48 && (next < 48 ==> act == 0)
    case Enter(f, next, act) =>
      ListOf(act) == [Init, Append(f)] && q < next && RuleOf(next).Inside? && RuleOf(next).f == f
    case Inside(f, stay, c, next, act) =>
      ListOf(stay) == [Append(f)] && !InClass(f, c) && q < next <= 48
      && ListOf(act) == [Term(f)] + (if next == 48 then [Return(Returns(act))] else [])
  }

  lemma FirstRulesWellFormed(q: nat)
    requires q <= 24
    ensures WellFormed(q, RuleOf(q))
  {}

  lemma LastRulesWellFormed(q: nat)
    requires 24 < q
    ensures WellFormed(q, RuleOf(q))
  {}

  lemma RulesWellFormed(q: nat)
    ensures WellFormed(q, RuleOf(q))
  {
    if q <= 24 { FirstRulesWellFormed(q); } else { LastRulesWellFormed(q); }
  }

  /** The rule's transition on `c` is the derivative of what is left. */
  ghost predicate InStep(q: nat, c: char) {
    var (next, off) := Follow(q, RuleOf(q), c as int);
    Derive(Residual(q), c) == Move(Residual(next), ListOf(off))
  }

  lemma AfterInStep(q: nat, d: char, next: nat, act: int, c: char)
    requires q < next <= 48
    ensures Derive(After(q, d, next, act), c)
         == if c != d then Move(Nothing, [])
            else Move(Residual(next), if next == 48 then [Return(Returns(act))] else [])
  {}

  lemma LetterInStep(q: nat, c: char)
    requires WellFormed(q, RuleOf(q)) && RuleOf(q).Letter?
    ensures InStep(q, c)
  {
    var Letter(d, next, act) := RuleOf(q);
    AfterInStep(q, d, next, act, c);
  }

  lemma ClassRange(f: FieldKind, c: char)
    ensures InClass(f, c) <==> First(f) as int <= c as int <= Final(f) as int
  {}

  lemma EnterInStep(q: nat, c: char)
    requires WellFormed(q, RuleOf(q)) && RuleOf(q).Enter?
    ensures InStep(q, c)
  {
    var Enter(f, next, act) := RuleOf(q);
    ClassRange(f, c);
  }

  lemma MoreDerives(f: FieldKind, rest: Re, c: char)
    ensures Derive(More(f, rest), c)
         == if InClass(f, c) then Move(More(f, rest), [Append(f)])
            else if Starts(rest, c) then Move(Derive(rest, c).next, [Term(f)] + Derive(rest, c).acts)
            else Move(Nothing, [])
  {}

  lemma MoreInStep(f: FieldKind, q: nat, d: char, next: nat, act: int, c: char)
    requires q < next <= 48 && !InClass(f, d) && !Residual(next).Nothing?
    ensures Derive(More(f, After(q, d, next, act)), c)
         == if InClass(f, c) then Move(More(f, After(q, d, next, act)), [Append(f)])
            else if c == d then Move(Residual(next), [Term(f)] + if next == 48 then [Return(Returns(act))] else [])
            else Move(Nothing, [])
  {
    MoreDerives(f, After(q, d, next, act), c);
    AfterInStep(q, d, next, act, c);
  }

  /** There is something left in every state but the error state. */
  lemma Something(q: nat)
    requires 1 <= q <= 48
    ensures !Residual(q).Nothing?
  {
    RulesWellFormed(q);
    match RuleOf(q)
    case Branch(_) => StartIsOr();
    case _ =>
  }

  lemma StartIsOr()
    ensures Definition().Or?
  {}

  lemma InsideInStep(q: nat, c: char)
    requires WellFormed(q, RuleOf(q)) && RuleOf(q).Inside?
    ensures InStep(q, c)
  {
    var Inside(f, stay, d, next, act) := RuleOf(q);
    ClassRange(f, c);
    Something(next);
    MoreInStep(f, q, d, next, act, c);
  }

  // ----- the keywords

  lemma LitStep(w: string, n: nat, rest: Re)
    requires n < |w|
    ensures Lit(w[n..], rest) == Chr(w[n], Lit(w[n + 1..], rest))
  {
    assert w[n..][1..] == w[n + 1..];
  }

  /** A run of letter states spells a literal. */
  lemma {:induction false} LettersSpell(rs: seq<Re>, w: string, n: nat)
    requires |rs| == |w| + 1 && n <= |w| && forall i :: 0 <= i < |w| ==> rs[i] == Chr(w[i], rs[i + 1])
    ensures rs[n] == Lit(w[n..], rs[|w|])
    decreases |w| - n
  {
    if n < |w| {
      LettersSpell(rs, w, n + 1);
      LitStep(w, n, rs[|w|]);
    } else {
      assert w[n..] == "";
    }
  }

  lemma AfterLetter(q: nat, c: char)
    requires q < 47 && RuleOf(q) == Letter(c, q + 1, 0)
    ensures Residual(q) == Chr(c, Residual(q + 1))
  {}

  lemma SpellsFrom(q: nat, w: string)
    requires q + |w| < 48 && forall i :: 0 <= i < |w| ==> RuleOf(q + i) == Letter(w[i], q + i + 1, 0)
    ensures Residual(q) == Lit(w, Residual(q + |w|))
  {
    var rs := seq(|w| + 1, i requires 0 <= i <= |w| => Residual(q + i));
    forall i | 0 <= i < |w| ensures rs[i] == Chr(w[i], rs[i + 1]) {
      AfterLetter(q + i, w[i]);
    }
    LettersSpell(rs, w, 0);
    assert w[0..] == w;
  }

  /** The residual of a state that enters a field. */
  lemma EnterResidual(q: nat, f: FieldKind, next: nat, act: int, stay: int, c: char, onward: nat, leave: int)
    requires RuleOf(q) == Enter(f, next, act) && RuleOf(next) == Inside(f, stay, c, onward, leave) && q < next
    ensures Residual(q) == Field(f, After(next, c, onward, leave))
  {}

  lemma AfterIs(q: nat, c: char, next: nat, act: int)
    requires q < next <= 48
    ensures After(q, c, next, act) == if next == 48 then Last(c, Returns(act)) else Chr(c, Residual(next))
  {}

  lemma CreateTail()
    ensures Residual(8) == WritePart(Create)
  {
    EnterResidual(12, Content, 13, 27, 1, '\n', 48, 18);
    AfterIs(13, '\n', 48, 18);
    EnterResidual(10, Length, 11, 33, 7, '\n', 12, 9);
    AfterIs(11, '\n', 12, 9);
    EnterResidual(8, Filename, 9, 30, 3, ' ', 10, 5);
    AfterIs(9, ' ', 10, 5);
  }

  lemma UpdateTail()
    ensures Residual(42) == WritePart(Update)
  {
    EnterResidual(46, Content, 47, 27, 1, '\n', 48, 15);
    AfterIs(47, '\n', 48, 15);
    EnterResidual(44, Length, 45, 33, 7, '\n', 46, 9);
    AfterIs(45, '\n', 46, 9);
    EnterResidual(42, Filename, 43, 30, 3, ' ', 44, 5);
    AfterIs(43, ' ', 44, 5);
  }

  lemma DeleteTail()
    ensures Residual(24) == NamePart(Delete)
  {
    EnterResidual(24, Filename, 25, 30, 3, '\n', 48, 24);
    AfterIs(25, '\n', 48, 24);
  }

  lemma ReadTail()
    ensures Residual(34) == NamePart(Read)
  {
    EnterResidual(34, Filename, 35, 30, 3, '\n', 48, 21);
    AfterIs(35, '\n', 48, 21);
  }

  lemma LetterResidual(q: nat, c: char, next: nat, act: int)
    requires RuleOf(q) == Letter(c, next, act)
    ensures Residual(q) == After(q, c, next, act)
  {}

  lemma BareTails()
    ensures Residual(17) == Last('\n', Special) && Residual(29) == Last('\n', List)
  {
    LetterResidual(17, '\n', 48, 13);
    AfterIs(17, '\n', 48, 13);
    LetterResidual(29, '\n', 48, 11);
    AfterIs(29, '\n', 48, 11);
  }

  lemma CreateSpelled()
    ensures Residual(3) == Lit("EATE ", WritePart(Create))
  {
    SpellsFrom(3, "EATE ");
    CreateTail();
  }

  lemma UpdateSpelled()
    ensures Residual(36) == Lit("PDATE ", WritePart(Update))
  {
    SpellsFrom(36, "PDATE ");
    UpdateTail();
  }

  lemma NamesSpelled()
    ensures Residual(18) == Lit("ELETE ", NamePart(Delete)) && Residual(30) == Lit("EAD ", NamePart(Read))
  {
    SpellsFrom(18, "ELETE ");
    SpellsFrom(30, "EAD ");
    DeleteTail();
    ReadTail();
  }

  lemma BareSpelled()
    ensures Residual(14) == Lit("ist", Last('\n', Special)) && Residual(26) == Lit("IST", Last('\n', List))
  {
    SpellsFrom(14, "ist");
    SpellsFrom(26, "IST");
    BareTails();
  }

  // ----- the start

  /** A command once the first letter of its keyword is read. */
  function Second(cmd: Command): Re {
    Lit(Keyword(cmd)[1..], Tail(cmd))
  }

  lemma SecondResiduals()
    ensures Second(List) == Residual(26) && Second(Read) == Residual(30)
    ensures Second(Update) == Residual(36) && Second(Delete) == Residual(18)
  {
    BareSecond();
    NamedSecond();
    UpdateSpelled();
    assert "UPDATE "[1..] == "PDATE ";
  }

  lemma BareSecond()
    ensures Second(List) == Residual(26)
  {
    BareSpelled();
    assert "LIST"[1..] == "IST";
  }

  lemma NamedSecond()
    ensures Second(Read) == Residual(30) && Second(Delete) == Residual(18)
  {
    NamesSpelled();
    assert "READ "[1..] == "EAD " && "DELETE "[1..] == "ELETE ";
  }

  lemma SharedResidual()
    ensures Or(Second(Special), Second(Create)) == Residual(2)
  {
    CreateSpelled();
    BareSpelled();
    assert "Cdist"[1..] == "dist" && "CREATE "[1..] == "REATE ";
    assert "dist"[1..] == "ist" && "REATE "[1..] == "EATE ";
  }

  lemma FirstLetter(cmd: Command, c: char)
    ensures Derive(Sentence(cmd), c) == if c == Keyword(cmd)[0] then Move(Second(cmd), []) else Move(Nothing, [])
  {}

  lemma OrDerivesLeft(a: Re, b: Re, c: char)
    requires !Starts(b, c)
    ensures Derive(Or(a, b), c) == Derive(a, c)
  {}

  lemma OrDerivesRight(a: Re, b: Re, c: char)
    requires !Starts(a, c)
    ensures Derive(Or(a, b), c) == Derive(b, c)
  {}

  /** The alternatives before the last one, and the last one, on one character. */
  lemma DeriveSplit(cmds: seq<Command>, c: char)
    requires |cmds| > 1
    ensures var init, last := cmds[..|cmds| - 1], cmds[|cmds| - 1];
            && (Keyword(last)[0] != c ==> Derive(AnyOf(cmds), c) == Derive(AnyOf(init), c))
            && (Keyword(last)[0] == c && !Starts(AnyOf(init), c) ==> Derive(AnyOf(cmds), c) == Move(Second(last), []))
  {
    var init, last := cmds[..|cmds| - 1], cmds[|cmds| - 1];
    FirstLetter(last, c);
    if Keyword(last)[0] != c { OrDerivesLeft(AnyOf(init), Sentence(last), c); }
    else if !Starts(AnyOf(init), c) { OrDerivesRight(AnyOf(init), Sentence(last), c); }
  }

  lemma {:induction false} DeriveNone(cmds: seq<Command>, c: char)
    requires cmds != [] && forall i :: 0 <= i < |cmds| ==> Keyword(cmds[i])[0] != c
    ensures Derive(AnyOf(cmds), c) == Move(Nothing, [])
  {
    if |cmds| == 1 {
      FirstLetter(cmds[0], c);
    } else {
      DeriveSplit(cmds, c);
      DeriveNone(cmds[..|cmds| - 1], c);
    }
  }

  lemma {:induction false} DeriveOne(cmds: seq<Command>, n: nat, c: char)
    requires n < |cmds| && Keyword(cmds[n])[0] == c
    requires forall i :: 0 <= i < |cmds| && i != n ==> Keyword(cmds[i])[0] != c
    ensures Derive(AnyOf(cmds), c) == Move(Second(cmds[n]), [])
  {
    if |cmds| == 1 {
      FirstLetter(cmds[0], c);
    } else {
      DeriveSplit(cmds, c);
      if n < |cmds| - 1 { DeriveOne(cmds[..|cmds| - 1], n, c); } else { DeriveNone(cmds[..|cmds| - 1], c); }
    }
  }

  lemma DeriveShared()
    ensures Derive(Definition(), 'C') == Move(Or(Second(Special), Second(Create)), [])
  {
    DeriveTwo(ALTERNATIVES, 3, 'C');
  }

  /** The same when the last alternative starts with the character, too. */
  lemma DeriveTwo(cmds: seq<Command>, n: nat, c: char)
    requires n < |cmds| - 1 && Keyword(cmds[n])[0] == c && Keyword(cmds[|cmds| - 1])[0] == c
    requires forall i :: 0 <= i < |cmds| - 1 && i != n ==> Keyword(cmds[i])[0] != c
    requires !Second(cmds[n]).Nothing? && !Second(cmds[|cmds| - 1]).Nothing?
    ensures Derive(AnyOf(cmds), c) == Move(Or(Second(cmds[n]), Second(cmds[|cmds| - 1])), [])
  {
    var init, last := cmds[..|cmds| - 1], cmds[|cmds| - 1];
    DeriveOne(init, n, c);
    FirstLetter(last, c);
    OrDerivesBoth(AnyOf(init), Sentence(last), c);
  }

  lemma OrDerivesBoth(a: Re, b: Re, c: char)
    requires Starts(a, c) && Starts(b, c)
    ensures Derive(Or(a, b), c) == Move(Or(Derive(a, c).next, Derive(b, c).next), Derive(a, c).acts)
  {}

  lemma DeriveMain(c: char)
    requires c != 'C'
    ensures Derive(Definition(), c)
         == match c
            case 'L' => Move(Second(List), [])
            case 'R' => Move(Second(Read), [])
            case 'U' => Move(Second(Update), [])
            case 'D' => Move(Second(Delete), [])
            case _ => Move(Nothing, [])
  {
    match c
    case 'L' => DeriveOne(ALTERNATIVES, 0, c);
    case 'R' => DeriveOne(ALTERNATIVES, 1, c);
    case 'U' => DeriveOne(ALTERNATIVES, 2, c);
    case 'D' => DeriveOne(ALTERNATIVES, 4, c);
    case _ => DeriveNone(ALTERNATIVES, c);
  }

  lemma {:induction false} ChooseNth(choices: seq<(char, nat)>, n: nat, x: int)
    requires n < |choices| && choices[n].0 as int == x && forall j :: 0 <= j < n ==> choices[j].0 as int != x
    ensures Choose(choices, x) == choices[n].1
  {
    if n > 0 { ChooseNth(choices[1..], n - 1, x); }
  }

  lemma {:induction false} ChooseNone(choices: seq<(char, nat)>, x: int)
    requires forall j :: 0 <= j < |choices| ==> choices[j].0 as int != x
    ensures Choose(choices, x) == 0
  {
    if choices != [] { ChooseNone(choices[1..], x); }
  }

  lemma StartChoices(c: char)
    ensures Choose(RuleOf(1).choices, c as int)
         == match c case 'C' => 2 case 'D' => 18 case 'L' => 26 case 'R' => 30 case 'U' => 36 case _ => 0
  {
    var l := RuleOf(1).choices;
    match c
    case 'C' => ChooseNth(l, 0, c as int);
    case 'D' => ChooseNth(l, 1, c as int);
    case 'L' => ChooseNth(l, 2, c as int);
    case 'R' => ChooseNth(l, 3, c as int);
    case 'U' => ChooseNth(l, 4, c as int);
    case _ => ChooseNone(l, c as int);
  }

  lemma StartGoes(c: char, next: nat)
    requires Choose(RuleOf(1).choices, c as int) == next && Derive(Definition(), c) == Move(Residual(next), [])
    ensures InStep(1, c)
  {}

  lemma StartInStep(c: char)
    ensures InStep(1, c)
  {
    StartChoices(c);
    if c == 'C' {
      DeriveShared();
      SharedResidual();
      StartGoes(c, 2);
    } else {
      DeriveMain(c);
      SecondResiduals();
      match c
      case 'D' => StartGoes(c, 18);
      case 'L' => StartGoes(c, 26);
      case 'R' => StartGoes(c, 30);
      case 'U' => StartGoes(c, 36);
      case _ => StartGoes(c, 0);
    }
  }

  lemma SecondInStep(c: char)
    ensures InStep(2, c)
  {
    var l := RuleOf(2).choices;
    if c == 'R' { ChooseNth(l, 0, c as int); } else if c == 'd' { ChooseNth(l, 1, c as int); } else { ChooseNone(l, c as int); }
    OrDerive(Residual(14), Residual(3), c);
  }

  lemma OrDerive(a: Re, b: Re, c: char)
    requires !a.Nothing? && !b.Nothing?
    ensures Derive(Or(Chr('d', a), Chr('R', b)), c)
         == if c == 'd' then Move(a, []) else if c == 'R' then Move(b, []) else Move(Nothing, [])
  {}

  /** Every state, every character. */
  lemma AllInStep(q: nat, c: char)
    requires 1 <= q < 48
    ensures InStep(q, c)
  {
    RulesWellFormed(q);
    match RuleOf(q)
    case Branch(_) => if q == 1 { StartInStep(c); } else { SecondInStep(c); }
    case Letter(_, _, _) => LetterInStep(q, c);
    case Enter(_, _, _) => EnterInStep(q, c);
    case Inside(_, _, _, _, _) => InsideInStep(q, c);
  }

  /** A rule only ever leads to a state, with a list of actions or with none. */
  lemma FollowsInside(q: nat, rule: Rule, x: int)
    requires WellFormed(q, rule) && 1 <= q < 48
    requires rule.Branch? ==> forall i :: 0 <= i < |rule.choices| ==> rule.choices[i].1 < STATES
    ensures var (next, off) := Follow(q, rule, x); next < STATES && (off == 0 <==> ListOf(off) == [])
  {
    if rule.Branch? { ChoosesInside(rule.choices, x); }
  }

  lemma {:induction false} ChoosesInside(choices: seq<(char, nat)>, x: int)
    requires forall i :: 0 <= i < |choices| ==> choices[i].1 < STATES
    ensures Choose(choices, x) < STATES
  {
    if choices != [] { ChoosesInside(choices[1..], x); }
  }

  lemma BranchInside(q: nat)
    requires RuleOf(q).Branch?
    ensures forall i :: 0 <= i < |RuleOf(q).choices| ==> RuleOf(q).choices[i].1 < STATES
  {}

  // ----- the main result

  /** In every state from which the loop can resume, for every character, sound tables select the
      transition to the state that stands for the derivative, with exactly the embedded actions.
      The start state stands for the whole grammar. */
  lemma TablesMeanGrammar(m: Packed, q: nat, c: char)
    requires WellPacked(m) && 1 <= q < 48
    ensures Fit(m, q)
    ensures var (next, off) := Selected(m, q, c as int);
            && 0 <= next < STATES && Derive(Residual(q), c) == Move(Residual(next), ListOf(off))
            && (off == 0 <==> ListOf(off) == []) && (off != 0 ==> Listed(m, off))
  {
    SelectsFollow(m, q, c as int);
    AllInStep(q, c);
    RulesWellFormed(q);
    if RuleOf(q).Branch? { BranchInside(q); }
    FollowsInside(q, RuleOf(q), c as int);
  }

  lemma SelectsFollow(m: Packed, q: nat, x: int)
    requires WellPacked(m) && 1 <= q < 48
    ensures Fit(m, q) && Selected(m, q, x) == Follow(q, RuleOf(q), x)
  {
    Fits(m, q);
    var k, i :| Encodes(m, q, k, i, RuleOf(q));
    SelectsRule(m, q, k, i, RuleOf(q), x);
  }

  lemma StartMeansGrammar()
    ensures Residual(START) == Definition() && Residual(ERROR) == Nothing && Residual(FIRST_FINAL) == Done
  {}

  /** The final state is only entered by a list that returns, so the loop never resumes in it. */
  lemma FinalReturns(m: Packed, q: nat, c: char)
    requires WellPacked(m) && 1 <= q < 48
    ensures Fit(m, q)
    ensures var (next, off) := Selected(m, q, c as int);
            next == FIRST_FINAL ==> ListOf(off) != [] && ListOf(off)[|ListOf(off)| - 1].Return?
  {
    SelectsFollow(m, q, c as int);
    FollowReturns(q, c as int);
  }

  lemma FollowReturns(q: nat, x: int)
    requires 1 <= q < 48
    ensures var (next, off) := Follow(q, RuleOf(q), x);
            next == FIRST_FINAL ==> ListOf(off) != [] && ListOf(off)[|ListOf(off)| - 1].Return?
  {
    RulesWellFormed(q);
    if RuleOf(q).Branch? { BranchEarly(q, x); }
  }

  lemma BranchEarly(q: nat, x: int)
    requires RuleOf(q).Branch?
    ensures Follow(q, RuleOf(q), x).0 < 48
  {
    ChoosesBelow(RuleOf(q).choices, x);
  }

  lemma {:induction false} ChoosesBelow(choices: seq<(char, nat)>, x: int)
    requires forall i :: 0 <= i < |choices| ==> choices[i].1 < 48
    ensures Choose(choices, x) < 48
  {
    if choices != [] { ChoosesBelow(choices[1..], x); }
  }

  /** Values that are no 7-bit characters lead to the error state without an action, from every
      state: whether char is signed makes no difference. */
  lemma OtherBytesRejected(m: Packed, q: nat, x: int)
    requires WellPacked(m) && 1 <= q < 48 && (x < 0 || 126 < x)
    ensures Fit(m, q) && Selected(m, q, x) == (ERROR as int, 0)
  {
    SelectsFollow(m, q, x);
    if RuleOf(q).Branch? {
      BranchPlain(q);
      ChooseNone(RuleOf(q).choices, x);
    } else {
      LettersPlain(q);
    }
  }

  lemma BranchPlain(q: nat)
    requires RuleOf(q).Branch?
    ensures forall i :: 0 <= i < |RuleOf(q).choices| ==> RuleOf(q).choices[i].0 <= '~'
  {}

  lemma LettersPlain(q: nat)
    requires 1 <= q < 48 && !RuleOf(q).Branch?
    ensures RuleOf(q).Letter? || RuleOf(q).Inside? ==> RuleOf(q).c <= '~'
    ensures !RuleOf(q).Dead?
  {}
}
