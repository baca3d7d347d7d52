/** The message grammar of lib/messageProcessing.rl: the expression with its embedded actions,
    what its words mean, and reading it one character at a time. */
module Grammar {

  const MAX_BUFLEN: nat := 1024
  const SIZE_MAX_BUFLEN: nat := 4

  datatype FieldKind = Filename | Length | Content

  datatype Command = List | Special | Read | Delete | Update | Create

  datatype Action =
    | Init
    | Append(f: FieldKind)
    | Term(f: FieldKind)
    | Return(cmd: Command)

  predicate InClass(f: FieldKind, c: char) {
    match f
    case Filename => '!' <= c <= '~'
    case Length => '0' <= c <= '9'
    case Content => ' ' <= c <= '~'
  }

  predicate InField(f: FieldKind, x: string) {
    x != [] && forall i :: 0 <= i < |x| ==> InClass(f, x[i])
  }

  /** `Field` is class+ with its entering, all-character and leaving actions; `More` is what is
      left of a field once its first character is read; `Last` is a character with a final action. */
  datatype Re =
    | Nothing
    | Done
    | Chr(c: char, rest: Re)
    | Last(c: char, cmd: Command)
    | Field(f: FieldKind, rest: Re)
    | More(f: FieldKind, rest: Re)
    | Or(a: Re, b: Re)

  function Lit(w: string, rest: Re): Re {
    if w == [] then rest else Chr(w[0], Lit(w[1..], rest))
  }

  function ContentPart(cmd: Command): Re {
    Field(Content, Last('\n', cmd))
  }

  function LengthPart(cmd: Command): Re {
    Field(Length, Chr('\n', ContentPart(cmd)))
  }

  /** The rest of UPDATE and CREATE after the keyword. */
  function WritePart(cmd: Command): Re {
    Field(Filename, Chr(' ', LengthPart(cmd)))
  }

  /** The rest of READ and DELETE after the keyword. */
  function NamePart(cmd: Command): Re {
    Field(Filename, Last('\n', cmd))
  }

  function Keyword(cmd: Command): string {
    match cmd
    case List => "LIST"
    case Special => "Cdist"
    case Read => "READ "
    case Delete => "DELETE "
    case Update => "UPDATE "
    case Create => "CREATE "
  }

  predicate Writes(cmd: Command) {
    cmd == Update || cmd == Create
  }

  predicate Names(cmd: Command) {
    cmd == Read || cmd == Delete
  }

  /** What follows the keyword of a command. */
  function Tail(cmd: Command): Re {
    if Writes(cmd) then WritePart(cmd) else if Names(cmd) then NamePart(cmd) else Last('\n', cmd)
  }

  function Sentence(cmd: Command): Re {
    Lit(Keyword(cmd), Tail(cmd))
  }

  function AnyOf(cmds: seq<Command>): Re
    requires cmds != []
  {
    if |cmds| == 1 then Sentence(cmds[0]) else Or(AnyOf(cmds[..|cmds| - 1]), Sentence(cmds[|cmds| - 1]))
  }

  /** The machine definition, its alternatives in the order written there. */
  const ALTERNATIVES: seq<Command> := [List, Read, Update, Special, Delete, Create]

  function Definition(): Re {
    AnyOf(ALTERNATIVES)
  }

  // ----- what the words mean

  /** What reading a message can end in before the message does. */
  datatype Verdict = Dispatch(cmd: Command, fields: seq<string>) | TooLong(f: FieldKind)

  predicate Overlong(f: FieldKind, x: string) {
    f != Length && |x| > MAX_BUFLEN
  }

  /** Reading the word `w` of `re`, after `fields`, ends in `v`. */
  ghost predicate Means(re: Re, fields: seq<string>, w: string, v: Verdict)
    decreases re, 0
  {
    match re
    case Nothing | Done | More(_, _) => false
    case Chr(c, rest) => w != [] && w[0] == c && Means(rest, fields, w[1..], v)
    case Last(c, cmd) => w == [c] && v == Dispatch(cmd, fields)
    case Field(f, rest) => exists n :: 0 < n <= |w| && EndsAt(f, rest, fields, w, n, v)
    case Or(a, b) => Means(a, fields, w, v) || Means(b, fields, w, v)
  }

  /** The field is the first `n` characters. */
  ghost predicate EndsAt(f: FieldKind, rest: Re, fields: seq<string>, w: string, n: nat, v: Verdict)
    requires 0 < n <= |w|
    decreases rest, 2
  {
    InField(f, w[..n]) && Leaves(f, rest, fields, w[..n], w[n..], v)
  }

  /** A field with text `x` is followed by `w`: an over-long one ends the reading at its terminator. */
  ghost predicate Leaves(f: FieldKind, rest: Re, fields: seq<string>, x: string, w: string, v: Verdict)
    decreases rest, 1
  {
    if Overlong(f, x) then |w| == 1 && Starts(rest, w[0]) && v == TooLong(f)
    else Means(rest, fields + [x], w, v)
  }

  // ----- reading character by character

  datatype Move = Move(next: Re, acts: seq<Action>)

  /** What is left of the expression after `c`, and the actions embedded on the way. */
  function Derive(re: Re, c: char): (m: Move)
    ensures m.next.Nothing? ==> m.acts == []
  {
    match re
    case Nothing | Done => Move(Nothing, [])
    case Chr(d, rest) => if c == d then Move(rest, []) else Move(Nothing, [])
    case Last(d, cmd) => if c == d then Move(Done, [Return(cmd)]) else Move(Nothing, [])
    case Field(f, rest) => if InClass(f, c) then Move(More(f, rest), [Init, Append(f)]) else Move(Nothing, [])
    case More(f, rest) =>
      if InClass(f, c) then Move(re, [Append(f)]) else
        var m := Derive(rest, c);
        if m.next.Nothing? then m else Move(m.next, [Term(f)] + m.acts)
    case Or(a, b) =>
      var m, n := Derive(a, c), Derive(b, c);
      if m.next.Nothing? then n else if n.next.Nothing? then m else Move(Or(m.next, n.next), m.acts)
  }

  predicate Starts(re: Re, c: char) {
    !Derive(re, c).next.Nothing?
  }

  /** The fields read so far and the text of the one being read. */
  datatype Track = Track(fields: seq<string>, open: string)

  datatype Progress = Going(t: Track) | Stopped(v: Verdict)

  function Perform(a: Action, c: char, t: Track): Progress {
    match a
    case Init => Going(Track(t.fields, ""))
    case Append(_) => Going(Track(t.fields, t.open + [c]))
    case Term(f) => if Overlong(f, t.open) then Stopped(TooLong(f)) else Going(Track(t.fields + [t.open], ""))
    case Return(cmd) => Stopped(Dispatch(cmd, t.fields))
  }

  function PerformAll(acts: seq<Action>, c: char, t: Track): Progress {
    if acts == [] then Going(t) else
      match Perform(acts[0], c, t)
      case Stopped(v) => Stopped(v)
      case Going(u) => PerformAll(acts[1..], c, u)
  }

  datatype Answer = Unknown | Found(v: Verdict, used: nat)

  /** Reading `s` from position `i` until an action returns, the expression is exhausted or the
      message is. */
  function Run(re: Re, t: Track, s: string, i: nat): Answer
    requires i <= |s|
    decreases |s| - i
  {
    if i == |s| || re.Nothing? then Unknown else
      var m := Derive(re, s[i]);
      match PerformAll(m.acts, s[i], t)
      case Stopped(v) => Found(v, i + 1)
      case Going(u) => Run(m.next, u, s, i + 1)
  }

  function Recognise(s: string): Answer {
    Run(Definition(), Track([], ""), s, 0)
  }

  // ----- deterministic expressions: reading them decides them

  /** The two differ at some character before either does anything else. */
  ghost predicate Diverge(a: Re, b: Re) {
    match (a, b)
    case (Or(x, y), _) => Diverge(x, b) && Diverge(y, b)
    case (_, Or(x, y)) => Diverge(a, x) && Diverge(a, y)
    case (Chr(c, x), Chr(d, y)) => c != d || Diverge(x, y)
    case _ => false
  }

  ghost predicate Deterministic(re: Re) {
    match re
    case Nothing | Done | Last(_, _) => true
    case Chr(_, rest) => Deterministic(rest) && !rest.More?
    case Field(f, rest) => Deterministic(rest) && !rest.More? && forall c :: InClass(f, c) ==> !Starts(rest, c)
    case More(f, rest) => Deterministic(rest) && !rest.More? && forall c :: InClass(f, c) ==> !Starts(rest, c)
    case Or(a, b) => Deterministic(a) && Deterministic(b) && !a.More? && !b.More? && Diverge(a, b)
  }

  lemma {:induction false} DivergeOr(a: Re, x: Re, y: Re)
    requires Diverge(a, x) && Diverge(a, y)
    ensures Diverge(a, Or(x, y))
  {
    if a.Or? {
      DivergeOr(a.a, x, y);
      DivergeOr(a.b, x, y);
    }
  }

  /** Two alternatives that both read `c` have done nothing yet and still diverge. */
  lemma {:induction false} BothGoOn(a: Re, b: Re, c: char)
    requires Deterministic(a) && Deterministic(b) && Diverge(a, b) && Starts(a, c) && Starts(b, c)
    ensures var m, n := Derive(a, c), Derive(b, c);
            m.acts == [] && n.acts == [] && Diverge(m.next, n.next) && !m.next.More? && !n.next.More?
    decreases a, b
  {
    if a.Or? {
      if Starts(a.a, c) { BothGoOn(a.a, b, c); }
      if Starts(a.b, c) { BothGoOn(a.b, b, c); }
    } else if b.Or? {
      if Starts(b.a, c) { BothGoOn(a, b.a, c); }
      if Starts(b.b, c) { BothGoOn(a, b.b, c); }
      if Starts(b.a, c) && Starts(b.b, c) {
        DivergeOr(Derive(a, c).next, Derive(b.a, c).next, Derive(b.b, c).next);
      }
    }
  }

  lemma {:induction false} StaysDeterministic(re: Re, c: char)
    requires Deterministic(re)
    ensures Deterministic(Derive(re, c).next)
  {
    match re
    case Nothing | Done | Last(_, _) | Chr(_, _) | Field(_, _) =>
    case More(f, rest) => StaysDeterministic(rest, c);
    case Or(a, b) =>
      StaysDeterministic(a, c);
      StaysDeterministic(b, c);
      if Starts(a, c) && Starts(b, c) { BothGoOn(a, b, c); }
  }

  /** `Means`, when `open` of a field is already read. */
  ghost predicate MeansFrom(re: Re, t: Track, w: string, v: Verdict) {
    match re
    case More(f, rest) => exists n :: 0 <= n <= |w| && EndsLater(f, rest, t, w, n, v)
    case _ => Means(re, t.fields, w, v)
  }

  ghost predicate EndsLater(f: FieldKind, rest: Re, t: Track, w: string, n: nat, v: Verdict)
    requires n <= |w|
  {
    (forall h :: 0 <= h < n ==> InClass(f, w[h])) && Leaves(f, rest, t.fields, t.open + w[..n], w[n..], v)
  }

  /** One character of the reading, read off the derivative. */
  ghost predicate Steps(re: Re, t: Track, c: char, w: string, v: Verdict) {
    var m := Derive(re, c);
    match PerformAll(m.acts, c, t)
    case Stopped(u) => u == v && w == []
    case Going(u) => MeansFrom(m.next, u, w, v)
  }

  /** A word is not empty and starts with a character that the expression takes. */
  lemma {:induction false} MeansStarts(re: Re, fields: seq<string>, w: string, v: Verdict)
    requires Means(re, fields, w, v)
    ensures w != [] && Starts(re, w[0])
  {
    match re
    case Nothing | Done | More(_, _) | Chr(_, _) | Last(_, _) =>
    case Field(f, rest) =>
      var n :| 0 < n <= |w| && EndsAt(f, rest, fields, w, n, v);
      assert w[..n][0] == w[0];
    case Or(a, b) =>
      if Means(a, fields, w, v) { MeansStarts(a, fields, w, v); } else { MeansStarts(b, fields, w, v); }
  }

  lemma LeavesStarts(f: FieldKind, rest: Re, fields: seq<string>, x: string, w: string, v: Verdict)
    requires Leaves(f, rest, fields, x, w, v)
    ensures w != [] && Starts(rest, w[0])
  {
    if !Overlong(f, x) { MeansStarts(rest, fields + [x], w, v); }
  }

  lemma {:induction false} OneStep(re: Re, t: Track, c: char, w: string, v: Verdict)
    requires Deterministic(re)
    ensures MeansFrom(re, t, [c] + w, v) <==> Steps(re, t, c, w, v)
  {
    match re
    case Nothing | Done =>
    case Last(d, _) =>
      assert ([c] + w)[0] == c;
      if c == d && w == [] { assert [c] + w == [d]; }
    case Chr(_, _) => assert ([c] + w)[1..] == w;
    case Field(f, rest) =>
      EnterField(f, rest, t, c, w, v);
    case More(f, rest) =>
      if InClass(f, c) {
        StayInField(f, rest, t, c, w, v);
      } else {
        OneStep(rest, Track(t.fields + [t.open], ""), c, w, v);
        LeaveField(f, rest, t, c, w, v);
      }
    case Or(a, b) =>
      OneStep(a, t, c, w, v);
      OneStep(b, t, c, w, v);
      if Starts(a, c) && Starts(b, c) { BothGoOn(a, b, c); }
  }

  lemma PerformFirst(a: Action, acts: seq<Action>, c: char, t: Track)
    ensures PerformAll([a], c, t) == Perform(a, c, t)
    ensures PerformAll([a] + acts, c, t)
         == match Perform(a, c, t) case Stopped(v) => Stopped(v) case Going(u) => PerformAll(acts, c, u)
  {
    assert ([a] + acts)[1..] == acts;
  }

  lemma Shift(c: char, w: string, n: nat)
    requires n <= |w|
    ensures ([c] + w)[..n + 1] == [c] + w[..n] && ([c] + w)[n + 1..] == w[n..]
  {}

  lemma EnterField(f: FieldKind, rest: Re, t: Track, c: char, w: string, v: Verdict)
    ensures MeansFrom(Field(f, rest), t, [c] + w, v) <==> Steps(Field(f, rest), t, c, w, v)
  {
    if InClass(f, c) {
      PerformFirst(Init, [Append(f)], c, t);
      PerformFirst(Append(f), [], c, Track(t.fields, ""));
      assert [Init, Append(f)] == [Init] + [Append(f)];
      assert "" + [c] == [c];
      FirstOfField(f, rest, t, c, w, v);
    } else {
      forall n | 0 < n <= |[c] + w| ensures !EndsAt(f, rest, t.fields, [c] + w, n, v) {
        assert ([c] + w)[..n][0] == c;
      }
      assert !Means(Field(f, rest), t.fields, [c] + w, v);
    }
  }

  lemma FirstOfField(f: FieldKind, rest: Re, t: Track, c: char, w: string, v: Verdict)
    requires InClass(f, c)
    ensures Means(Field(f, rest), t.fields, [c] + w, v) <==> MeansFrom(More(f, rest), Track(t.fields, [c]), w, v)
  {
    forall n | 0 <= n <= |w|
      ensures EndsAt(f, rest, t.fields, [c] + w, n + 1, v) <==> EndsLater(f, rest, Track(t.fields, [c]), w, n, v)
    {
      Shift(c, w, n);
      assert InField(f, [c] + w[..n]) <==> forall h :: 0 <= h < n ==> InClass(f, w[h]) by {
        if InField(f, [c] + w[..n]) {
          forall h | 0 <= h < n ensures InClass(f, w[h]) { assert ([c] + w[..n])[h + 1] == w[h]; }
        }
      }
    }
    if n :| 0 < n <= |[c] + w| && EndsAt(f, rest, t.fields, [c] + w, n, v) {
      assert EndsLater(f, rest, Track(t.fields, [c]), w, n - 1, v);
    }
  }

  lemma StayInField(f: FieldKind, rest: Re, t: Track, c: char, w: string, v: Verdict)
    requires InClass(f, c) && Deterministic(More(f, rest))
    ensures MeansFrom(More(f, rest), t, [c] + w, v) <==> Steps(More(f, rest), t, c, w, v)
  {
    PerformFirst(Append(f), [], c, t);
    var u := Track(t.fields, t.open + [c]);
    forall n | 0 <= n <= |w|
      ensures EndsLater(f, rest, t, [c] + w, n + 1, v) <==> EndsLater(f, rest, u, w, n, v)
    {
      Shift(c, w, n);
      assert t.open + ([c] + w[..n]) == u.open + w[..n];
      if forall h :: 0 <= h < n + 1 ==> InClass(f, ([c] + w)[h]) {
        forall h | 0 <= h < n ensures InClass(f, w[h]) { assert ([c] + w)[h + 1] == w[h]; }
      }
    }
    if n :| 0 <= n <= |[c] + w| && EndsLater(f, rest, t, [c] + w, n, v) {
      LeavesStarts(f, rest, t.fields, t.open + ([c] + w)[..n], ([c] + w)[n..], v);
      assert n > 0;
      assert EndsLater(f, rest, u, w, n - 1, v);
    }
  }

  lemma LeaveField(f: FieldKind, rest: Re, t: Track, c: char, w: string, v: Verdict)
    requires !InClass(f, c) && Deterministic(More(f, rest))
    requires MeansFrom(rest, Track(t.fields + [t.open], ""), [c] + w, v) <==> Steps(rest, Track(t.fields + [t.open], ""), c, w, v)
    ensures MeansFrom(More(f, rest), t, [c] + w, v) <==> Steps(More(f, rest), t, c, w, v)
  {
    OnlyZero(f, rest, t, c, w, v);
    PerformFirst(Term(f), Derive(rest, c).acts, c, t);
    if Leaves(f, rest, t.fields, t.open, [c] + w, v) { LeavesStarts(f, rest, t.fields, t.open, [c] + w, v); }
  }

  lemma OnlyZero(f: FieldKind, rest: Re, t: Track, c: char, w: string, v: Verdict)
    requires !InClass(f, c)
    ensures MeansFrom(More(f, rest), t, [c] + w, v) <==> Leaves(f, rest, t.fields, t.open, [c] + w, v)
  {
    assert t.open + ([c] + w)[..0] == t.open && ([c] + w)[0..] == [c] + w;
    if n :| 0 <= n <= |[c] + w| && EndsLater(f, rest, t, [c] + w, n, v) {
      assert ([c] + w)[0] == c;
      assert n == 0;
    }
    if Leaves(f, rest, t.fields, t.open, [c] + w, v) { assert EndsLater(f, rest, t, [c] + w, 0, v); }
  }

  /** Reading character by character finds exactly the words. */
  lemma {:induction false} RunMeans(re: Re, t: Track, s: string, i: nat, k: nat, v: Verdict)
    requires Deterministic(re) && i <= k <= |s|
    ensures MeansFrom(re, t, s[i..k], v) <==> Run(re, t, s, i) == Found(v, k)
    decreases |s| - i
  {
    if k == i {
      EmptyWord(re, t, v);
      RunAhead(re, t, s, i);
    } else {
      assert s[i..k] == [s[i]] + s[i + 1..k];
      OneStep(re, t, s[i], s[i + 1..k], v);
      var m := Derive(re, s[i]);
      match PerformAll(m.acts, s[i], t)
      case Stopped(_) =>
      case Going(u) =>
        StaysDeterministic(re, s[i]);
        RunMeans(m.next, u, s, i + 1, k, v);
    }
  }

  lemma EmptyWord(re: Re, t: Track, v: Verdict)
    ensures !MeansFrom(re, t, "", v)
  {
    if Means(re, t.fields, "", v) { MeansStarts(re, t.fields, "", v); }
    if re.More? {
      if n :| 0 <= n <= 0 && EndsLater(re.f, re.rest, t, "", n, v) {
        LeavesStarts(re.f, re.rest, t.fields, t.open + ""[..n], ""[n..], v);
      }
    }
  }

  lemma {:induction false} RunAhead(re: Re, t: Track, s: string, i: nat)
    requires i <= |s|
    ensures Run(re, t, s, i).Found? ==> i < Run(re, t, s, i).used <= |s|
    decreases |s| - i
  {
    if i < |s| && !re.Nothing? {
      var m := Derive(re, s[i]);
      match PerformAll(m.acts, s[i], t)
      case Stopped(_) =>
      case Going(u) => RunAhead(m.next, u, s, i + 1);
    }
  }

  // ----- the words of the language, spelled out

  /** The fields a command carries: none, a name, or a name, a length and a content. */
  ghost predicate Carries(cmd: Command, fields: seq<string>) {
    if Writes(cmd) then
      |fields| == 3 && InField(Filename, fields[0]) && InField(Length, fields[1]) && InField(Content, fields[2])
    else if Names(cmd) then |fields| == 1 && InField(Filename, fields[0])
    else fields == []
  }

  function ContentText(x: string): string {
    x + "\n"
  }

  function LengthText(n: string, x: string): string {
    n + ("\n" + ContentText(x))
  }

  function WriteText(name: string, n: string, x: string): string {
    name + (" " + LengthText(n, x))
  }

  /** The message a client sends for a command. */
  function Spell(cmd: Command, fields: seq<string>): string
    requires Carries(cmd, fields)
  {
    Keyword(cmd) + if Writes(cmd) then WriteText(fields[0], fields[1], fields[2])
                   else if Names(cmd) then fields[0] + "\n"
                   else "\n"
  }

  ghost predicate Short(fields: seq<string>) {
    (|fields| > 0 ==> |fields[0]| <= MAX_BUFLEN) && (|fields| > 2 ==> |fields[2]| <= MAX_BUFLEN)
  }

  /** `w` is just enough of a message for `cmd` to get the answer `v`. */
  ghost predicate WordOf(cmd: Command, w: string, v: Verdict) {
    match v
    case Dispatch(c, fields) => c == cmd && Carries(cmd, fields) && Short(fields) && w == Spell(cmd, fields)
    case TooLong(Filename) => (Writes(cmd) || Names(cmd)) && exists name :: LongName(cmd, name, w)
    case TooLong(Content) => Writes(cmd) && exists fields :: LongContent(cmd, fields, w)
    case TooLong(Length) => false
  }

  /** A message up to the end of a name that is too long. */
  ghost predicate LongName(cmd: Command, name: string, w: string) {
    InField(Filename, name) && |name| > MAX_BUFLEN && w == Keyword(cmd) + (name + Separator(cmd))
  }

  /** A whole message with a content that is too long. */
  ghost predicate LongContent(cmd: Command, fields: seq<string>, w: string)
    requires Writes(cmd)
  {
    Carries(cmd, fields) && |fields[0]| <= MAX_BUFLEN < |fields[2]| && w == Spell(cmd, fields)
  }

  ghost predicate Word(w: string, v: Verdict) {
    exists cmd :: WordOf(cmd, w, v)
  }

  /** What follows the name in a command. */
  function Separator(cmd: Command): string {
    if Writes(cmd) then " " else "\n"
  }
}
