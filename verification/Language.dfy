/** The language of the grammar in closed form: what the recogniser answers on every message. */
module Language {
  import opened Grammar

  lemma {:induction false} LitMeans(l: string, rest: Re, fields: seq<string>, w: string, v: Verdict)
    ensures Means(Lit(l, rest), fields, w, v) <==> l <= w && Means(rest, fields, w[|l|..], v)
  {
    if l == [] {
      assert w[0..] == w;
    } else {
      if w != [] {
        LitMeans(l[1..], rest, fields, w[1..], v);
        assert w == [w[0]] + w[1..] && l == [l[0]] + l[1..];
      }
    }
  }

  /** Taking the first field off a word, and putting it in front of one. */
  lemma TakeField(f: FieldKind, rest: Re, fields: seq<string>, w: string, v: Verdict) returns (x: string, y: string)
    requires Means(Field(f, rest), fields, w, v)
    ensures InField(f, x) && w == x + y && Leaves(f, rest, fields, x, y, v)
  {
    var n :| 0 < n <= |w| && EndsAt(f, rest, fields, w, n, v);
    x, y := w[..n], w[n..];
  }

  lemma PutField(f: FieldKind, rest: Re, fields: seq<string>, x: string, y: string, v: Verdict)
    requires InField(f, x) && Leaves(f, rest, fields, x, y, v)
    ensures Means(Field(f, rest), fields, x + y, v)
  {
    assert (x + y)[..|x|] == x && (x + y)[|x|..] == y;
    assert EndsAt(f, rest, fields, x + y, |x|, v);
  }

  /** A field and the character after it, then the rest. */
  lemma LeavesChr(f: FieldKind, c: char, rest: Re, fields: seq<string>, x: string, y: string, v: Verdict)
    requires !rest.Nothing?
    ensures Leaves(f, Chr(c, rest), fields, x, y, v)
        <==> [c] <= y && if Overlong(f, x) then y == [c] && v == TooLong(f) else Means(rest, fields + [x], y[1..], v)
  {
    if |y| == 1 && y[0] == c { assert y == [c]; }
  }

  lemma LeavesLast(f: FieldKind, c: char, cmd: Command, fields: seq<string>, x: string, y: string, v: Verdict)
    ensures Leaves(f, Last(c, cmd), fields, x, y, v)
        <==> y == [c] && v == if Overlong(f, x) then TooLong(f) else Dispatch(cmd, fields + [x])
  {
    if |y| == 1 { assert y == [y[0]]; }
  }

  /** What a last field of text `x` answers. */
  function Closing(f: FieldKind, cmd: Command, fields: seq<string>, x: string): Verdict {
    if Overlong(f, x) then TooLong(f) else Dispatch(cmd, fields + [x])
  }

  lemma TakeLast(f: FieldKind, cmd: Command, fields: seq<string>, w: string, v: Verdict) returns (x: string)
    requires Means(Field(f, Last('\n', cmd)), fields, w, v)
    ensures InField(f, x) && w == x + "\n" && v == Closing(f, cmd, fields, x)
  {
    var y;
    x, y := TakeField(f, Last('\n', cmd), fields, w, v);
    LeavesLast(f, '\n', cmd, fields, x, y, v);
  }

  lemma PutLast(f: FieldKind, cmd: Command, fields: seq<string>, x: string)
    requires InField(f, x)
    ensures Means(Field(f, Last('\n', cmd)), fields, x + "\n", Closing(f, cmd, fields, x))
  {
    var v := Closing(f, cmd, fields, x);
    LeavesLast(f, '\n', cmd, fields, x, "\n", v);
    PutField(f, Last('\n', cmd), fields, x, "\n", v);
  }

  lemma Front(c: char, y: string)
    requires [c] <= y
    ensures y == [c] + y[1..]
  {}

  lemma Back(c: char, z: string)
    ensures [c] <= [c] + z && ([c] + z)[1..] == z
  {}

  lemma TakeLength(cmd: Command, fields: seq<string>, w: string, v: Verdict) returns (n: string, x: string)
    requires Means(LengthPart(cmd), fields, w, v)
    ensures InField(Length, n) && InField(Content, x) && w == LengthText(n, x)
    ensures v == Closing(Content, cmd, fields + [n], x)
  {
    var y;
    n, y := TakeField(Length, Chr('\n', ContentPart(cmd)), fields, w, v);
    LeavesChr(Length, '\n', ContentPart(cmd), fields, n, y, v);
    x := TakeLast(Content, cmd, fields + [n], y[1..], v);
    Front('\n', y);
  }

  lemma PutLength(cmd: Command, fields: seq<string>, n: string, x: string)
    requires InField(Length, n) && InField(Content, x)
    ensures Means(LengthPart(cmd), fields, LengthText(n, x), Closing(Content, cmd, fields + [n], x))
  {
    var v := Closing(Content, cmd, fields + [n], x);
    PutLast(Content, cmd, fields + [n], x);
    Back('\n', ContentText(x));
    LeavesChr(Length, '\n', ContentPart(cmd), fields, n, "\n" + ContentText(x), v);
    PutField(Length, Chr('\n', ContentPart(cmd)), fields, n, "\n" + ContentText(x), v);
  }

  lemma TakeWrite(cmd: Command, w: string, v: Verdict)
    requires Writes(cmd) && Means(WritePart(cmd), [], w, v)
    ensures WordOf(cmd, Keyword(cmd) + w, v)
  {
    var name, y := TakeField(Filename, Chr(' ', LengthPart(cmd)), [], w, v);
    LeavesChr(Filename, ' ', LengthPart(cmd), [], name, y, v);
    if Overlong(Filename, name) {
      assert LongName(cmd, name, Keyword(cmd) + w);
    } else {
      var n, x := TakeLength(cmd, [] + [name], y[1..], v);
      Front(' ', y);
      WriteWord(cmd, name, n, x, v);
    }
  }

  lemma WriteWord(cmd: Command, name: string, n: string, x: string, v: Verdict)
    requires Writes(cmd) && InField(Filename, name) && InField(Length, n) && InField(Content, x)
    requires |name| <= MAX_BUFLEN && v == Closing(Content, cmd, [] + [name] + [n], x)
    ensures WordOf(cmd, Keyword(cmd) + WriteText(name, n, x), v)
  {
    var fields := [name, n, x];
    assert [] + [name] + [n] + [x] == fields;
    assert Carries(cmd, fields) && Spell(cmd, fields) == Keyword(cmd) + WriteText(name, n, x);
    if |x| > MAX_BUFLEN { assert LongContent(cmd, fields, Spell(cmd, fields)); }
  }

  lemma TakeTail(cmd: Command, w: string, v: Verdict)
    requires Means(Tail(cmd), [], w, v)
    ensures WordOf(cmd, Keyword(cmd) + w, v)
  {
    if Writes(cmd) {
      TakeWrite(cmd, w, v);
    } else if Names(cmd) {
      var name := TakeLast(Filename, cmd, [], w, v);
      assert [] + [name] == [name];
      if Overlong(Filename, name) { assert LongName(cmd, name, Keyword(cmd) + w); }
    }
  }

  lemma DropKeyword(cmd: Command, w: string)
    ensures Keyword(cmd) <= Keyword(cmd) + w && (Keyword(cmd) + w)[|Keyword(cmd)|..] == w
  {}

  lemma PutTail(cmd: Command, m: string, v: Verdict)
    requires WordOf(cmd, m, v)
    ensures Keyword(cmd) <= m && Means(Tail(cmd), [], m[|Keyword(cmd)|..], v)
  {
    if Writes(cmd) {
      if v == TooLong(Filename) {
        var name :| LongName(cmd, name, m);
        DropKeyword(cmd, name + Separator(cmd));
        LeavesChr(Filename, ' ', LengthPart(cmd), [], name, " ", v);
        PutField(Filename, Chr(' ', LengthPart(cmd)), [], name, " ", v);
      } else {
        var fields := FieldsOf(cmd, m, v);
        DropKeyword(cmd, WriteText(fields[0], fields[1], fields[2]));
        PutWrite(cmd, fields, v);
      }
    } else if Names(cmd) {
      var name := NameOf(cmd, m, v);
      DropKeyword(cmd, name + "\n");
      PutLast(Filename, cmd, [], name);
    } else {
      DropKeyword(cmd, "\n");
    }
  }

  lemma NameOf(cmd: Command, m: string, v: Verdict) returns (name: string)
    requires Names(cmd) && WordOf(cmd, m, v)
    ensures InField(Filename, name) && m == Keyword(cmd) + (name + "\n") && v == Closing(Filename, cmd, [], name)
  {
    if v.Dispatch? {
      name := v.fields[0];
      assert [] + [name] == v.fields;
    } else {
      name :| LongName(cmd, name, m);
    }
  }

  lemma FieldsOf(cmd: Command, m: string, v: Verdict) returns (fields: seq<string>)
    requires Writes(cmd) && WordOf(cmd, m, v) && v != TooLong(Filename)
    ensures Carries(cmd, fields) && |fields[0]| <= MAX_BUFLEN && m == Spell(cmd, fields)
    ensures v == if |fields[2]| > MAX_BUFLEN then TooLong(Content) else Dispatch(cmd, fields)
  {
    if v.Dispatch? {
      fields := v.fields;
    } else {
      fields :| LongContent(cmd, fields, m);
    }
  }

  lemma PutWrite(cmd: Command, fields: seq<string>, v: Verdict)
    requires Writes(cmd) && Carries(cmd, fields) && |fields[0]| <= MAX_BUFLEN
    requires v == if |fields[2]| > MAX_BUFLEN then TooLong(Content) else Dispatch(cmd, fields)
    ensures Means(WritePart(cmd), [], WriteText(fields[0], fields[1], fields[2]), v)
  {
    var name, n, x := fields[0], fields[1], fields[2];
    PutLength(cmd, [] + [name], n, x);
    assert [] + [name] + [n] + [x] == fields;
    Back(' ', LengthText(n, x));
    LeavesChr(Filename, ' ', LengthPart(cmd), [], name, " " + LengthText(n, x), v);
    PutField(Filename, Chr(' ', LengthPart(cmd)), [], name, " " + LengthText(n, x), v);
  }

  // ----- the whole grammar

  lemma SentenceMeans(cmd: Command, w: string, v: Verdict)
    ensures Means(Sentence(cmd), [], w, v) <==> WordOf(cmd, w, v)
  {
    LitMeans(Keyword(cmd), Tail(cmd), [], w, v);
    if Keyword(cmd) <= w {
      assert w == Keyword(cmd) + w[|Keyword(cmd)|..];
      if Means(Tail(cmd), [], w[|Keyword(cmd)|..], v) { TakeTail(cmd, w[|Keyword(cmd)|..], v); }
    }
    if WordOf(cmd, w, v) { PutTail(cmd, w, v); }
  }

  lemma OrMeans(a: Re, b: Re, w: string, v: Verdict)
    ensures Means(Or(a, b), [], w, v) <==> Means(a, [], w, v) || Means(b, [], w, v)
  {}

  ghost predicate WordAmong(cmds: seq<Command>, w: string, v: Verdict) {
    exists cmd :: cmd in cmds && WordOf(cmd, w, v)
  }

  lemma WordAmongSnoc(cmds: seq<Command>, cmd: Command, w: string, v: Verdict)
    ensures WordAmong(cmds + [cmd], w, v) <==> WordAmong(cmds, w, v) || WordOf(cmd, w, v)
  {}

  lemma {:induction false} AnyOfMeans(cmds: seq<Command>, w: string, v: Verdict)
    requires cmds != []
    ensures Means(AnyOf(cmds), [], w, v) <==> WordAmong(cmds, w, v)
  {
    var init, last := cmds[..|cmds| - 1], cmds[|cmds| - 1];
    SentenceMeans(last, w, v);
    assert cmds == init + [last];
    WordAmongSnoc(init, last, w, v);
    if |cmds| > 1 {
      AnyOfMeans(init, w, v);
      OrMeans(AnyOf(init), Sentence(last), w, v);
    }
  }

  lemma MainMeans(w: string, v: Verdict)
    ensures Means(Definition(), [], w, v) <==> Word(w, v)
  {
    AnyOfMeans(ALTERNATIVES, w, v);
    forall cmd: Command ensures cmd in ALTERNATIVES { Listed(cmd); }
  }

  lemma Listed(cmd: Command)
    ensures cmd in ALTERNATIVES
  {
    assert ALTERNATIVES[match cmd case List => 0
            case Read => 1 case Update => 2 case Special => 3 case Delete => 4 case Create => 5] == cmd;
  }

  lemma {:induction false} LitDeterministic(l: string, rest: Re)
    requires Deterministic(rest) && !rest.More?
    ensures Deterministic(Lit(l, rest)) && !Lit(l, rest).More?
  {
    if l != [] { LitDeterministic(l[1..], rest); }
  }

  lemma {:induction false} LitsDiverge(l: string, x: Re, m: string, y: Re, n: nat)
    requires n < |l| && n < |m| && l[n] != m[n]
    ensures Diverge(Lit(l, x), Lit(m, y))
  {
    if n > 0 { LitsDiverge(l[1..], x, m[1..], y, n - 1); }
  }

  lemma SentenceDeterministic(cmd: Command)
    ensures Deterministic(Sentence(cmd)) && !Sentence(cmd).More?
  {
    LastStarts(cmd);
    assert Deterministic(ContentPart(cmd));
    assert Deterministic(LengthPart(cmd));
    assert Deterministic(Tail(cmd));
    LitDeterministic(Keyword(cmd), Tail(cmd));
  }

  lemma LastStarts(cmd: Command)
    ensures forall c :: Starts(Last('\n', cmd), c) <==> c == '\n'
    ensures forall c :: Starts(Chr('\n', ContentPart(cmd)), c) <==> c == '\n'
    ensures forall c :: Starts(Chr(' ', LengthPart(cmd)), c) <==> c == ' '
  {}

  lemma SentencesDiverge(a: Command, b: Command)
    requires a != b
    ensures Diverge(Sentence(a), Sentence(b))
  {
    LitsDiverge(Keyword(a), Tail(a), Keyword(b), Tail(b), if Keyword(a)[0] == Keyword(b)[0] then 1 else 0);
  }

  lemma {:induction false} AnyOfDiverges(cmds: seq<Command>, cmd: Command)
    requires cmds != [] && cmd !in cmds
    ensures Diverge(AnyOf(cmds), Sentence(cmd))
  {
    var init, last := cmds[..|cmds| - 1], cmds[|cmds| - 1];
    SentencesDiverge(last, cmd);
    if |cmds| > 1 { AnyOfDiverges(init, cmd); }
  }

  lemma {:induction false} AnyOfDeterministic(cmds: seq<Command>)
    requires cmds != [] && forall i, j :: 0 <= i < j < |cmds| ==> cmds[i] != cmds[j]
    ensures Deterministic(AnyOf(cmds)) && !AnyOf(cmds).More?
  {
    var init, last := cmds[..|cmds| - 1], cmds[|cmds| - 1];
    SentenceDeterministic(last);
    if |cmds| > 1 {
      AnyOfDeterministic(init);
      AnyOfDiverges(init, last);
    }
  }

  // ----- the main results

  /** The recogniser answers `v` after `k` characters exactly when those are a word for `v`. */
  lemma RecognisesWords(s: string, k: nat, v: Verdict)
    requires k <= |s|
    ensures Recognise(s) == Found(v, k) <==> Word(s[..k], v)
  {
    AnyOfDeterministic(ALTERNATIVES);
    RunMeans(Definition(), Track([], ""), s, 0, k, v);
    assert s[0..k] == s[..k];
    MainMeans(s[..k], v);
  }

  /** It answers nothing exactly when no prefix is a word. */
  lemma UnknownMeansNoWord(s: string)
    ensures Recognise(s) == Unknown <==> forall k: nat, v :: k <= |s| ==> !Word(s[..k], v)
  {
    match Recognise(s)
    case Unknown =>
      forall k: nat, v | k <= |s| ensures !Word(s[..k], v) { RecognisesWords(s, k, v); }
    case Found(v, k) =>
      RunAhead(Definition(), Track([], ""), s, 0);
      RecognisesWords(s, k, v);
  }

  /** The language is prefix-free, and each word has one meaning. */
  lemma PrefixFree(w: string, x: string, v: Verdict, u: Verdict)
    requires w <= x && Word(w, v) && Word(x, u)
    ensures w == x && v == u
  {
    assert x[..|w|] == w && x[..|x|] == x;
    RecognisesWords(x, |w|, v);
    RecognisesWords(x, |x|, u);
  }

  /** What follows the word does not matter. */
  lemma TrailingIgnored(w: string, tail: string, v: Verdict)
    requires Word(w, v)
    ensures Recognise(w + tail) == Found(v, |w|)
  {
    assert (w + tail)[..|w|] == w;
    RecognisesWords(w + tail, |w|, v);
  }
}
