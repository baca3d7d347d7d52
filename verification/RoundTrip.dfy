/** From requests to responses and back: what well-formed messages do, what their responses say,
    and how long both can get. */
module RoundTrip {
  import opened Grammar
  import opened Language
  import opened Messages
  import opened ListSpec
  import opened History

  const MAX_OTHER: nat := 15
  const MAX_MSG_LEN: nat := MAX_BUFLEN + MAX_BUFLEN + SIZE_MAX_BUFLEN + MAX_OTHER

  // ----- which messages get which reaction

  /** A command's message, whatever follows it, is executed with exactly its fields. */
  lemma SpelledIsExecuted(cmd: Command, fields: seq<string>, tail: string, memory: string)
    requires Carries(cmd, fields) && Short(fields)
    ensures React(Spell(cmd, fields) + tail, memory) == CommandReaction(cmd, fields, memory)
  {
    var w, v := Spell(cmd, fields), Dispatch(cmd, fields);
    assert WordOf(cmd, w, v);
    TrailingIgnored(w, tail, v);
  }

  /** An answer of the recogniser is backed by a word. */
  lemma FoundWord(msg: string)
    requires Recognise(msg).Found?
    ensures Recognise(msg).used <= |msg| && Word(msg[..Recognise(msg).used], Recognise(msg).v)
  {
    RunAhead(Definition(), Track([], ""), msg, 0);
    RecognisesWords(msg, Recognise(msg).used, Recognise(msg).v);
  }

  ghost predicate HasLongName(msg: string) {
    exists k: nat, cmd, name :: k <= |msg| && (Writes(cmd) || Names(cmd)) && InField(Filename, name) && |name| > 1024
      && msg[..k] == Keyword(cmd) + (name + (if Writes(cmd) then " " else "\n"))
  }

  ghost predicate HasLongContent(msg: string) {
    exists k: nat, cmd, fields :: k <= |msg| && Writes(cmd) && Carries(cmd, fields) && |fields[0]| <= 1024 < |fields[2]|
      && msg[..k] == Spell(cmd, fields)
  }

  lemma LongNameFound(msg: string, memory: string)
    requires React(msg, memory) == Reply(FILENAME_TO_LONG)
    ensures HasLongName(msg)
  {
    FoundWord(msg);
    var k := Recognise(msg).used;
    assert Recognise(msg).v == TooLong(Filename);
    var cmd :| WordOf(cmd, msg[..k], TooLong(Filename));
    var name :| LongName(cmd, name, msg[..k]);
  }

  lemma LongNameTold(msg: string, memory: string, k: nat, cmd: Command, name: string)
    requires k <= |msg| && (Writes(cmd) || Names(cmd)) && InField(Filename, name) && |name| > 1024
    requires msg[..k] == Keyword(cmd) + (name + (if Writes(cmd) then " " else "\n"))
    ensures React(msg, memory) == Reply(FILENAME_TO_LONG)
  {
    assert LongName(cmd, name, msg[..k]);
    assert WordOf(cmd, msg[..k], TooLong(Filename));
    RecognisesWords(msg, k, TooLong(Filename));
  }

  /** FILENAME_TO_LONG answers exactly the messages that start with a command whose name has more
      than 1024 characters and is followed by its terminator. */
  lemma NameTooLong(msg: string, memory: string)
    ensures React(msg, memory) == Reply("FILENAME_TO_LONG\n") <==> HasLongName(msg)
  {
    if React(msg, memory) == Reply(FILENAME_TO_LONG) { LongNameFound(msg, memory); }
    if k: nat, cmd, name :| k <= |msg| && (Writes(cmd) || Names(cmd)) && InField(Filename, name) && |name| > 1024
                            && msg[..k] == Keyword(cmd) + (name + (if Writes(cmd) then " " else "\n")) {
      LongNameTold(msg, memory, k, cmd, name);
    }
  }

  lemma LongContentFound(msg: string, memory: string)
    requires React(msg, memory) == Reply(CONTENT_TO_LONG)
    ensures HasLongContent(msg)
  {
    FoundWord(msg);
    var k := Recognise(msg).used;
    assert Recognise(msg).v == TooLong(Content);
    var cmd :| WordOf(cmd, msg[..k], TooLong(Content));
    var fields :| LongContent(cmd, fields, msg[..k]);
  }

  lemma LongContentTold(msg: string, memory: string, k: nat, cmd: Command, fields: seq<string>)
    requires k <= |msg| && Writes(cmd) && Carries(cmd, fields) && |fields[0]| <= 1024 < |fields[2]|
    requires msg[..k] == Spell(cmd, fields)
    ensures React(msg, memory) == Reply(CONTENT_TO_LONG)
  {
    assert LongContent(cmd, fields, msg[..k]);
    assert WordOf(cmd, msg[..k], TooLong(Content));
    RecognisesWords(msg, k, TooLong(Content));
  }

  /** CONTENT_TO_LONG answers exactly the messages that start with a whole CREATE or UPDATE whose
      name fits and whose content has more than 1024 characters. */
  lemma ContentTooLong(msg: string, memory: string)
    ensures React(msg, memory) == Reply("CONTENT_TO_LONG\n") <==> HasLongContent(msg)
  {
    if React(msg, memory) == Reply(CONTENT_TO_LONG) { LongContentFound(msg, memory); }
    if k: nat, cmd, fields :| k <= |msg| && Writes(cmd) && Carries(cmd, fields) && |fields[0]| <= 1024 < |fields[2]|
                              && msg[..k] == Spell(cmd, fields) {
      LongContentTold(msg, memory, k, cmd, fields);
    }
  }

  /** The answer to this write depends on what lies in memory behind the length buffer: LENGTH has
      more than four digits, and the first four ask for less than the whole content. */
  ghost predicate Unsettled(cmd: Command, fields: seq<string>) {
    && Writes(cmd) && Carries(cmd, fields) && Short(fields)
    && |fields[1]| > SIZE_MAX_BUFLEN && Value(fields[1][..SIZE_MAX_BUFLEN]) < |fields[2]|
  }

  /** More digits behind a number never make it smaller. */
  lemma {:induction false} ValueAppend(p: string, d: string)
    requires Digits(p) && Digits(d)
    ensures Digits(p + d) && Value(p + d) >= Value(p)
    ensures d != "" ==> Value(p + d) >= 10 * Value(p)
  {
    if d == "" {
      assert p + d == p;
    } else {
      ValueAppend(p, d[..|d| - 1]);
      assert (p + d)[..|p + d| - 1] == p + d[..|d| - 1];
    }
  }

  /** Four stored digits, and what memory makes of them. */
  lemma DeclaredLong(digits: string, memory: string)
    requires Digits(digits) && |digits| > SIZE_MAX_BUFLEN
    ensures var stored := digits[..SIZE_MAX_BUFLEN];
            && Declared(digits, memory) >= Value(stored)
            && Declared(digits, "") == Value(stored)
            && Declared(digits, "9") == 10 * Value(stored) + 9
  {
    var stored := digits[..SIZE_MAX_BUFLEN];
    LeadingDigitsAppend(stored, memory);
    ValueAppend(stored, LeadingDigits(memory));
    assert stored + "" == stored;
    assert LeadingDigits("9") == "9";
    LeadingDigitsAppend(stored, "9");
    assert (stored + "9")[..|stored + "9"| - 1] == stored;
  }

  lemma SettledReaction(cmd: Command, fields: seq<string>, memory: string)
    requires Carries(cmd, fields) && Short(fields) && !Unsettled(cmd, fields)
    ensures CommandReaction(cmd, fields, memory) == CommandReaction(cmd, fields, "")
  {
    if Writes(cmd) && |fields[1]| > SIZE_MAX_BUFLEN { DeclaredLong(fields[1], memory); }
  }

  lemma UnsettledReaction(cmd: Command, fields: seq<string>)
    requires Unsettled(cmd, fields)
    ensures CommandReaction(cmd, fields, "") != CommandReaction(cmd, fields, "9")
  {
    DeclaredLong(fields[1], "");
    var few, more := KeptSize(Declared(fields[1], ""), |fields[2]|), KeptSize(Declared(fields[1], "9"), |fields[2]|);
    assert few < more;
    if few > 0 {
      assert |PayloadOf(fields, "")| == few + 1 && |PayloadOf(fields, "9")| == more + 1;
    }
  }

  /** What lies behind the length buffer decides the answer to a command exactly when LENGTH has
      more than four digits and the number its first four spell is below the content's length. */
  lemma MemoryMatters(cmd: Command, fields: seq<string>, tail: string)
    requires Carries(cmd, fields) && Short(fields)
    ensures (exists a, b :: React(Spell(cmd, fields) + tail, a) != React(Spell(cmd, fields) + tail, b)) <==> Unsettled(cmd, fields)
  {
    forall m: string ensures React(Spell(cmd, fields) + tail, m) == CommandReaction(cmd, fields, m) {
      SpelledIsExecuted(cmd, fields, tail, m);
    }
    if Unsettled(cmd, fields) {
      UnsettledReaction(cmd, fields);
    } else {
      forall m: string ensures CommandReaction(cmd, fields, m) == CommandReaction(cmd, fields, "") {
        SettledReaction(cmd, fields, m);
      }
    }
  }

  /** No other message's answer depends on memory. */
  lemma OthersSettled(msg: string, a: string, b: string)
    requires React(msg, a) != React(msg, b)
    ensures exists k: nat, cmd, fields :: k <= |msg| && Unsettled(cmd, fields) && msg[..k] == Spell(cmd, fields)
  {
    FoundWord(msg);
    VerdictsCarry(msg);
    var k, v := Recognise(msg).used, Recognise(msg).v;
    if !Unsettled(v.cmd, v.fields) {
      SettledReaction(v.cmd, v.fields, a);
      SettledReaction(v.cmd, v.fields, b);
    }
  }

  /** An instance: the same request is refused, or creates a file of one character, or of two. */
  lemma MemoryDecides(msg: string)
    requires msg == "CREATE f 00001\nab\n"
    ensures React(msg, "") == Reply(COMMAND_UNKNOWN)
            && React(msg, "1") == Ask(AppendUnique("f", ['a', NUL]))
            && React(msg, "9") == Ask(AppendUnique("f", ['a', 'b', NUL]))
  {
    ExampleReacts(msg, "");
    ExampleReacts(msg, "1");
    ExampleReacts(msg, "9");
    assert "ab"[..1] == "a" && "ab"[..2] == "ab";
    assert "a" + [NUL] == ['a', NUL] && "ab" + [NUL] == ['a', 'b', NUL];
  }

  lemma ExampleReacts(msg: string, memory: string)
    requires msg == "CREATE f 00001\nab\n" && memory in ["", "1", "9"]
    ensures React(msg, memory)
         == if memory == "" then Reply(COMMAND_UNKNOWN)
            else Ask(AppendUnique("f", "ab"[..if memory == "1" then 1 else 2] + [NUL]))
  {
    var fields := ["f", "00001", "ab"];
    ExampleSpelled();
    SpelledIsExecuted(Create, fields, "", memory);
    Zeros(memory);
  }

  lemma ExampleSpelled()
    ensures var fields := ["f", "00001", "ab"];
            Carries(Create, fields) && Short(fields) && Spell(Create, fields) + "" == "CREATE f 00001\nab\n"
  {
    assert LengthText("00001", "ab") == "00001\nab\n";
  }

  /** Four stored zeros and the digits found behind them. */
  lemma Zeros(memory: string)
    requires memory in ["", "1", "9"]
    ensures Declared("00001", memory) == if memory == "" then 0 else if memory == "1" then 1 else 9
  {
    var stored := "00001"[..SIZE_MAX_BUFLEN];
    assert stored == "0000";
    ZeroValue();
    LeadingDigitsAppend(stored, memory);
    if memory == "" {
      assert stored + "" == stored;
    } else {
      assert memory == [memory[0]] && LeadingDigits(memory) == memory;
      assert (stored + memory)[..|stored + memory| - 1] == stored && (stored + memory)[|stored + memory| - 1] == memory[0];
    }
  }

  lemma ZeroValue()
    ensures Value("0000") == 0
  {
    assert "0000"[..3] == "000" && "000"[..2] == "00" && "00"[..1] == "0" && "0"[..0] == "";
    assert Value("00") == 0;
  }

  // ----- the store

  /** An element as CREATE and UPDATE leave it: a name of 1 to 1024 characters, and a content of
      1 to 1024 characters with its terminator. */
  ghost predicate Stored(e: Elem) {
    && InField(Filename, e.id) && |e.id| <= MAX_BUFLEN
    && 2 <= |e.data| <= MAX_BUFLEN + 1 && e.data[|e.data| - 1] == NUL
    && InField(Content, e.data[..|e.data| - 1])
  }

  ghost predicate StoreOk(l: seq<Elem>) {
    Unique(l) && forall i :: 0 <= i < |l| ==> Stored(l[i])
  }

  /** An operation that a request can ask for. */
  ghost predicate Askable(op: Op) {
    FileOp(op) && (op.AppendUnique? || op.Update? ==> Stored(Elem(op.id, op.data)))
  }

  lemma PayloadStored(fields: seq<string>, memory: string)
    requires Carries(Create, fields) && Short(fields) && KeptSize(Declared(fields[1], memory), |fields[2]|) >= 1
    ensures Stored(Elem(fields[0], PayloadOf(fields, memory)))
  {
    var k := KeptSize(Declared(fields[1], memory), |fields[2]|);
    var data := PayloadOf(fields, memory);
    assert data[..|data| - 1] == fields[2][..k];
  }

  /** Requests only ever ask for such operations. */
  lemma ReactionsAskable(msg: string, memory: string)
    requires React(msg, memory).Ask?
    ensures Askable(React(msg, memory).op)
  {
    VerdictsCarry(msg);
    var v := Recognise(msg).v;
    if v.cmd.Create? || v.cmd.Update? { PayloadStored(v.fields, memory); }
  }

  lemma ApplyKeepsStore(op: Op, l: seq<Elem>)
    requires Askable(op) && StoreOk(l)
    ensures StoreOk(Apply(op, l).0)
  {
    ApplyUnique(op, l);
  }

  /** Every request keeps the store well-formed. */
  lemma ServeKeepsStore(msg: string, memory: string, l: seq<Elem>)
    requires StoreOk(l)
    ensures StoreOk(Serve(msg, memory, l).0)
  {
    if React(msg, memory).Ask? {
      ReactionsAskable(msg, memory);
      ApplyKeepsStore(React(msg, memory).op, l);
    }
  }

  // ----- lengths

  /** The content of a stored element, without its terminator. */
  function ContentOf(e: Elem): string
    requires |e.data| > 0
  {
    e.data[..|e.data| - 1]
  }

  lemma StoredString(e: Elem)
    requires Stored(e)
    ensures CString(e.data) == ContentOf(e)
  {
    assert e.data == ContentOf(e) + [NUL];
    forall i | 0 <= i < |ContentOf(e)| ensures ContentOf(e)[i] != NUL { assert InClass(Content, ContentOf(e)[i]); }
    CStringIs(e.data, ContentOf(e));
  }

  lemma Powers()
    ensures Power(1) == 10 && Power(2) == 100 && Power(3) == 1000 && Power(4) == 10000
  {
    assert Power(1) == 10 * Power(0);
    assert Power(2) == 10 * Power(1);
    assert Power(3) == 10 * Power(2);
    assert Power(4) == 10 * Power(3);
  }

  /** The size of a stored content is printed in full. */
  lemma SizePrinted(e: Elem)
    requires Stored(e)
    ensures Clip(Print(|e.data| - 1), SIZE_MAX_BUFLEN) == Print(|ContentOf(e)|) && |Print(|ContentOf(e)|)| <= 4
    ensures |Print(|ContentOf(e)|)| == 4 <==> |ContentOf(e)| >= 1000
  {
    Powers();
    PrintWidth(|e.data| - 1, 4);
    PrintWidth(|e.data| - 1, 3);
  }

  /** What READ answers for a stored element. */
  lemma ReadTextIs(e: Elem)
    requires Stored(e)
    ensures ReadText(e.id, e.data) == "FILECONTENT " + (e.id + (" " + (Print(|ContentOf(e)|) + ("\n" + (ContentOf(e) + "\n")))))
  {
    StoredString(e);
    SizePrinted(e);
    FileJoined(e.id, Print(|ContentOf(e)|), ContentOf(e));
  }

  lemma FileJoined(name: string, n: string, x: string)
    ensures Join(Join(Join(Join("FILECONTENT", name, " "), n, " "), x, "\n"), "", "\n")
         == "FILECONTENT " + (name + (" " + (n + ("\n" + (x + "\n")))))
  {
    var a := "FILECONTENT" + " " + name;
    assert a == "FILECONTENT " + name;
    assert x + "\n" + "" == x + "\n";
  }

  /** Every READ response fits a message buffer, and only the largest file fills it. */
  lemma ReadFits(e: Elem)
    requires Stored(e)
    ensures |ReadText(e.id, e.data)| <= MAX_MSG_LEN == 2067
    ensures |ReadText(e.id, e.data)| == MAX_MSG_LEN <==> |e.id| == MAX_BUFLEN && |ContentOf(e)| == MAX_BUFLEN
  {
    ReadTextIs(e);
    SizePrinted(e);
  }

  /** Every well-formed request fits one too. */
  lemma RequestFits(cmd: Command, fields: seq<string>)
    requires Carries(cmd, fields) && Short(fields) && (Writes(cmd) ==> |fields[1]| <= SIZE_MAX_BUFLEN)
    ensures |Spell(cmd, fields)| <= MAX_MSG_LEN
  {}

  // ----- write, read, parse, write again

  /** The characters before the first `c`. */
  function UpTo(s: string, c: char): (p: string)
    ensures p <= s && c !in p && (c in s ==> p + [c] <= s)
  {
    if s == [] || s[0] == c then "" else [s[0]] + UpTo(s[1..], c)
  }

  lemma {:induction false} UpToFirst(p: string, c: char, rest: string)
    requires c !in p
    ensures UpTo(p + ([c] + rest), c) == p
  {
    var s := p + ([c] + rest);
    if p != "" {
      assert s[0] == p[0] && s[1..] == p[1..] + ([c] + rest);
      UpToFirst(p[1..], c, rest);
    }
  }

  /** Splitting off a part and the separator after it. */
  lemma SplitAt(p: string, c: char, rest: string)
    requires c !in p
    ensures var s := p + ([c] + rest); UpTo(s, c) == p && |p| + 1 <= |s| && s[|p| + 1..] == rest
  {
    UpToFirst(p, c, rest);
  }

  datatype FileText = FileText(name: string, size: string, content: string)

  /** What a client reads from a FILECONTENT response: a name, a size and a content, each up to
      its separator. */
  function ParseFile(r: string): Option<FileText> {
    if !("FILECONTENT " <= r && ' ' in r[12..]) then None else
      var name := UpTo(r[12..], ' ');
      ParseSize(name, r[12..][|name| + 1..])
  }

  function ParseSize(name: string, b: string): Option<FileText> {
    if '\n' !in b then None else
      var size := UpTo(b, '\n');
      var c := b[|size| + 1..];
      if '\n' !in c then None else Some(FileText(name, size, UpTo(c, '\n')))
  }

  lemma NotIn(f: FieldKind, x: string, c: char)
    requires InField(f, x) && !InClass(f, c)
    ensures c !in x
  {}

  lemma ParseSizeText(name: string, n: string, x: string)
    requires '\n' !in n && '\n' !in x
    ensures ParseSize(name, n + (['\n'] + (x + (['\n'] + "")))) == Some(FileText(name, n, x))
  {
    var c := x + (['\n'] + "");
    SplitAt(n, '\n', c);
    SplitAt(x, '\n', "");
    assert (n + (['\n'] + c))[|n|] == '\n' && c[|x|] == '\n';
  }

  lemma ParseText(name: string, n: string, x: string)
    requires ' ' !in name && '\n' !in n && '\n' !in x
    ensures ParseFile("FILECONTENT " + (name + ([' '] + (n + (['\n'] + (x + (['\n'] + ""))))))) == Some(FileText(name, n, x))
  {
    var b := n + (['\n'] + (x + (['\n'] + "")));
    var a := name + ([' '] + b);
    SplitAt(name, ' ', b);
    assert ("FILECONTENT " + a)[12..] == a && a[|name|] == ' ';
    ParseSizeText(name, n, x);
  }

  /** Parsing inverts printing: the response gives back the name, the size and the content. */
  lemma ParseReadText(e: Elem)
    requires Stored(e)
    ensures ParseFile(ReadText(e.id, e.data)) == Some(FileText(e.id, Print(|ContentOf(e)|), ContentOf(e)))
    ensures Value(Print(|ContentOf(e)|)) == |ContentOf(e)|
  {
    ReadTextIs(e);
    PrintValue(|ContentOf(e)|);
    NotIn(Filename, e.id, ' ');
    NotIn(Length, Print(|ContentOf(e)|), '\n');
    NotIn(Content, ContentOf(e), '\n');
    assert ContentOf(e) + (['\n'] + "") == ContentOf(e) + "\n";
    ParseText(e.id, Print(|ContentOf(e)|), ContentOf(e));
  }

  /** The element a successful write leaves. */
  function Written(fields: seq<string>): Elem
    requires |fields| == 3 && Digits(fields[1])
  {
    Elem(fields[0], fields[2][..Min(Value(fields[1]), |fields[2]|)] + [NUL])
  }

  /** What a write of at most four digits asks for. */
  function WriteReaction(cmd: Command, fields: seq<string>): Reaction
    requires |fields| == 3 && Digits(fields[1])
  {
    if Value(fields[1]) < 1 then Reply(COMMAND_UNKNOWN)
    else if cmd.Create? then Ask(AppendUnique(fields[0], Written(fields).data))
    else Ask(Op.Update(fields[0], Written(fields).data))
  }

  lemma WriteReacts(cmd: Command, fields: seq<string>, tail: string, memory: string)
    requires Writes(cmd) && Carries(cmd, fields) && Short(fields) && |fields[1]| <= SIZE_MAX_BUFLEN
    ensures React(Spell(cmd, fields) + tail, memory) == WriteReaction(cmd, fields)
  {
    SpelledIsExecuted(cmd, fields, tail, memory);
  }

  lemma WriteApplies(op: Op, store: seq<Elem>)
    requires op.AppendUnique? || op.Update?
    requires Unique(store) && Apply(op, store).1 == Code(0)
    ensures var after := Apply(op, store).0; Has(after, op.id) && after[Find(after, op.id)] == Elem(op.id, op.data)
  {
    ApplyUnique(op, store);
    var after := Apply(op, store).0;
    var i := if op.AppendUnique? then |store| else Find(store, op.id);
    HasAt(after, op.id, i);
    FindUnique(after, i);
  }

  lemma WriteSettles(cmd: Command, fields: seq<string>, store: seq<Elem>)
    requires Writes(cmd) && Carries(cmd, fields) && Unique(store)
    requires Settle(WriteReaction(cmd, fields), store).1 == (if cmd.Create? then FILECREATED else UPDATED)
    ensures var after := Settle(WriteReaction(cmd, fields), store).0;
            Has(after, fields[0]) && after[Find(after, fields[0])] == Written(fields)
    ensures 1 <= Min(Value(fields[1]), |fields[2]|)
  {
    WriteApplies(WriteReaction(cmd, fields).op, store);
  }

  /** CREATE or UPDATE with a LENGTH of at most four digits, when it succeeds: the store has the
      name with the first min(LENGTH, |content|) characters of the content. */
  lemma WriteStores(cmd: Command, fields: seq<string>, tail: string, memory: string, store: seq<Elem>)
    requires Writes(cmd) && Carries(cmd, fields) && Short(fields) && |fields[1]| <= SIZE_MAX_BUFLEN && StoreOk(store)
    requires Serve(Spell(cmd, fields) + tail, memory, store).1 == (if cmd.Create? then FILECREATED else UPDATED)
    ensures var after := Serve(Spell(cmd, fields) + tail, memory, store).0;
            && StoreOk(after) && Has(after, fields[0]) && after[Find(after, fields[0])] == Written(fields)
            && 1 <= Min(Value(fields[1]), |fields[2]|)
  {
    WriteReacts(cmd, fields, tail, memory);
    ServeKeepsStore(Spell(cmd, fields) + tail, memory, store);
    WriteSettles(cmd, fields, store);
  }

  /** The round trip: after a successful write, READ answers `FILECONTENT f k` with the first k
      characters; parsing that answer gives back f, k and them; and submitting them again as an
      UPDATE leaves the store as it is. */
  lemma RoundTrip(cmd: Command, fields: seq<string>, tail: string, tail2: string, tail3: string, memory: string, store: seq<Elem>)
    requires Writes(cmd) && Carries(cmd, fields) && Short(fields) && |fields[1]| <= SIZE_MAX_BUFLEN && StoreOk(store)
    requires Serve(Spell(cmd, fields) + tail, memory, store).1 == (if cmd.Create? then FILECREATED else UPDATED)
    ensures var after := Serve(Spell(cmd, fields) + tail, memory, store).0;
            var k := Min(Value(fields[1]), |fields[2]|);
            var x := fields[2][..k];
            var (same, answer) := Serve(Spell(Read, [fields[0]]) + tail2, memory, after);
            && same == after
            && answer == "FILECONTENT " + (fields[0] + (" " + (Print(k) + ("\n" + (x + "\n")))))
            && ParseFile(answer) == Some(FileText(fields[0], Print(k), x)) && Value(Print(k)) == k
            && Carries(Command.Update, [fields[0], Print(k), x])
            && Serve(Spell(Command.Update, [fields[0], Print(k), x]) + tail3, memory, after) == (after, UPDATED)
  {
    WriteStores(cmd, fields, tail, memory, store);
    var after := Serve(Spell(cmd, fields) + tail, memory, store).0;
    var e := Written(fields);
    assert Stored(e);
    ReadBack(e, tail2, memory, after);
    ParseReadText(e);
    ReadTextIs(e);
    WriteAgain(e, tail3, memory, after);
  }

  lemma ReadBack(e: Elem, tail: string, memory: string, store: seq<Elem>)
    requires Stored(e) && Has(store, e.id) && store[Find(store, e.id)] == e
    ensures Serve(Spell(Read, [e.id]) + tail, memory, store) == (store, ReadText(e.id, e.data))
  {
    SpelledIsExecuted(Read, [e.id], tail, memory);
    FoundRead(e, store);
  }

  lemma FoundRead(e: Elem, store: seq<Elem>)
    requires e.data != [] && Has(store, e.id) && store[Find(store, e.id)] == e
    ensures Settle(Ask(GetById(e.id)), store) == (store, ReadText(e.id, e.data))
  {
  }

  lemma WriteAgain(e: Elem, tail: string, memory: string, store: seq<Elem>)
    requires Stored(e) && Has(store, e.id) && store[Find(store, e.id)] == e
    ensures var fields := [e.id, Print(|ContentOf(e)|), ContentOf(e)];
            Carries(Command.Update, fields) && Serve(Spell(Command.Update, fields) + tail, memory, store) == (store, UPDATED)
  {
    var fields := [e.id, Print(|ContentOf(e)|), ContentOf(e)];
    PrintValue(|ContentOf(e)|);
    SizePrinted(e);
    WriteReacts(Command.Update, fields, tail, memory);
    SameSettles(e, fields, store);
  }

  lemma SameSettles(e: Elem, fields: seq<string>, store: seq<Elem>)
    requires Stored(e) && |fields| == 3 && fields[0] == e.id && fields[2] == ContentOf(e)
    requires Digits(fields[1]) && Value(fields[1]) == |ContentOf(e)|
    requires Has(store, e.id) && store[Find(store, e.id)] == e
    ensures Settle(WriteReaction(Command.Update, fields), store) == (store, UPDATED)
  {
    SameElement(e, fields);
    assert store[Find(store, e.id) := e] == store;
  }

  lemma SameElement(e: Elem, fields: seq<string>)
    requires Stored(e) && |fields| == 3 && fields[0] == e.id && fields[2] == ContentOf(e)
    requires Digits(fields[1]) && Value(fields[1]) == |ContentOf(e)|
    ensures Written(fields) == e
  {
    assert ContentOf(e)[..|ContentOf(e)|] == ContentOf(e);
    assert ContentOf(e) + [NUL] == e.data;
  }

  // ----- LIST

  /** The lines of a text, each ended by a newline. */
  function Lines(s: string): seq<string>
    decreases |s|
  {
    if '\n' !in s then [] else
      var line := UpTo(s, '\n');
      [line] + Lines(s[|line| + 1..])
  }

  lemma FirstLine(line: string, rest: string)
    requires '\n' !in line
    ensures Lines(line + (['\n'] + rest)) == [line] + Lines(rest)
  {
    SplitAt(line, '\n', rest);
    assert (line + (['\n'] + rest))[|line|] == '\n';
  }

  function Ids(l: seq<Elem>): (ids: seq<string>)
    ensures |ids| == |l| && forall i :: 0 <= i < |l| ==> ids[i] == l[i].id
  {
    seq(|l|, i requires 0 <= i < |l| => l[i].id)
  }

  lemma IdTextFirst(first: string, l: seq<Elem>)
    requires l != []
    ensures first + (IdText(l) + "\n") == first + (['\n'] + (l[0].id + (IdText(l[1..]) + "\n")))
  {
    assert IdText(l) == ['\n'] + (l[0].id + IdText(l[1..]));
  }

  /** A first line, the names, and the last newline. */
  lemma {:induction false} ListedLines(first: string, l: seq<Elem>)
    requires '\n' !in first && forall i :: 0 <= i < |l| ==> '\n' !in l[i].id
    ensures Lines(first + (IdText(l) + "\n")) == [first] + Ids(l)
    decreases |l|
  {
    if l == [] {
      LastLine(first);
    } else {
      IdTextFirst(first, l);
      FirstLine(first, l[0].id + (IdText(l[1..]) + "\n"));
      ListedLines(l[0].id, l[1..]);
      IdsFirst(l);
    }
  }

  lemma LastLine(first: string)
    requires '\n' !in first
    ensures Lines(first + ("" + "\n")) == [first]
  {
    assert "" + "\n" == ['\n'] + "";
    FirstLine(first, "");
  }

  lemma IdsFirst(l: seq<Elem>)
    requires l != []
    ensures Ids(l) == [l[0].id] + Ids(l[1..])
  {}

  lemma ListTextIs(n: nat, text: string)
    ensures ListText(n, text) == ("ACK " + Clip(Print(n), SIZE_MAX_BUFLEN - 1)) + (text + "\n")
  {
    var count := Clip(Print(n), SIZE_MAX_BUFLEN - 1);
    assert "ACK" + " " + count == "ACK " + count;
    assert ListText(n, text) == ("ACK " + count) + "" + text + "\n" + "";
  }

  lemma CountLine(n: nat)
    ensures '\n' !in "ACK " + Clip(Print(n), SIZE_MAX_BUFLEN - 1)
  {
    NotIn(Length, Print(n), '\n');
  }

  /** The LIST response is decodable: its lines are the acknowledgement and then the names, in
      the order of the list. */
  lemma ListDecodes(l: seq<Elem>)
    requires StoreOk(l)
    ensures Lines(ListText(|l|, IdText(l))) == ["ACK " + Clip(Print(|l|), SIZE_MAX_BUFLEN - 1)] + Ids(l)
  {
    forall i | 0 <= i < |l| ensures '\n' !in l[i].id { NotIn(Filename, l[i].id, '\n'); }
    CountLine(|l|);
    ListTextIs(|l|, IdText(l));
    ListedLines("ACK " + Clip(Print(|l|), SIZE_MAX_BUFLEN - 1), l);
  }

  /** The count is printed into four bytes: it is right exactly for up to 999 files. */
  lemma CountExact(n: nat)
    ensures Value(Clip(Print(n), SIZE_MAX_BUFLEN - 1)) == n <==> n <= 999
  {
    Powers();
    PrintWidth(n, 3);
    PrintValue(n);
    assert Print(n)[..|Print(n)|] == Print(n);
    if n > 999 {
      var c := Clip(Print(n), 3);
      assert |c| == 3;
      ValueBelow(c);
    }
  }

  lemma {:induction false} ValueBelow(s: string)
    requires Digits(s)
    ensures Value(s) < Power(|s|)
  {
    if s != "" { ValueBelow(s[..|s| - 1]); }
  }

  /** The fields of a request to create the file whose name is the number `i`. */
  function Numbered(i: nat): seq<string> {
    [Print(i), "1", "x"]
  }

  /** What `n` such requests leave of an empty store. */
  function Filled(n: nat): seq<Elem> {
    if n == 0 then [] else Serve(Spell(Create, Numbered(n - 1)), "", Filled(n - 1)).0
  }

  lemma NumberedCarries(i: nat, k: nat)
    requires 0 < k <= MAX_BUFLEN && i < Power(k)
    ensures Carries(Create, Numbered(i)) && Short(Numbered(i))
  {
    PrintWidth(i, k);
    assert InField(Length, Print(i)) && InField(Filename, Print(i));
    assert InField(Length, "1") && InField(Content, "x");
  }

  lemma NumberedReacts(i: nat, k: nat)
    requires 0 < k <= MAX_BUFLEN && i < Power(k)
    ensures Carries(Create, Numbered(i)) && Short(Numbered(i))
    ensures CommandReaction(Create, Numbered(i), "") == Ask(AppendUnique(Print(i), ['x', NUL]))
  {
    NumberedCarries(i, k);
    assert "1"[..0] == "" && Value("1") == 1;
    assert "x"[..1] + [NUL] == ['x', NUL];
  }

  lemma NumberedServed(i: nat, k: nat, before: seq<Elem>)
    requires 0 < k <= MAX_BUFLEN && i < Power(k) && forall j :: 0 <= j < |before| ==> before[j].id != Print(i)
    ensures Serve(Spell(Create, Numbered(i)), "", before).0 == before + [Elem(Print(i), ['x', NUL])]
  {
    NumberedReacts(i, k);
    CommandServed(Create, Numbered(i), "", before);
    assert !Has(before, Print(i));
  }

  /** The store holds the names 0, 1, 2, ... */
  ghost predicate HoldsNumbers(l: seq<Elem>) {
    StoreOk(l) && forall i :: 0 <= i < |l| ==> l[i].id == Print(i)
  }

  lemma NextNumber(before: seq<Elem>, k: nat)
    requires 0 < k <= MAX_BUFLEN && HoldsNumbers(before) && |before| < Power(k)
    ensures forall i :: 0 <= i < |before| ==> before[i].id != Print(|before|)
    ensures HoldsNumbers(before + [Elem(Print(|before|), ['x', NUL])])
  {
    forall i | 0 <= i < |before| ensures before[i].id != Print(|before|) {
      PrintValue(i);
      PrintValue(|before|);
    }
    NumberStored(|before|, k);
  }

  lemma NumberStored(i: nat, k: nat)
    requires 0 < k <= MAX_BUFLEN && i < Power(k)
    ensures Stored(Elem(Print(i), ['x', NUL]))
  {
    NumberedCarries(i, k);
    assert ['x', NUL][..1] == ['x'];
  }

  lemma {:induction false} FilledStore(n: nat, k: nat)
    requires 0 < k <= MAX_BUFLEN && n <= Power(k)
    ensures |Filled(n)| == n && HoldsNumbers(Filled(n))
  {
    if n > 0 {
      FilledStore(n - 1, k);
      NextNumber(Filled(n - 1), k);
      NumberedServed(n - 1, k, Filled(n - 1));
    }
  }

  lemma CommandServed(cmd: Command, fields: seq<string>, memory: string, store: seq<Elem>)
    requires Carries(cmd, fields) && Short(fields)
    ensures Serve(Spell(cmd, fields), memory, store) == Settle(CommandReaction(cmd, fields, memory), store)
  {
    SpelledIsExecuted(cmd, fields, "", memory);
    assert Spell(cmd, fields) + "" == Spell(cmd, fields);
  }

  lemma ListServed(list: Command, none: seq<string>, tail: string, memory: string, store: seq<Elem>)
    requires list.List? && none == []
    ensures Serve(Spell(list, none) + tail, memory, store) == (store, ListText(|store|, IdText(store)))
  {
    SpelledIsExecuted(list, none, tail, memory);
    ListReaction(list, none, memory);
    ListSettles(store);
  }

  lemma ListReaction(list: Command, none: seq<string>, memory: string)
    requires list.List? && none == []
    ensures Carries(list, none) && Short(none) && CommandReaction(list, none, memory) == Ask(GetAllIds)
  {
  }

  lemma ListSettles(store: seq<Elem>)
    ensures Settle(Ask(GetAllIds), store) == (store, ListText(|store|, IdText(store)))
  {
  }

  lemma FirstLineRight(n: nat)
    ensures "ACK " + Clip(Print(n), SIZE_MAX_BUFLEN - 1) == "ACK " + Print(n) <==> n <= 999
  {
    CountExact(n);
    PrintValue(n);
    Powers();
    PrintWidth(n, 3);
    var c := Clip(Print(n), SIZE_MAX_BUFLEN - 1);
    assert ("ACK " + c)[4..] == c && ("ACK " + Print(n))[4..] == Print(n);
  }

  lemma NumbersListed(l: seq<Elem>)
    requires HoldsNumbers(l)
    ensures var lines := Lines(ListText(|l|, IdText(l)));
            && |lines| == |l| + 1 && lines[0] == "ACK " + Clip(Print(|l|), SIZE_MAX_BUFLEN - 1)
            && (forall i :: 0 <= i < |l| ==> lines[i + 1] == Print(i))
  {
    ListDecodes(l);
  }

  /** After CREATE requests for the first `n` numbers (any `n` whose numerals fit a name), LIST
      gives all their names, and its first line counts them exactly for up to 999. */
  lemma ListMiscounts(n: nat, k: nat, tail: string, memory: string)
    requires 0 < k <= MAX_BUFLEN && n <= Power(k)
    ensures var lines := Lines(Serve(Spell(List, []) + tail, memory, Filled(n)).1);
            && |lines| == n + 1
            && (forall i :: 0 <= i < n ==> lines[i + 1] == Print(i))
            && (lines[0] == "ACK " + Print(n) <==> n <= 999)
  {
    FilledStore(n, k);
    ListServed(List, [], tail, memory, Filled(n));
    NumbersListed(Filled(n));
    FirstLineRight(n);
  }

  /** An instance: after a thousand CREATE requests the LIST has a thousand names and counts a
      hundred. */
  lemma ThousandFiles(n: nat, tail: string, memory: string)
    requires n == 1000
    ensures var lines := Lines(Serve(Spell(List, []) + tail, memory, Filled(n)).1);
            |lines| == n + 1 && lines[0] == "ACK 100"
  {
    PrintThousand();
    Powers();
    FilledStore(n, 3);
    ListServed(List, [], tail, memory, Filled(n));
    NumbersListed(Filled(n));
  }

  lemma PrintThousand()
    ensures Print(1000) == "1000" && "ACK " + Clip(Print(1000), SIZE_MAX_BUFLEN - 1) == "ACK 100"
  {
    assert Print(1) == "1" && Print(10) == "10" && Print(100) == "100";
    assert Print(1000) == "1000";
    assert "1000"[..3] == "100";
  }
}
