/** What every request is told, in full: each message as it is written, each response as it is
    read, and the limits as numbers. */
module Answers {
  import opened Grammar
  import opened Language
  import opened Messages
  import opened ListSpec
  import opened RoundTrip

  // ----- the parts of a message

  ghost predicate NameText(f: string) {
    1 <= |f| && forall i :: 0 <= i < |f| ==> '!' <= f[i] <= '~'
  }

  ghost predicate LengthDigits(n: string) {
    1 <= |n| && forall i :: 0 <= i < |n| ==> '0' <= n[i] <= '9'
  }

  ghost predicate ContentChars(x: string) {
    1 <= |x| && forall i :: 0 <= i < |x| ==> ' ' <= x[i] <= '~'
  }

  /** The fields of a CREATE or an UPDATE within the limits. */
  ghost predicate Writable(f: string, n: string, x: string) {
    NameText(f) && |f| <= 1024 && LengthDigits(n) && ContentChars(x) && |x| <= 1024
  }

  ghost predicate Absent(store: seq<Elem>, f: string) {
    forall i :: 0 <= i < |store| ==> store[i].id != f
  }

  ghost predicate FirstNamed(store: seq<Elem>, f: string, i: nat) {
    i < |store| && store[i].id == f && forall j :: 0 <= j < i ==> store[j].id != f
  }

  lemma FindIs(store: seq<Elem>, f: string)
    ensures Absent(store, f) <==> !Has(store, f)
    ensures forall i: nat :: FirstNamed(store, f, i) ==> Find(store, f) == i && Has(store, f)
  {
    if Has(store, f) { assert Matches(store[Find(store, f)], f); }
    forall i: nat | FirstNamed(store, f, i) ensures Find(store, f) == i {
      assert Matches(store[i], f);
      assert !(Find(store, f) < i);
    }
  }

  /** Messages with one field, and with three. */
  function Naming(command: string, f: string, tail: string): string {
    command + " " + f + "\n" + tail
  }

  function Writing(command: string, f: string, n: string, x: string, tail: string): string {
    command + " " + f + " " + n + "\n" + x + "\n" + tail
  }

  lemma NamingSpelled(cmd: Command, command: string, f: string, tail: string)
    requires Names(cmd) && Keyword(cmd) == command + " " && NameText(f)
    ensures Carries(cmd, [f]) && Naming(command, f, tail) == Spell(cmd, [f]) + tail
  {
    assert Spell(cmd, [f]) == command + " " + (f + "\n");
  }

  lemma WritingSpelled(cmd: Command, command: string, f: string, n: string, x: string, tail: string)
    requires Writes(cmd) && Keyword(cmd) == command + " " && NameText(f) && LengthDigits(n) && ContentChars(x)
    ensures Carries(cmd, [f, n, x]) && Writing(command, f, n, x, tail) == Spell(cmd, [f, n, x]) + tail
  {
    assert Spell(cmd, [f, n, x]) == Keyword(cmd) + WriteText(f, n, x);
    WriteTextIs(f, n, x);
    WritingJoins(command, f, n, x, tail);
  }

  lemma WriteTextIs(f: string, n: string, x: string)
    ensures WriteText(f, n, x) == f + (" " + (n + ("\n" + (x + "\n"))))
  {
  }

  lemma WritingJoins(command: string, f: string, n: string, x: string, tail: string)
    ensures Writing(command, f, n, x, tail) == command + " " + (f + (" " + (n + ("\n" + (x + "\n"))))) + tail
  {
  }

  lemma Keywords()
    ensures Keyword(Read) == "READ" + " " && Keyword(Delete) == "DELETE" + " "
    ensures Keyword(Command.Update) == "UPDATE" + " " && Keyword(Create) == "CREATE" + " "
  {
  }

  lemma NamingServed(cmd: Command, command: string, f: string, tail: string, memory: string, store: seq<Elem>)
    requires Names(cmd) && Keyword(cmd) == command + " " && NameText(f) && |f| <= 1024
    ensures Carries(cmd, [f])
    ensures Serve(Naming(command, f, tail), memory, store) == Settle(CommandReaction(cmd, [f], memory), store)
  {
    NamingSpelled(cmd, command, f, tail);
    SpelledIsExecuted(cmd, [f], tail, memory);
  }

  /** The number that LENGTH comes to: its digits, if there are at most four; else the first four
      and the digits that follow in memory. */
  ghost predicate Comes(n: string, memory: string, k: nat) {
    LengthDigits(n) && Digits(n)
    && (|n| <= 4 ==> k == Value(n))
    && (|n| > 4 ==> exists more: string, rest: string ::
          Digits(more) && memory == more + rest && (rest != [] ==> !('0' <= rest[0] <= '9')) && k == Value(n[..4] + more))
  }

  lemma ComesDeclared(n: string, memory: string, k: nat)
    requires Comes(n, memory, k)
    ensures Declared(n, memory) == k
  {
    if |n| > 4 {
      var more, rest :| Digits(more) && memory == more + rest && (rest != [] ==> !('0' <= rest[0] <= '9')) && k == Value(n[..4] + more);
      var number := n[..4] + more;
      assert n[..4] + memory == number + rest;
      LeadingDigitsAppend(number, rest);
      assert LeadingDigits(rest) == "" && number + "" == number;
    }
  }

  /** It always comes to some number. */
  lemma SomeNumber(n: string, memory: string) returns (k: nat)
    requires LengthDigits(n)
    ensures Comes(n, memory, k)
  {
    k := Declared(n, memory);
    if |n| > 4 {
      var more := LeadingDigits(memory);
      LeadingEnds(memory);
      LeadingDigitsAppend(n[..4], memory);
      assert memory == more + memory[|more|..];
    }
  }

  lemma {:induction false} LeadingEnds(s: string)
    ensures var d := LeadingDigits(s); |d| < |s| ==> !('0' <= s[|d|] <= '9')
  {
    if s != [] && InClass(Length, s[0]) { LeadingEnds(s[1..]); }
  }

  /** What a write keeps of its content, as stored. */
  function KeptAs(f: string, k: nat, x: string): Elem {
    Elem(f, x[..if k < |x| then k else |x|] + "\0")
  }

  /** What a write asks for when its LENGTH comes to `k`. */
  function Asked(cmd: Command, f: string, k: nat, x: string): Reaction {
    if k == 0 then Reply("COMMAND_UNKNOWN\n")
    else if cmd.Create? then Ask(AppendUnique(f, KeptAs(f, k, x).data))
    else Ask(Op.Update(f, KeptAs(f, k, x).data))
  }

  lemma WritingServed(cmd: Command, command: string, f: string, n: string, x: string, k: nat, tail: string, memory: string, store: seq<Elem>)
    requires Writes(cmd) && Keyword(cmd) == command + " " && Writable(f, n, x) && Comes(n, memory, k)
    ensures Serve(Writing(command, f, n, x, tail), memory, store) == Settle(Asked(cmd, f, k, x), store)
  {
    WritingSpelled(cmd, command, f, n, x, tail);
    SpelledIsExecuted(cmd, [f, n, x], tail, memory);
    WritingAsks(cmd, f, n, x, k, memory);
  }

  lemma WritingAsks(cmd: Command, f: string, n: string, x: string, k: nat, memory: string)
    requires Writes(cmd) && Writable(f, n, x) && Comes(n, memory, k)
    ensures Carries(cmd, [f, n, x]) && CommandReaction(cmd, [f, n, x], memory) == Asked(cmd, f, k, x)
  {
    ComesDeclared(n, memory, k);
  }

  // ----- DELETE and READ

  lemma RemoveSettles(f: string, store: seq<Elem>)
    ensures Absent(store, f) ==> Settle(Ask(RemoveById(f)), store) == (store, "NOSUCHFILE\n")
    ensures forall i: nat :: FirstNamed(store, f, i) ==> Settle(Ask(RemoveById(f)), store) == (Without(store, i), "DELETED\n")
  {
    FindIs(store, f);
  }

  /** DELETE removes the file and says so, or says that there is none and changes nothing. */
  lemma DeleteAnswered(f: string, tail: string, memory: string, store: seq<Elem>)
    requires NameText(f) && |f| <= 1024
    ensures Absent(store, f) ==> Serve(Naming("DELETE", f, tail), memory, store) == (store, "NOSUCHFILE\n")
    ensures forall i: nat :: FirstNamed(store, f, i) ==>
              Serve(Naming("DELETE", f, tail), memory, store) == (Without(store, i), "DELETED\n")
  {
    Keywords();
    NamingServed(Delete, "DELETE", f, tail, memory, store);
    RemoveSettles(f, store);
  }

  /** The text that READ sends for a file. */
  function FileContent(f: string, x: string): string {
    "FILECONTENT " + f + " " + Print(|x|) + "\n" + x + "\n"
  }

  lemma GetMissing(f: string, store: seq<Elem>)
    requires Absent(store, f)
    ensures Settle(Ask(GetById(f)), store) == (store, "NOSUCHFILE\n")
  {
    FindIs(store, f);
  }

  lemma GetFound(f: string, store: seq<Elem>, i: nat)
    requires FirstNamed(store, f, i) && Stored(store[i])
    ensures Settle(Ask(GetById(f)), store) == (store, FileContent(f, ContentOf(store[i])))
  {
    FindIs(store, f);
    FoundRead(store[i], store);
    ReadTextIs(store[i]);
    FileJoins(f, Print(|ContentOf(store[i])|), ContentOf(store[i]));
  }

  lemma FileJoins(f: string, n: string, x: string)
    ensures "FILECONTENT " + f + " " + n + "\n" + x + "\n" == "FILECONTENT " + (f + (" " + (n + ("\n" + (x + "\n")))))
  {
  }

  /** READ says what the file holds, or that there is none; it never changes anything. */
  lemma ReadAnswered(f: string, tail: string, memory: string, store: seq<Elem>)
    requires NameText(f) && |f| <= 1024
    ensures Absent(store, f) ==> Serve(Naming("READ", f, tail), memory, store) == (store, "NOSUCHFILE\n")
    ensures forall i: nat :: FirstNamed(store, f, i) && Stored(store[i]) ==>
              Serve(Naming("READ", f, tail), memory, store) == (store, FileContent(f, ContentOf(store[i])))
  {
    Keywords();
    NamingServed(Read, "READ", f, tail, memory, store);
    if Absent(store, f) { GetMissing(f, store); }
    forall i: nat | FirstNamed(store, f, i) && Stored(store[i])
      ensures Settle(Ask(GetById(f)), store) == (store, FileContent(f, ContentOf(store[i])))
    {
      GetFound(f, store, i);
    }
  }

  // ----- CREATE and UPDATE

  lemma CreateSettles(e: Elem, store: seq<Elem>)
    ensures Settle(Ask(AppendUnique(e.id, e.data)), store) ==
            if Absent(store, e.id) then (store + [e], "FILECREATED\n") else (store, "FILEEXISTS\n")
  {
    FindIs(store, e.id);
  }

  lemma UpdateSettles(e: Elem, store: seq<Elem>)
    ensures Absent(store, e.id) ==> Settle(Ask(Op.Update(e.id, e.data)), store) == (store, "NOSUCHFILE\n")
    ensures forall i: nat :: FirstNamed(store, e.id, i) ==>
              Settle(Ask(Op.Update(e.id, e.data)), store) == (store[i := e], "UPDATED\n")
  {
    FindIs(store, e.id);
  }

  /** CREATE adds the file at the end and says so, or says that there is one already; a LENGTH of
      zero is refused. */
  lemma CreateAnswered(f: string, n: string, x: string, k: nat, tail: string, memory: string, store: seq<Elem>)
    requires Writable(f, n, x) && Comes(n, memory, k)
    ensures Serve(Writing("CREATE", f, n, x, tail), memory, store) ==
            if k == 0 then (store, "COMMAND_UNKNOWN\n")
            else if Absent(store, f) then (store + [KeptAs(f, k, x)], "FILECREATED\n")
            else (store, "FILEEXISTS\n")
  {
    Keywords();
    WritingServed(Create, "CREATE", f, n, x, k, tail, memory, store);
    CreateSettles(KeptAs(f, k, x), store);
  }

  /** UPDATE replaces the content and says so, or says that there is no such file. */
  lemma UpdateAnswered(f: string, n: string, x: string, k: nat, tail: string, memory: string, store: seq<Elem>)
    requires Writable(f, n, x) && Comes(n, memory, k)
    ensures k == 0 ==> Serve(Writing("UPDATE", f, n, x, tail), memory, store) == (store, "COMMAND_UNKNOWN\n")
    ensures k > 0 && Absent(store, f) ==>
              Serve(Writing("UPDATE", f, n, x, tail), memory, store) == (store, "NOSUCHFILE\n")
    ensures forall i: nat :: k > 0 && FirstNamed(store, f, i) ==>
              Serve(Writing("UPDATE", f, n, x, tail), memory, store) == (store[i := KeptAs(f, k, x)], "UPDATED\n")
  {
    Keywords();
    WritingServed(Command.Update, "UPDATE", f, n, x, k, tail, memory, store);
    UpdateSettles(KeptAs(f, k, x), store);
  }

  // ----- the others

  /** The number LIST sends: its first three digits. */
  function CountText(n: nat): string {
    Print(n)[..if |Print(n)| < 3 then |Print(n)| else 3]
  }

  lemma ListText3(n: nat, text: string)
    ensures ListText(n, text) == "ACK " + CountText(n) + text + "\n"
  {
    ListTextIs(n, text);
    assert "ACK " + CountText(n) + text + "\n" == ("ACK " + CountText(n)) + (text + "\n");
  }

  lemma ListSpelled(list: Command, none: seq<string>)
    requires list.List? && none == []
    ensures Spell(list, none) == "LIST\n"
  {
  }

  lemma ListTold(list: Command, none: seq<string>, tail: string, memory: string, store: seq<Elem>)
    requires list.List? && none == []
    ensures Serve("LIST\n" + tail, memory, store) == (store, ListText(|store|, IdText(store)))
  {
    ListSpelled(list, none);
    ListServed(list, none, tail, memory, store);
  }

  /** LIST counts the files and names them in order. */
  lemma ListAnswered(tail: string, memory: string, store: seq<Elem>)
    ensures Serve("LIST\n" + tail, memory, store) == (store, "ACK " + CountText(|store|) + IdText(store) + "\n")
  {
    ListTold(List, [], tail, memory, store);
    ListText3(|store|, IdText(store));
  }

  lemma SpecialAnswered(tail: string, memory: string, store: seq<Elem>)
    ensures Serve("Cdist\n" + tail, memory, store) == (store, "FTW ;-)\n")
  {
    SpelledIsExecuted(Special, [], tail, memory);
    assert Spell(Special, []) == "Cdist\n";
  }

  // ----- messages beyond the limits

  /** A name of more than 1024 characters, before its terminator. */
  lemma LongNameAnswered(cmd: Command, f: string, tail: string, memory: string, store: seq<Elem>)
    requires NameText(f) && |f| >= 1025
    ensures Serve("READ " + f + "\n" + tail, memory, store) == (store, "FILENAME_TO_LONG\n")
    ensures Serve("DELETE " + f + "\n" + tail, memory, store) == (store, "FILENAME_TO_LONG\n")
    ensures Serve("UPDATE " + f + " " + tail, memory, store) == (store, "FILENAME_TO_LONG\n")
    ensures Serve("CREATE " + f + " " + tail, memory, store) == (store, "FILENAME_TO_LONG\n")
  {
    LongNameServed(Read, "READ ", f, tail, memory, store);
    LongNameServed(Delete, "DELETE ", f, tail, memory, store);
    LongNameServed(Command.Update, "UPDATE ", f, tail, memory, store);
    LongNameServed(Create, "CREATE ", f, tail, memory, store);
  }

  lemma LongNameServed(cmd: Command, keyword: string, f: string, tail: string, memory: string, store: seq<Elem>)
    requires (Writes(cmd) || Names(cmd)) && keyword == Keyword(cmd) && NameText(f) && |f| >= 1025
    ensures Serve(keyword + f + (if Writes(cmd) then " " else "\n") + tail, memory, store) == (store, "FILENAME_TO_LONG\n")
  {
    var end := if Writes(cmd) then " " else "\n";
    var w, msg := keyword + (f + end), keyword + f + end + tail;
    assert msg == w + tail && msg[..|w|] == w;
    LongNameTold(msg, memory, |w|, cmd, f);
  }

  /** A content of more than 1024 characters, whatever the LENGTH. */
  lemma LongContentAnswered(f: string, n: string, x: string, tail: string, memory: string, store: seq<Elem>)
    requires NameText(f) && |f| <= 1024 && LengthDigits(n) && ContentChars(x) && |x| >= 1025
    ensures Serve(Writing("CREATE", f, n, x, tail), memory, store) == (store, "CONTENT_TO_LONG\n")
    ensures Serve(Writing("UPDATE", f, n, x, tail), memory, store) == (store, "CONTENT_TO_LONG\n")
  {
    Keywords();
    LongContentServed(Create, "CREATE", f, n, x, tail, memory, store);
    LongContentServed(Command.Update, "UPDATE", f, n, x, tail, memory, store);
  }

  lemma LongContentServed(cmd: Command, command: string, f: string, n: string, x: string, tail: string, memory: string, store: seq<Elem>)
    requires Writes(cmd) && Keyword(cmd) == command + " "
    requires NameText(f) && |f| <= 1024 && LengthDigits(n) && ContentChars(x) && |x| >= 1025
    ensures Serve(Writing(command, f, n, x, tail), memory, store) == (store, "CONTENT_TO_LONG\n")
  {
    WritingSpelled(cmd, command, f, n, x, tail);
    var msg, w := Writing(command, f, n, x, tail), Spell(cmd, [f, n, x]);
    assert msg[..|w|] == w;
    LongContentTold(msg, memory, |w|, cmd, [f, n, x]);
  }

  /** No more than 2067 characters are sent for a READ, and one can be that long. */
  lemma LongestRead(f: string, x: string)
    requires NameText(f) && |f| <= 1024 && ContentChars(x) && |x| <= 1024
    ensures |FileContent(f, x)| <= 2067
    ensures |FileContent(f, x)| == 2067 <==> |f| == 1024 && |x| == 1024
  {
    var e := Elem(f, x + [NUL]);
    assert ContentOf(e) == x;
    ReadFits(e);
    ReadTextIs(e);
    FileJoins(f, Print(|x|), x);
  }

  // ----- messages that are none

  /** The message does not start with a word of the language. */
  ghost predicate NoCommand(msg: string) {
    forall k: nat, v :: k <= |msg| ==> !Word(msg[..k], v)
  }

  /** The message starts with a write whose LENGTH is zero. */
  ghost predicate NothingKept(msg: string, memory: string) {
    exists k: nat, cmd, fields :: k <= |msg| && Writes(cmd) && Carries(cmd, fields) && Short(fields)
      && msg[..k] == Spell(cmd, fields) && Declared(fields[1], memory) == 0
  }

  lemma UnknownReaction(msg: string, memory: string)
    ensures React(msg, memory) == Reply(COMMAND_UNKNOWN) <==> NoCommand(msg) || NothingKept(msg, memory)
  {
    UnknownMeansNoWord(msg);
    if Recognise(msg).Found? && React(msg, memory) == Reply(COMMAND_UNKNOWN) {
      FoundWord(msg);
      VerdictsCarry(msg);
      RefusedWrite(msg, memory, Recognise(msg).used, Recognise(msg).v);
    }
    if k: nat, cmd, fields :| k <= |msg| && Writes(cmd) && Carries(cmd, fields) && Short(fields)
                              && msg[..k] == Spell(cmd, fields) && Declared(fields[1], memory) == 0 {
      NothingAsked(msg, memory, k, cmd, fields);
    }
  }

  lemma NothingAsked(msg: string, memory: string, k: nat, cmd: Command, fields: seq<string>)
    requires k <= |msg| && Writes(cmd) && Carries(cmd, fields) && Short(fields)
    requires msg[..k] == Spell(cmd, fields) && Declared(fields[1], memory) == 0
    ensures React(msg, memory) == Reply(COMMAND_UNKNOWN)
  {
    assert msg == Spell(cmd, fields) + msg[k..];
    SpelledIsExecuted(cmd, fields, msg[k..], memory);
  }

  lemma RefusedWrite(msg: string, memory: string, k: nat, v: Verdict)
    requires k <= |msg| && Word(msg[..k], v) && (v.Dispatch? ==> Carries(v.cmd, v.fields) && Short(v.fields))
    requires ReactTo(v, memory) == Reply(COMMAND_UNKNOWN)
    ensures NothingKept(msg, memory)
  {
    assert v.Dispatch?;
    assert Writes(v.cmd) && Declared(v.fields[1], memory) == 0;
  }

  lemma FileFirst(name: string, payload: string)
    requires payload != []
    ensures ReadText(name, payload) != "" && ReadText(name, payload)[0] == 'F'
  {
    var a := Join("FILECONTENT", name, " ");
    assert a[0] == 'F';
  }

  /** No result of a list operation is told as COMMAND_UNKNOWN. */
  lemma ResultsKnown(op: Op, r: Result)
    ensures Respond(op, r) == "" || Respond(op, r)[0] != COMMAND_UNKNOWN[0]
  {
    match r
    case Listing(count, text) => ListTextIs(count, text);
    case Payload(data) => if op.GetById? && data.Some? && data.value != [] { FileFirst(op.id, data.value); }
    case Code(_) =>
    case Void =>
  }

  /** COMMAND_UNKNOWN is the answer exactly to messages that start with no command, and to writes
      that ask for nothing to be kept. */
  lemma UnknownAnswered(msg: string, memory: string, store: seq<Elem>)
    ensures Serve(msg, memory, store).1 == "COMMAND_UNKNOWN\n" <==> NoCommand(msg) || NothingKept(msg, memory)
    ensures NoCommand(msg) || NothingKept(msg, memory) ==> Serve(msg, memory, store).0 == store
  {
    UnknownReaction(msg, memory);
    if React(msg, memory).Ask? {
      var op := React(msg, memory).op;
      ResultsKnown(op, Apply(op, store).1);
    }
  }
}
