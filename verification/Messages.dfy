/** Requests and responses as values: the decimal numbers in them, the list operation a command
    performs, and the text it answers. */
module Messages {
  import opened ListSpec
  import opened Grammar
  import opened Language

  const NUL: char := '\0'

  // ----- decimal numbers

  function Digit(d: nat): (c: char)
    requires d < 10
    ensures InClass(Length, c)
  {
    (d + '0' as int) as char
  }

  function DigitValue(c: char): nat
    requires InClass(Length, c)
  {
    c as int - '0' as int
  }

  /** printf's %zu. */
  function Print(n: nat): (s: string)
    ensures InField(Length, s)
  {
    if n < 10 then [Digit(n)] else Print(n / 10) + [Digit(n % 10)]
  }

  predicate Digits(s: string) {
    forall i :: 0 <= i < |s| ==> InClass(Length, s[i])
  }

  /** The number a string of digits stands for. */
  function Value(s: string): nat
    requires Digits(s)
  {
    if s == [] then 0 else 10 * Value(s[..|s| - 1]) + DigitValue(s[|s| - 1])
  }

  lemma {:induction false} PrintValue(n: nat)
    ensures Value(Print(n)) == n
  {
    if n >= 10 {
      PrintValue(n / 10);
      assert Print(n)[..|Print(n)| - 1] == Print(n / 10);
    } else {
      assert Print(n)[..0] == "";
    }
  }

  /** The other way round, for numbers written without a leading zero. */
  lemma {:induction false} ValuePrint(s: string)
    requires InField(Length, s) && (|s| > 1 ==> s[0] != '0')
    ensures Print(Value(s)) == s
  {
    var init, last := s[..|s| - 1], s[|s| - 1];
    assert s == init + [last];
    if init == "" {
      assert Value(init) == 0;
    } else {
      ValuePrint(init);
      ValuePositive(init);
      assert Value(s) / 10 == Value(init) && Value(s) % 10 == DigitValue(last);
    }
  }

  lemma {:induction false} ValuePositive(s: string)
    requires InField(Length, s) && s[0] != '0'
    ensures Value(s) > 0
  {
    if |s| > 1 { ValuePositive(s[..|s| - 1]); }
  }

  function Power(k: nat): (p: nat)
    ensures p > 0
  {
    if k == 0 then 1 else 10 * Power(k - 1)
  }

  /** A number fits in `k` digits exactly when it is below ten to the `k`. */
  lemma {:induction false} PrintWidth(n: nat, k: nat)
    requires k > 0
    ensures |Print(n)| <= k <==> n < Power(k)
  {
    if n >= 10 && k > 1 {
      PrintWidth(n / 10, k - 1);
    } else if n >= 10 {
      assert Power(1) == 10 * Power(0);
      assert |Print(n / 10)| >= 1;
    }
  }

  // ----- C strings

  /** What a buffer holds as a C string: the characters before its first NUL. */
  function CString(a: seq<char>): (s: string)
    ensures s <= a && NUL !in s && (|s| < |a| ==> a[|s|] == NUL)
  {
    if a == [] || a[0] == NUL then "" else [a[0]] + CString(a[1..])
  }

  lemma {:induction false} CStringIs(a: seq<char>, s: string)
    requires s + [NUL] <= a && NUL !in s
    ensures CString(a) == s
  {
    if s != "" {
      assert a[0] == s[0] && s[1..] + [NUL] <= a[1..];
      CStringIs(a[1..], s[1..]);
    }
  }

  function LeadingDigits(s: string): (d: string)
    ensures Digits(d) && d <= s && (Digits(s) ==> d == s)
  {
    if s == [] || !InClass(Length, s[0]) then "" else [s[0]] + LeadingDigits(s[1..])
  }

  lemma {:induction false} LeadingDigitsAppend(p: string, rest: string)
    requires Digits(p)
    ensures LeadingDigits(p + rest) == p + LeadingDigits(rest)
  {
    if p == "" {
      assert p + rest == rest;
    } else {
      assert (p + rest)[1..] == p[1..] + rest;
      LeadingDigitsAppend(p[1..], rest);
    }
  }

  /** atoi: the number that the leading digits of the characters from some address on spell. */
  function Atoi(text: seq<char>): nat {
    Value(LeadingDigits(text))
  }

  function Min(a: nat, b: nat): nat {
    if a < b then a else b
  }

  /** validate_size: how many characters of the content are kept, 0 when the request is refused. */
  function KeptSize(length: nat, size: nat): nat {
    if size < 1 || length < 1 || size > MAX_BUFLEN then 0 else Min(length, size)
  }

  // ----- requests

  /** The LENGTH a message declares. Its buffer takes four digits; of a longer one the first four
      are stored without a terminator, and atoi reads on into the `memory` behind them. */
  function Declared(digits: string, memory: string): nat
    requires Digits(digits)
  {
    if |digits| <= SIZE_MAX_BUFLEN then Value(digits) else Atoi(digits[..SIZE_MAX_BUFLEN] + memory)
  }

  /** What CREATE and UPDATE store: the characters kept, and a terminator. */
  function PayloadOf(fields: seq<string>, memory: string): string
    requires |fields| == 3 && Digits(fields[1])
  {
    fields[2][..KeptSize(Declared(fields[1], memory), |fields[2]|)] + [NUL]
  }

  /** A request is answered at once or asks the file list for one operation. */
  datatype Reaction = Reply(text: string) | Ask(op: Op)

  const COMMAND_UNKNOWN := "COMMAND_UNKNOWN\n"
  const FILENAME_TO_LONG := "FILENAME_TO_LONG\n"
  const CONTENT_TO_LONG := "CONTENT_TO_LONG\n"
  const FILEEXISTS := "FILEEXISTS\n"
  const NOSUCHFILE := "NOSUCHFILE\n"
  const FILECREATED := "FILECREATED\n"
  const UPDATED := "UPDATED\n"
  const DELETED := "DELETED\n"
  const INSTRUCTOR := "FTW ;-)\n"

  function ReactTo(v: Verdict, memory: string): Reaction
    requires v.Dispatch? ==> Carries(v.cmd, v.fields)
  {
    match v
    case TooLong(f) => Reply(if f.Content? then CONTENT_TO_LONG else FILENAME_TO_LONG)
    case Dispatch(cmd, fields) => CommandReaction(cmd, fields, memory)
  }

  function CommandReaction(cmd: Command, fields: seq<string>, memory: string): Reaction
    requires Carries(cmd, fields)
  {
    if Writes(cmd) then
      if KeptSize(Declared(fields[1], memory), |fields[2]|) < 1 then Reply(COMMAND_UNKNOWN)
      else if cmd.Create? then Ask(AppendUnique(fields[0], PayloadOf(fields, memory)))
      else Ask(Op.Update(fields[0], PayloadOf(fields, memory)))
    else if cmd.Read? then Ask(GetById(fields[0]))
    else if cmd.Delete? then Ask(RemoveById(fields[0]))
    else if cmd.List? then Ask(GetAllIds)
    else Reply(INSTRUCTOR)
  }

  lemma VerdictsCarry(msg: string)
    requires Recognise(msg).Found? && Recognise(msg).v.Dispatch?
    ensures var v := Recognise(msg).v; Carries(v.cmd, v.fields) && Short(v.fields)
  {
    RunAhead(Definition(), Track([], ""), msg, 0);
    RecognisesWords(msg, Recognise(msg).used, Recognise(msg).v);
  }

  /** What a message makes the server do. */
  function React(msg: string, memory: string): Reaction {
    match Recognise(msg)
    case Unknown => Reply(COMMAND_UNKNOWN)
    case Found(v, _) =>
      assert v.Dispatch? ==> Carries(v.cmd, v.fields) by { if v.Dispatch? { VerdictsCarry(msg); } }
      ReactTo(v, memory)
  }

  // ----- responses

  /** snprintf into a buffer that takes `room` characters. */
  function Clip(s: string, room: nat): string {
    s[..Min(|s|, room)]
  }

  function Join(a: string, b: string, separator: string): string {
    a + separator + b
  }

  function ListText(count: nat, text: string): string {
    Join(Join(Join("ACK", Clip(Print(count), SIZE_MAX_BUFLEN - 1), " "), text, ""), "", "\n")
  }

  function ReadText(name: string, payload: string): string
    requires payload != []
  {
    Join(Join(Join(Join("FILECONTENT", name, " "),
            Clip(Print(|payload| - 1), SIZE_MAX_BUFLEN), " "), CString(payload), "\n"), "", "\n")
  }

  /** What the client is told about an operation's result. */
  function Respond(op: Op, r: Result): string {
    match r
    case Listing(count, text) => ListText(count, text)
    case Payload(data) =>
      if op.GetById? && data.Some? && data.value != [] then ReadText(op.id, data.value) else NOSUCHFILE
    case Code(code) =>
      if op.RemoveById? then (if code == 0 then DELETED else NOSUCHFILE)
      else if op.AppendUnique? then (if code == 0 then FILECREATED else FILEEXISTS)
      else (if code == 0 then UPDATED else NOSUCHFILE)
    case Void => ""
  }

  /** A reaction carried out on the store: the new store and the response. */
  function Settle(reaction: Reaction, store: seq<Elem>): (seq<Elem>, string) {
    match reaction
    case Reply(text) => (store, text)
    case Ask(op) => (Apply(op, store).0, Respond(op, Apply(op, store).1))
  }

  /** One request handled alone. */
  function Serve(msg: string, memory: string, store: seq<Elem>): (seq<Elem>, string) {
    Settle(React(msg, memory), store)
  }
}
