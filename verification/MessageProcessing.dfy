/** lib/messageProcessing.c as it runs: the interpreter loop over the tables, the three buffers
    with their shared counter, and the calls into the file list. */
module MessageProcessing {
  import opened Grammar
  import opened Fields
  import opened Tables
  import opened Lookup
  import opened Generated
  import opened Compiled
  import opened Messages
  import opened LinkedList

  /** The longest text a field's buffer takes. */
  function Capacity(f: FieldKind): nat {
    if f.Length? then SIZE_MAX_BUFLEN else MAX_BUFLEN
  }

  /** A buffer with the closed field `x`: the text and its terminator, or only the first
      characters of a text that was too long. */
  ghost predicate Closed(buffer: seq<char>, x: string, capacity: nat) {
    if |x| <= capacity then x + [NUL] <= buffer else x[..capacity] <= buffer
  }

  class File {
    const length: array<char>
    const filename: array<char>
    const content: array<char>

    ghost predicate Valid() {
      && length.Length == SIZE_MAX_BUFLEN + 1 && filename.Length == content.Length == MAX_BUFLEN + 1
      && length != filename && length != content && filename != content
    }

    constructor ()
      ensures Valid() && fresh(length) && fresh(filename) && fresh(content)
    {
      length := new char[SIZE_MAX_BUFLEN + 1];
      filename := new char[MAX_BUFLEN + 1];
      content := new char[MAX_BUFLEN + 1];
    }

    function Buffer(f: FieldKind): (a: array<char>)
      ensures Valid() ==> a.Length == Capacity(f) + 1
    {
      match f case Filename => filename case Length => length case Content => content
    }

    /** The buffers hold the fields that have been closed, in the order of the message. */
    ghost predicate Stores(fields: seq<string>)
      reads length, filename, content
    {
      && (|fields| > 0 ==> Closed(filename[..], fields[0], MAX_BUFLEN))
      && (|fields| > 1 ==> Closed(length[..], fields[1], SIZE_MAX_BUFLEN))
      && (|fields| > 2 ==> Closed(content[..], fields[2], MAX_BUFLEN))
    }
  }

  class Protocoll {
    var cs: int
    var buflen: nat
    const file: File

    constructor ()
      ensures cs == START && buflen == 0 && file.Valid()
      ensures fresh(file.length) && fresh(file.filename) && fresh(file.content)
    {
      cs, buflen := START, 0;
      file := new File();
    }

    /** The field being read has the text `open` so far; what fits is in its buffer. */
    ghost predicate Reads(f: FieldKind, open: string)
      reads this, file.Buffer(f)
    {
      && buflen == |open|
      && open[..Min(|open|, Capacity(f))] <= file.Buffer(f)[..]
    }

    /** What the next action finds. */
    ghost predicate Ready(a: Action, t: Track)
      reads this, file.length, file.filename, file.content
    {
      match a
      case Append(f) => |t.fields| == Index(f) && Reads(f, t.open)
      case Term(f) => |t.fields| == Index(f) && Reads(f, t.open)
      case _ => true
    }

    /** append_content, append_filename, append_length */
    method Append(f: FieldKind, c: char, ghost t: Track)
      requires file.Valid() && file.Stores(t.fields) && Ready(Action.Append(f), t)
      modifies this`buflen, file.Buffer(f)
      ensures file.Stores(t.fields) && Ready(Action.Append(f), Track(t.fields, t.open + [c]))
      ensures buflen == old(buflen) + 1
    {
      if buflen < Capacity(f) {
        file.Buffer(f)[buflen] := c;
      }
      buflen := buflen + 1;
    }

    /** term_content, term_filename, term_length: `tooLong` for a name or a content that does
        not fit. */
    method Terminate(f: FieldKind, ghost t: Track) returns (tooLong: bool)
      requires file.Valid() && file.Stores(t.fields) && Ready(Term(f), t)
      modifies this`buflen, file.Buffer(f)
      ensures tooLong == Overlong(f, t.open)
      ensures !tooLong ==> file.Stores(t.fields + [t.open]) && buflen <= old(buflen) + 1
    {
      tooLong := false;
      if buflen <= Capacity(f) {
        file.Buffer(f)[buflen] := NUL;
        buflen := buflen + 1;
      } else if f != Length {
        tooLong := true;
      }
    }
  }

  // ----- what the commands find in the buffers

  lemma NoNul(f: FieldKind, x: string)
    requires InField(f, x)
    ensures NUL !in x
  {}

  /** A closed name or content that fits is a C string. */
  lemma FieldString(buffer: seq<char>, f: FieldKind, x: string, capacity: nat)
    requires InField(f, x) && |x| <= capacity && Closed(buffer, x, capacity)
    ensures CString(buffer) == x && NUL in buffer
  {
    NoNul(f, x);
    CStringIs(buffer, x);
    assert buffer[|x|] == (x + [NUL])[|x|];
  }

  /** What atoi makes of the length buffer: its stored digits, and what follows them in memory. */
  lemma FieldLength(buffer: seq<char>, x: string, behind: string)
    requires InField(Length, x) && Closed(buffer, x, SIZE_MAX_BUFLEN) && |buffer| == SIZE_MAX_BUFLEN + 1
    ensures Declared(x, buffer[SIZE_MAX_BUFLEN..] + behind) == Atoi(buffer + behind)
  {
    if |x| <= SIZE_MAX_BUFLEN {
      var rest := [NUL] + buffer[|x| + 1..] + behind;
      assert buffer == x + [NUL] + buffer[|x| + 1..];
      assert buffer + behind == x + rest;
      LeadingDigitsAppend(x, rest);
      assert rest[0] == NUL;
      assert x + "" == x;
    } else {
      assert buffer + behind == x[..SIZE_MAX_BUFLEN] + (buffer[SIZE_MAX_BUFLEN..] + behind);
    }
  }

  // ----- the commands

  /** validate_size: the number of characters kept, the content cut off after them. */
  method ValidateSize(len: array<char>, content: array<char>, behind: string) returns (payloadSize: nat)
    requires NUL in content[..]
    modifies content
    ensures var x := CString(old(content[..]));
            && payloadSize == KeptSize(old(Atoi(len[..] + behind)), |x|)
            && (payloadSize > 0 ==> content[..payloadSize + 1] == x[..payloadSize] + [NUL])
  {
    payloadSize := Atoi(len[..] + behind);
    var contentSize := |CString(content[..])|;
    if contentSize < 1 {
      return 0;
    }
    if payloadSize < 1 {
      return 0;
    }
    if contentSize > MAX_BUFLEN {
      return 0;
    }
    if contentSize < payloadSize {
      payloadSize := contentSize;
    }
    if payloadSize > MAX_BUFLEN {
      payloadSize := MAX_BUFLEN;
    }
    if contentSize > payloadSize {
      content[payloadSize] := NUL;
    }
  }

  method ListFiles(list: ConcurrentLinkedList) returns (response: string)
    requires list.Valid()
    ensures (list.Contents(), response) == Settle(CommandReaction(List, [], ""), list.Contents())
  {
    var count, ids := list.GetAllElementIDs();
    var len := Clip(Print(count), SIZE_MAX_BUFLEN - 1);
    response := Join("ACK", len, " ");
    response := Join(response, ids, "");
    response := Join(response, "", "\n");
  }

  method ReadFile(list: ConcurrentLinkedList, file: File, ghost fields: seq<string>) returns (response: string)
    requires list.Valid() && file.Valid() && file.Stores(fields) && Carries(Read, fields) && Short(fields)
    ensures (list.Contents(), response) == Settle(CommandReaction(Read, fields, ""), list.Contents())
  {
    FieldString(file.filename[..], Filename, fields[0], MAX_BUFLEN);
    response := NOSUCHFILE;
    var payloadSize, payload := list.GetElementByID(CString(file.filename[..]));
    if payloadSize > 0 {
      payloadSize := payloadSize - 1;
      var len := Clip(Print(payloadSize), SIZE_MAX_BUFLEN);
      response := Join("FILECONTENT", CString(file.filename[..]), " ");
      response := Join(response, len, " ");
      response := Join(response, CString(payload.value), "\n");
      response := Join(response, "", "\n");
    }
  }

  method DeleteFile(list: ConcurrentLinkedList, file: File, ghost fields: seq<string>) returns (response: string)
    requires list.Valid() && file.Valid() && file.Stores(fields) && Carries(Delete, fields) && Short(fields)
    modifies list, list.nodes
    ensures list.Valid() && forall x :: x in list.nodes ==> x in old(list.nodes)
    ensures (list.Contents(), response) == Settle(CommandReaction(Delete, fields, ""), old(list.Contents()))
  {
    FieldString(file.filename[..], Filename, fields[0], MAX_BUFLEN);
    response := DELETED;
    var code := list.RemoveListElementByID(CString(file.filename[..]));
    if code != 0 {
      response := NOSUCHFILE;
    }
  }

  /** A write that keeps a payload asks for it to be stored. */
  lemma WriteAsks(cmd: Command, fields: seq<string>, memory: string, payload: string)
    requires Writes(cmd) && Carries(cmd, fields)
    requires var k := KeptSize(Declared(fields[1], memory), |fields[2]|); k > 0 && payload == fields[2][..k] + [NUL]
    ensures CommandReaction(cmd, fields, memory) ==
            Ask(if cmd.Create? then ListSpec.Op.AppendUnique(fields[0], payload) else ListSpec.Op.Update(fields[0], payload))
  {
  }

  /** `behind` are the characters in memory after the length buffer, `memory` those after its four
      digits. */
  method CreateFile(list: ConcurrentLinkedList, file: File, behind: string, ghost fields: seq<string>)
    returns (response: string, ghost memory: string)
    requires list.Valid() && file.Valid() && file.Stores(fields) && Carries(Create, fields) && Short(fields)
    modifies list, list.nodes, file.content
    ensures list.Valid() && forall x :: x in list.nodes ==> x in old(list.nodes) || fresh(x)
    ensures memory == file.length[SIZE_MAX_BUFLEN..] + behind
    ensures (list.Contents(), response) == Settle(CommandReaction(Create, fields, memory), old(list.Contents()))
  {
    FieldString(file.filename[..], Filename, fields[0], MAX_BUFLEN);
    FieldString(file.content[..], Content, fields[2], MAX_BUFLEN);
    FieldLength(file.length[..], fields[1], behind);
    memory := file.length[SIZE_MAX_BUFLEN..] + behind;
    response := FILECREATED;
    var payloadSize := ValidateSize(file.length, file.content, behind);
    if payloadSize < 1 {
      return COMMAND_UNKNOWN, memory;
    }
    payloadSize := payloadSize + 1;
    WriteAsks(Create, fields, memory, file.content[..payloadSize]);
    var code := list.AppendUniqueListElement(file.content[..payloadSize], payloadSize, CString(file.filename[..]));
    if code != 0 {
      response := FILEEXISTS;
    }
  }

  method UpdateFile(list: ConcurrentLinkedList, file: File, behind: string, ghost fields: seq<string>)
    returns (response: string, ghost memory: string)
    requires list.Valid() && file.Valid() && file.Stores(fields) && Carries(Update, fields) && Short(fields)
    modifies list.nodes, file.content
    ensures list.Valid() && list.nodes == old(list.nodes)
    ensures memory == file.length[SIZE_MAX_BUFLEN..] + behind
    ensures (list.Contents(), response) == Settle(CommandReaction(Update, fields, memory), old(list.Contents()))
  {
    FieldString(file.filename[..], Filename, fields[0], MAX_BUFLEN);
    FieldString(file.content[..], Content, fields[2], MAX_BUFLEN);
    FieldLength(file.length[..], fields[1], behind);
    memory := file.length[SIZE_MAX_BUFLEN..] + behind;
    response := UPDATED;
    var payloadSize := ValidateSize(file.length, file.content, behind);
    if payloadSize < 1 {
      return COMMAND_UNKNOWN, memory;
    }
    payloadSize := payloadSize + 1;
    WriteAsks(Update, fields, memory, file.content[..payloadSize]);
    var code := list.UpdateListElementByID(file.content[..payloadSize], payloadSize, CString(file.filename[..]));
    if code != 0 {
      response := NOSUCHFILE;
    }
  }

  // ----- one action

  /** The end of a reading: the verdict's effect on the list and its response. */
  ghost predicate Answers(v: Verdict, memory: string, before: seq<ListSpec.Elem>, after: seq<ListSpec.Elem>, response: string) {
    (v.Dispatch? ==> Carries(v.cmd, v.fields)) && (after, response) == Settle(ReactTo(v, memory), before)
  }

  /** The final actions of the grammar. */
  method Finish(cmd: Command, file: File, list: ConcurrentLinkedList, behind: string, ghost fields: seq<string>)
    returns (response: string, ghost fifth: char)
    requires list.Valid() && file.Valid() && file.Stores(fields) && Carries(cmd, fields) && Short(fields)
    modifies list, list.nodes, file.content
    ensures list.Valid() && forall x :: x in list.nodes ==> x in old(list.nodes) || fresh(x)
    ensures Answers(Dispatch(cmd, fields), [fifth] + behind, old(list.Contents()), list.Contents(), response)
  {
    fifth := NUL;
    match cmd
    case List => response := ListFiles(list);
    case Special => response := INSTRUCTOR;
    case Read => response := ReadFile(list, file, fields);
    case Delete => response := DeleteFile(list, file, fields);
    case Update =>
      ghost var memory;
      response, memory := UpdateFile(list, file, behind, fields);
      fifth := file.length[SIZE_MAX_BUFLEN];
      assert file.length[SIZE_MAX_BUFLEN..] == [fifth];
    case Create =>
      ghost var memory;
      response, memory := CreateFile(list, file, behind, fields);
      fifth := file.length[SIZE_MAX_BUFLEN];
      assert file.length[SIZE_MAX_BUFLEN..] == [fifth];
  }

  /** One case of the switch over action codes. `done` when the case returns. */
  method Act(code: int, fsm: Protocoll, c: char, list: ConcurrentLinkedList, behind: string, ghost t: Track)
    returns (done: bool, response: string, ghost fifth: char)
    requires list.Valid() && fsm.file.Valid() && fsm.file.Stores(t.fields) && fsm.Ready(ActionOf(code), t)
    requires ActionOf(code).Return? ==> Carries(ActionOf(code).cmd, t.fields) && Short(t.fields)
    modifies fsm`buflen, fsm.file.length, fsm.file.filename, fsm.file.content, list, list.nodes
    ensures list.Valid() && forall x :: x in list.nodes ==> x in old(list.nodes) || fresh(x)
    ensures match Perform(ActionOf(code), c, t)
            case Stopped(v) => done && Answers(v, [fifth] + behind, old(list.Contents()), list.Contents(), response)
            case Going(u) => !done && list.Contents() == old(list.Contents()) && list.nodes == old(list.nodes)
                             && fsm.file.Stores(u.fields)
                             && (ActionOf(code).Init? ==> forall f :: fsm.Reads(f, u.open))
                             && (ActionOf(code).Append? ==> fsm.Reads(ActionOf(code).f, u.open))
    ensures !done ==> fsm.buflen <= old(fsm.buflen) + 1 && (ActionOf(code).Init? ==> fsm.buflen == 0)
  {
    done, response, fifth := false, "", NUL;
    match ActionOf(code)
    case Init =>
      fsm.buflen := 0;
    case Append(f) =>
      fsm.Append(f, c, t);
    case Term(f) =>
      done := fsm.Terminate(f, t);
      if done {
        response := if f.Content? then CONTENT_TO_LONG else FILENAME_TO_LONG;
      }
    case Return(cmd) =>
      response, fifth := Finish(cmd, fsm.file, list, behind, t.fields);
      done := true;
  }

  // ----- the action list of a transition

  /** Dispatching verdicts carry what the commands need. */
  ghost predicate Lawful(p: Progress) {
    p.Stopped? && p.v.Dispatch? ==> Carries(p.v.cmd, p.v.fields) && Short(p.v.fields)
  }

  /** Doing the first of some actions leaves the others to do. */
  lemma ActsLeft(acts: seq<Action>, i: nat, c: char, t: Track)
    requires i < |acts|
    ensures PerformAll(acts[i..], c, t)
         == match Perform(acts[i], c, t) case Stopped(v) => Stopped(v) case Going(u) => PerformAll(acts[i + 1..], c, u)
  {
    assert acts[i..][1..] == acts[i + 1..];
  }

  /** The loop over an action list: it returns in the middle when an action does. */
  method RunActions(m: Packed, off: nat, ghost next: Re, fsm: Protocoll, c: char,
          list: ConcurrentLinkedList, behind: string, ghost t: Track)
    returns (done: bool, response: string, ghost fifth: char)
    requires ListOf(off) != [] && Listed(m, off) && Legal(ListOf(off), next, |t.fields|)
    requires list.Valid() && fsm.file.Valid() && fsm.file.Stores(t.fields) && fsm.Ready(ListOf(off)[0], t)
    requires Lawful(PerformAll(ListOf(off), c, t))
    modifies fsm`buflen, fsm.file.length, fsm.file.filename, fsm.file.content, list, list.nodes
    ensures list.Valid() && forall x :: x in list.nodes ==> x in old(list.nodes) || fresh(x)
    ensures match PerformAll(ListOf(off), c, t)
            case Stopped(v) => done && Answers(v, [fifth] + behind, old(list.Contents()), list.Contents(), response)
            case Going(u) => !done && list.Contents() == old(list.Contents()) && list.nodes == old(list.nodes)
                             && fsm.file.Stores(u.fields) && (next.More? ==> fsm.Ready(Append(next.f), u))
    ensures !done ==> fsm.buflen <= old(fsm.buflen) + 1
  {
    done, response, fifth := false, "", NUL;
    ghost var acts := ListOf(off);
    ghost var u := t;
    ghost var i := 0;
    var at := off;
    var nacts := m.actions[at];
    at := at + 1;
    while nacts > 0
      invariant i <= |acts| && nacts == |acts| - i && at == off + 1 + i
      invariant list.Valid() && list.Contents() == old(list.Contents()) && list.nodes == old(list.nodes)
      invariant fsm.file.Stores(u.fields) && PerformAll(acts[i..], c, u) == PerformAll(acts, c, t)
      invariant i < |acts| ==> fsm.Ready(acts[i], u)
      invariant i == |acts| && next.More? ==> fsm.Ready(Append(next.f), u)
      invariant i == 0 ==> u == t && fsm.buflen == old(fsm.buflen)
      invariant fsm.buflen <= old(fsm.buflen) + 1
      invariant 0 < i < |acts| && acts[i].Append? ==> fsm.buflen == 0
      decreases nacts
    {
      ActsLeft(acts, i, c, u);
      assert Coded(m, off + 1 + i, acts[i]);
      done, response, fifth := Act(m.actions[at], fsm, c, list, behind, u);
      nacts := nacts - 1;
      at := at + 1;
      if done {
        return;
      }
      u := Perform(acts[i], c, u).t;
      i := i + 1;
    }
    assert acts[i..] == [];
  }

  // ----- the loop over the message

  /** Where the reading stands: what is left of the grammar, and what is left of the message. */
  ghost predicate Midway(q: nat, t: Track, msg: string, p: nat) {
    && 1 <= q < 48 && p <= |msg|
    && Deterministic(Residual(q)) && Ordered(Residual(q), |t.fields|)
    && Run(Residual(q), t, msg, p) == Recognise(msg)
  }

  lemma AtStart(msg: string)
    ensures Midway(START, Track([], ""), msg, 0) && !Residual(START).More?
  {
    StartMeansGrammar();
    MainOrdered();
  }

  /** The field being read, if there is one, is in its buffer. */
  ghost predicate Tracks(fsm: Protocoll, q: nat, t: Track)
    reads fsm, fsm.file.length, fsm.file.filename, fsm.file.content
  {
    fsm.file.Stores(t.fields) && (Residual(q).More? ==> fsm.Ready(Append(Residual(q).f), t))
  }

  /** The transition to `next` with the list at `off` can run its actions. */
  ghost predicate Prepared(m: Packed, next: int, off: int, t: Track, c: char, fsm: Protocoll)
    reads fsm, fsm.file.length, fsm.file.filename, fsm.file.content
  {
    && 0 <= next < STATES && fsm.file.Stores(t.fields)
    && (off == 0 <==> ListOf(off) == [])
    && Lawful(PerformAll(ListOf(off), c, t))
    && (off == 0 ==> !Residual(next).More?)
    && (off != 0 ==> Listed(m, off) && Legal(ListOf(off), Residual(next), |t.fields|) && fsm.Ready(ListOf(off)[0], t))
  }

  /** The actions that the next character can cause are ready to run. */
  lemma NextReady(m: Packed, q: nat, t: Track, msg: string, p: nat, fsm: Protocoll)
    requires WellPacked(m) && Midway(q, t, msg, p) && p < |msg| && Tracks(fsm, q, t)
    ensures Fit(m, q)
    ensures var (next, off) := Selected(m, q, msg[p] as int);
            Prepared(m, next, off, t, msg[p], fsm) && Derive(Residual(q), msg[p]) == Move(Residual(next), ListOf(off))
  {
    var c := msg[p];
    TablesMeanGrammar(m, q, c);
    var d := Derive(Residual(q), c);
    if Starts(Residual(q), c) { StepLegal(Residual(q), |t.fields|, c); }
    if d.acts != [] { FirstReady(q, t, c, fsm); }
    if PerformAll(d.acts, c, t).Stopped? {
      assert Recognise(msg) == Found(PerformAll(d.acts, c, t).v, p + 1);
      if Recognise(msg).v.Dispatch? { VerdictsCarry(msg); }
    }
  }

  lemma FirstReady(q: nat, t: Track, c: char, fsm: Protocoll)
    requires Tracks(fsm, q, t) && Deterministic(Residual(q)) && Derive(Residual(q), c).acts != []
    ensures fsm.Ready(Derive(Residual(q), c).acts[0], t)
  {
    DeriveFirst(Residual(q), c);
  }

  /** Only a field being read can start with appending to it or closing it. */
  lemma {:induction false} DeriveFirst(re: Re, c: char)
    requires Deterministic(re) && Derive(re, c).acts != []
    ensures var a := Derive(re, c).acts[0];
            a.Append? || a.Term? ==> re.More? && re.f == a.f
  {
    if re.Or? {
      if Derive(re.a, c).acts != [] { DeriveFirst(re.a, c); }
      if Derive(re.b, c).acts != [] { DeriveFirst(re.b, c); }
    }
  }

  /** The reading after a transition that did not return. */
  lemma StillMidway(q: nat, t: Track, msg: string, p: nat, next: nat) returns (u: Track)
    requires Midway(q, t, msg, p) && p < |msg| && next < STATES
    requires Derive(Residual(q), msg[p]).next == Residual(next) && PerformAll(Derive(Residual(q), msg[p]).acts, msg[p], t).Going?
    ensures u == PerformAll(Derive(Residual(q), msg[p]).acts, msg[p], t).t
    ensures next != 0 ==> Midway(next, u, msg, p + 1)
    ensures next == 0 || p + 1 == |msg| ==> Recognise(msg) == Unknown
  {
    var c := msg[p];
    var re := Residual(q);
    u := PerformAll(Derive(re, c).acts, c, t).t;
    if Starts(re, c) {
      StepLegal(re, |t.fields|, c);
      StaysDeterministic(re, c);
      LegalGoes(Derive(re, c).acts, Derive(re, c).next, c, t, u);
    }
    assert Run(Residual(next), u, msg, p + 1) == Recognise(msg);
    StartMeansGrammar();
  }

  /** Actions that do not return leave the fields in order. */
  lemma LegalGoes(acts: seq<Action>, next: Re, c: char, t: Track, u: Track)
    requires Legal(acts, next, |t.fields|) && PerformAll(acts, c, t) == Going(u)
    ensures Ordered(next, |u.fields|) && !next.Done?
  {
    if acts != [] {
      ActsLeft(acts, 0, c, t);
      assert acts[0..] == acts;
      if |acts| == 2 { ActsLeft(acts, 1, c, Perform(acts[0], c, t).t); }
    }
  }

  /** A reading that an action ends is served. */
  lemma StoppedServes(q: nat, t: Track, msg: string, p: nat, v: Verdict, memory: string,
                      before: seq<ListSpec.Elem>, after: seq<ListSpec.Elem>, response: string)
    requires Midway(q, t, msg, p) && p < |msg| && Answers(v, memory, before, after, response)
    requires PerformAll(Derive(Residual(q), msg[p]).acts, msg[p], t) == Stopped(v)
    ensures (after, response) == Serve(msg, memory, before)
  {
    assert Recognise(msg) == Found(v, p + 1);
  }

  /** The transition on `c`: the two searches, then the target and action tables. */
  method Transit(m: Packed, q: nat, c: char) returns (next: int, off: int)
    requires Fit(m, q)
    ensures (next, off) == Selected(m, q, c as int)
  {
    var trans := Select(m.transKeys, RowOf(m, q), m.indexOffsets[q], c as int);
    assert trans == Transition(m, q, c as int);
    next, off := m.transTargs[trans], m.transActions[trans];
  }

  /** The new state and its actions. */
  method GoOn(m: Packed, fsm: Protocoll, next: int, off: int, c: char, list: ConcurrentLinkedList, behind: string, ghost t: Track)
    returns (done: bool, response: string, ghost fifth: char)
    requires fsm.file.Valid() && list.Valid() && Prepared(m, next, off, t, c, fsm)
    modifies fsm, fsm.file.length, fsm.file.filename, fsm.file.content, list, list.nodes
    ensures list.Valid() && forall x :: x in list.nodes ==> x in old(list.nodes) || fresh(x)
    ensures match PerformAll(ListOf(off), c, t)
            case Stopped(v) => done && Answers(v, [fifth] + behind, old(list.Contents()), list.Contents(), response)
            case Going(u) => !done && fsm.cs == next && Tracks(fsm, next, u)
                             && list.Contents() == old(list.Contents()) && list.nodes == old(list.nodes)
    ensures !done ==> fsm.buflen <= old(fsm.buflen) + 1
  {
    done, response, fifth := false, "", NUL;
    fsm.cs := next;
    if off != 0 {
      done, response, fifth := RunActions(m, off, Residual(next), fsm, c, list, behind, t);
    } else {
      assert PerformAll(ListOf(off), c, t) == Going(t);
    }
  }

  /** One character: the lookup, the new state and the actions. */
  method Consume(m: Packed, fsm: Protocoll, c: char, list: ConcurrentLinkedList, behind: string, ghost t: Track)
    returns (done: bool, response: string, ghost fifth: char, ghost next: int, ghost off: int)
    requires fsm.cs >= 0 && Fit(m, fsm.cs) && fsm.file.Valid() && list.Valid()
    requires var (next, off) := Selected(m, fsm.cs, c as int); Prepared(m, next, off, t, c, fsm)
    modifies fsm, fsm.file.length, fsm.file.filename, fsm.file.content, list, list.nodes
    ensures list.Valid() && forall x :: x in list.nodes ==> x in old(list.nodes) || fresh(x)
    ensures (next, off) == old(Selected(m, fsm.cs, c as int))
    ensures match PerformAll(ListOf(off), c, t)
            case Stopped(v) => done && Answers(v, [fifth] + behind, old(list.Contents()), list.Contents(), response)
            case Going(u) => !done && fsm.cs == next && next >= 0 && Tracks(fsm, next, u)
                             && list.Contents() == old(list.Contents()) && list.nodes == old(list.nodes)
    ensures !done ==> fsm.buflen <= old(fsm.buflen) + 1
  {
    var target, act := Transit(m, fsm.cs, c);
    next, off := target, act;
    done, response, fifth := GoOn(m, fsm, target, act, c, list, behind, t);
  }

  /** One turn of the loop: either an action ends it, or the reading is one character further. */
  method Turn(m: Packed, fsm: Protocoll, msg: string, p: nat, list: ConcurrentLinkedList, behind: string, ghost t: Track)
    returns (done: bool, response: string, ghost fifth: char, ghost u: Track)
    requires WellPacked(m) && fsm.cs >= 0 && p < |msg| && Midway(fsm.cs, t, msg, p) && Tracks(fsm, fsm.cs, t)
    requires fsm.file.Valid() && list.Valid()
    modifies fsm, fsm.file.length, fsm.file.filename, fsm.file.content, list, list.nodes
    ensures list.Valid() && forall x :: x in list.nodes ==> x in old(list.nodes) || fresh(x)
    ensures done ==> (list.Contents(), response) == Serve(msg, [fifth] + behind, old(list.Contents()))
    ensures !done ==> list.Contents() == old(list.Contents()) && list.nodes == old(list.nodes)
    ensures !done ==> fsm.cs >= 0 && fsm.buflen <= old(fsm.buflen) + 1
    ensures !done && fsm.cs != 0 ==> Midway(fsm.cs, u, msg, p + 1) && Tracks(fsm, fsm.cs, u)
    ensures !done && (fsm.cs == 0 || p + 1 == |msg|) ==> Recognise(msg) == Unknown
  {
    ghost var q := fsm.cs;
    NextReady(m, q, t, msg, p, fsm);
    ghost var next, off;
    done, response, fifth, next, off := Consume(m, fsm, msg[p], list, behind, t);
    u := t;
    if done {
      StoppedServes(q, t, msg, p, PerformAll(ListOf(off), msg[p], t).v, [fifth] + behind, old(list.Contents()), list.Contents(), response);
    } else {
      u := StillMidway(q, t, msg, p, next);
    }
  }

  lemma UnknownServed(msg: string, memory: string, before: seq<ListSpec.Elem>)
    requires Recognise(msg) == Unknown
    ensures Serve(msg, memory, before) == (before, COMMAND_UNKNOWN)
  {}

  /** handle_message's loop, for any sound tables. */
  method Interpret(m: Packed, fsm: Protocoll, msg: string, list: ConcurrentLinkedList, behind: string)
    returns (response: string, ghost fifth: char)
    requires WellPacked(m) && fsm.cs == START && fsm.buflen == 0 && fsm.file.Valid() && list.Valid()
    modifies fsm, fsm.file.length, fsm.file.filename, fsm.file.content, list, list.nodes
    ensures list.Valid() && forall x :: x in list.nodes ==> x in old(list.nodes) || fresh(x)
    ensures (list.Contents(), response) == Serve(msg, [fifth] + behind, old(list.Contents()))
  {
    fifth := NUL;
    var p := 0;
    ghost var t := Track([], "");
    AtStart(msg);
    while p != |msg|
      invariant p <= |msg| && fsm.cs >= 0
      invariant p < |msg| ==> Midway(fsm.cs, t, msg, p) && Tracks(fsm, fsm.cs, t)
      invariant p == |msg| ==> Recognise(msg) == Unknown
      invariant list.Valid() && list.Contents() == old(list.Contents()) && list.nodes == old(list.nodes)
      invariant fsm.buflen <= p
      decreases |msg| - p
    {
      var done;
      done, response, fifth, t := Turn(m, fsm, msg, p, list, behind, t);
      if done {
        return;
      }
      if fsm.cs == 0 {
        break;
      }
      p := p + 1;
    }
    UnknownServed(msg, [fifth] + behind, list.Contents());
    return COMMAND_UNKNOWN, fifth;
  }

  /** handle_message: whatever the message, the list and the response are those of serving it
      alone, with `fifth` and `behind` in memory after the four stored digits of LENGTH; they
      matter only where that buffer is not terminated. */
  method HandleMessage(msg: string, list: ConcurrentLinkedList, behind: string) returns (response: string, ghost fifth: char)
    requires list.Valid()
    modifies list, list.nodes
    ensures list.Valid() && forall x :: x in list.nodes ==> x in old(list.nodes) || fresh(x)
    ensures (list.Contents(), response) == Serve(msg, [fifth] + behind, old(list.Contents()))
  {
    var fsm := new Protocoll();
    ProtocollSound();
    response, fifth := Interpret(PROTOCOLL, fsm, msg, list, behind);
  }
}
