/** What a serial history of the file server's operations says about names, contents and order. */
module History {
  import opened ListSpec

  /** The operations that requests perform on the file list. */
  predicate FileOp(op: Op) {
    op.AppendUnique? || op.GetById? || op.GetAllIds? || op.RemoveById? || op.Update?
  }

  predicate FileLog(log: seq<Entry>) {
    forall i :: 0 <= i < |log| ==> FileOp(log[i].op)
  }

  /** One call with its result. */
  datatype Happening = Happening(op: Op, r: Result)

  /** What happened: each call of the history with the result it gets. */
  function Trace(log: seq<Entry>): (h: seq<Happening>)
    ensures |h| == |log|
  {
    if log == [] then [] else
      var n := |log| - 1;
      Trace(log[..n]) + [Happening(log[n].op, Apply(log[n].op, Serial(log[..n]).list).1)]
  }

  // ----- names are unique

  ghost predicate Unique(l: seq<Elem>) {
    forall i, j :: 0 <= i < j < |l| ==> l[i].id != l[j].id
  }

  lemma FindUnique(l: seq<Elem>, i: nat)
    requires Unique(l) && i < |l|
    ensures Find(l, l[i].id) == i
  {}

  lemma ApplyUnique(op: Op, l: seq<Elem>)
    requires FileOp(op) && Unique(l)
    ensures Unique(Apply(op, l).0)
  {}

  lemma {:induction false} SerialUnique(log: seq<Entry>)
    requires FileLog(log)
    ensures Unique(Serial(log).list)
  {
    if log != [] {
      SerialUnique(log[..|log| - 1]);
      ApplyUnique(log[|log| - 1].op, Serial(log[..|log| - 1]).list);
    }
  }

  // ----- the story of one name

  /** A new element with this ID came into the list. */
  predicate Creates(h: Happening, id: string) {
    h.op.AppendUnique? && h.op.id == id && h.r == Code(0)
  }

  /** The element with this ID was removed. */
  predicate Deletes(h: Happening, id: string) {
    h.op.RemoveById? && h.op.id == id && h.r == Code(0)
  }

  /** The element with this ID got its payload. */
  predicate Fills(h: Happening, id: string) {
    Creates(h, id) || (h.op.Update? && h.op.id == id && h.r == Code(0))
  }

  /** For each element of the list, the call that created it and the call that wrote its payload. */
  datatype Origin = Origin(create: nat, write: nat)

  function OriginsAfter(op: Op, l: seq<Elem>, o: seq<Origin>, n: nat): (after: seq<Origin>)
    requires FileOp(op) && |o| == |l|
    ensures |after| == |Apply(op, l).0|
  {
    match op
    case AppendUnique(id, _) => if Has(l, id) then o else o + [Origin(n, n)]
    case RemoveById(id) => if Has(l, id) then Without(o, Find(l, id)) else o
    case Update(id, _) => if Has(l, id) then o[Find(l, id) := o[Find(l, id)].(write := n)] else o
    case _ => o
  }

  function Origins(log: seq<Entry>): (o: seq<Origin>)
    requires FileLog(log)
    ensures |o| == |Serial(log).list|
  {
    if log == [] then [] else
      var n := |log| - 1;
      OriginsAfter(log[n].op, Serial(log[..n]).list, Origins(log[..n]), n)
  }

  /** `k` is the latest call that created `id`, and nothing removed it since. */
  ghost predicate Alive(h: seq<Happening>, k: nat, id: string) {
    && k < |h| && Creates(h[k], id)
    && (forall j :: k < j < |h| ==> !Creates(h[j], id) && !Deletes(h[j], id))
  }

  /** `k` is the latest call that wrote `id`. */
  ghost predicate LastWrite(h: seq<Happening>, k: nat, id: string) {
    k < |h| && Fills(h[k], id) && forall j :: k < j < |h| ==> !Fills(h[j], id)
  }

  /** An element comes from the latest successful CREATE of its name, and its payload from the
      latest successful write. */
  ghost predicate Explains(h: seq<Happening>, o: Origin, e: Elem) {
    Alive(h, o.create, e.id) && LastWrite(h, o.write, e.id) && h[o.write].op.data == e.data
  }

  ghost predicate AllExplained(h: seq<Happening>, o: seq<Origin>, l: seq<Elem>) {
    && |o| == |l|
    && (forall i :: 0 <= i < |l| ==> Explains(h, o[i], l[i]))
    && (forall i, j :: 0 <= i < j < |l| ==> o[i].create < o[j].create)
  }

  /** A name that was created and is not in the list any more was removed later. */
  ghost predicate Gone(h: seq<Happening>, id: string) {
    forall k :: 0 <= k < |h| && Creates(h[k], id) ==> exists j :: k < j < |h| && Deletes(h[j], id)
  }

  ghost predicate RestGone(h: seq<Happening>, l: seq<Elem>) {
    forall id :: !Has(l, id) ==> Gone(h, id)
  }

  lemma ExplainsLater(h: seq<Happening>, x: Happening, o: Origin, e: Elem)
    requires Explains(h, o, e) && !Fills(x, e.id) && !Deletes(x, e.id)
    ensures Explains(h + [x], o, e)
  {}

  lemma AllLater(h: seq<Happening>, x: Happening, o: seq<Origin>, l: seq<Elem>)
    requires AllExplained(h, o, l)
    ensures forall i :: 0 <= i < |l| && !Fills(x, l[i].id) && !Deletes(x, l[i].id) ==> Explains(h + [x], o[i], l[i])
  {
    forall i | 0 <= i < |l| && !Fills(x, l[i].id) && !Deletes(x, l[i].id) ensures Explains(h + [x], o[i], l[i]) {
      ExplainsLater(h, x, o[i], l[i]);
    }
  }

  lemma CreateExplained(h: seq<Happening>, o: seq<Origin>, l: seq<Elem>, id: string, data: string)
    requires AllExplained(h, o, l) && !Has(l, id)
    ensures AllExplained(h + [Happening(AppendUnique(id, data), Code(0))], o + [Origin(|h|, |h|)], l + [Elem(id, data)])
  {
    var x := Happening(AppendUnique(id, data), Code(0));
    AllLater(h, x, o, l);
    forall i | 0 <= i < |l| ensures l[i].id != id { assert !Matches(l[i], id); }
    assert (h + [x])[|h|] == x;
    assert Explains(h + [x], Origin(|h|, |h|), Elem(id, data));
    forall i | 0 <= i < |l| ensures o[i].create < |h| { assert Explains(h, o[i], l[i]); }
  }

  lemma OnlyOne(l: seq<Elem>, id: string)
    requires Unique(l) && Has(l, id)
    ensures forall k :: 0 <= k < |l| && k != Find(l, id) ==> l[k].id != id
  {}

  lemma DeleteExplained(h: seq<Happening>, o: seq<Origin>, l: seq<Elem>, id: string)
    requires Unique(l) && AllExplained(h, o, l) && Has(l, id)
    ensures var i := Find(l, id);
            AllExplained(h + [Happening(RemoveById(id), Code(0))], Without(o, i), Without(l, i))
  {
    var x := Happening(RemoveById(id), Code(0));
    OnlyOne(l, id);
    AllLater(h, x, o, l);
  }

  lemma UpdateExplained(h: seq<Happening>, o: seq<Origin>, l: seq<Elem>, id: string, data: string)
    requires Unique(l) && AllExplained(h, o, l) && Has(l, id)
    ensures var i := Find(l, id);
            AllExplained(h + [Happening(Update(id, data), Code(0))], o[i := o[i].(write := |h|)], l[i := Elem(id, data)])
  {
    var x := Happening(Update(id, data), Code(0));
    var i := Find(l, id);
    AllLater(h, x, o, l);
    forall k | 0 <= k < |l| && k != i ensures l[k].id != id { assert l[i].id == id; }
    assert Explains(h, o[i], l[i]);
    assert (h + [x])[|h|] == x;
    assert Explains(h + [x], o[i].(write := |h|), Elem(id, data));
  }

  /** A call that fails or only reads. */
  lemma OtherExplained(h: seq<Happening>, o: seq<Origin>, l: seq<Elem>, x: Happening)
    requires AllExplained(h, o, l) && x.r != Code(0)
    ensures AllExplained(h + [x], o, l)
  {
    AllLater(h, x, o, l);
  }

  /** One call keeps the list explained. */
  lemma StepExplained(h: seq<Happening>, o: seq<Origin>, l: seq<Elem>, op: Op)
    requires FileOp(op) && Unique(l) && AllExplained(h, o, l)
    ensures AllExplained(h + [Happening(op, Apply(op, l).1)], OriginsAfter(op, l, o, |h|), Apply(op, l).0)
  {
    match op
    case AppendUnique(id, data) =>
      if Has(l, id) { OtherExplained(h, o, l, Happening(op, Code(1))); } else { CreateExplained(h, o, l, id, data); }
    case RemoveById(id) =>
      if Has(l, id) { DeleteExplained(h, o, l, id); } else { OtherExplained(h, o, l, Happening(op, Code(1))); }
    case Update(id, data) =>
      if Has(l, id) { UpdateExplained(h, o, l, id, data); } else { OtherExplained(h, o, l, Happening(op, Code(1))); }
    case _ => OtherExplained(h, o, l, Happening(op, Apply(op, l).1));
  }

  /** A name that was created and is not in the list any more was removed later. */
  lemma StepGone(h: seq<Happening>, l: seq<Elem>, op: Op, id: string)
    requires FileOp(op) && Unique(l) && (!Has(l, id) ==> Gone(h, id)) && !Has(Apply(op, l).0, id)
    ensures Gone(h + [Happening(op, Apply(op, l).1)], id)
  {
    var x := Happening(op, Apply(op, l).1);
    var after := Apply(op, l).0;
    if Has(l, id) {
      if !(op.RemoveById? && op.id == id) { StillHas(l, op, id); }
      assert Deletes(x, id);
    } else {
      if Creates(x, id) { HasLast(l, Elem(id, op.data)); }
      forall k | 0 <= k < |h + [x]| && Creates((h + [x])[k], id)
        ensures exists j :: k < j < |h + [x]| && Deletes((h + [x])[j], id)
      {
        var j :| k < j < |h| && Deletes(h[j], id);
        assert Deletes((h + [x])[j], id);
      }
    }
    assert (h + [x])[|h|] == x;
  }

  lemma HasAt(l: seq<Elem>, id: string, i: nat)
    requires i < |l| && l[i].id == id
    ensures Has(l, id)
  {
    assert Matches(l[i], id);
  }

  lemma HasLast(l: seq<Elem>, e: Elem)
    ensures Has(l + [e], e.id)
  {
    HasAt(l + [e], e.id, |l|);
  }

  /** Only removing a name takes it out of the list. */
  lemma StillHas(l: seq<Elem>, op: Op, id: string)
    requires FileOp(op) && Has(l, id) && !(op.RemoveById? && op.id == id)
    ensures Has(Apply(op, l).0, id)
  {
    var i := Find(l, id);
    var after := Apply(op, l).0;
    match op
    case AppendUnique(_, _) => HasAt(after, id, i);
    case Update(x, _) => HasAt(after, id, i);
    case RemoveById(x) =>
      var j := Find(l, x);
      if j < |l| { HasAt(after, id, if i < j then i else i - 1); }
    case _ =>
  }

  // ----- the main results

  /** After any history: every element comes from the latest successful CREATE of its name, which
      nothing removed since; its payload is that of the latest successful CREATE or UPDATE; the
      list is in the order of those CREATEs; and every other name that was created was removed. */
  lemma {:induction false} HistoryExplains(log: seq<Entry>)
    requires FileLog(log)
    ensures Unique(Serial(log).list)
    ensures AllExplained(Trace(log), Origins(log), Serial(log).list)
    ensures RestGone(Trace(log), Serial(log).list)
  {
    if log != [] {
      var n := |log| - 1;
      HistoryExplains(log[..n]);
      var l := Serial(log[..n]).list;
      ApplyUnique(log[n].op, l);
      StepExplained(Trace(log[..n]), Origins(log[..n]), l, log[n].op);
      forall id | !Has(Serial(log).list, id) ensures Gone(Trace(log), id) {
        StepGone(Trace(log[..n]), l, log[n].op, id);
      }
    }
  }

  lemma {:induction false} TracePrefix(log: seq<Entry>, i: nat)
    requires i <= |log|
    ensures Trace(log)[..i] == Trace(log[..i])
    ensures i < |log| ==> Trace(log)[i] == Happening(log[i].op, Apply(log[i].op, Serial(log[..i]).list).1)
  {
    if i < |log| {
      var n := |log| - 1;
      if i < n {
        TracePrefix(log[..n], i);
        assert log[..n][..i] == log[..i];
      }
    } else {
      assert log[..i] == log;
    }
  }

  /** Between two successes of the same kind there is one of the other kind, and the first is a
      CREATE: the FILECREATED and DELETED answers for a name alternate. */
  lemma {:induction false} Alternate(log: seq<Entry>, id: string, j: nat)
    requires FileLog(log) && j < |log|
    ensures Creates(Trace(log)[j], id) ==>
              forall i :: 0 <= i < j && Creates(Trace(log)[i], id) ==> exists k :: i < k < j && Deletes(Trace(log)[k], id)
    ensures Deletes(Trace(log)[j], id) ==>
              exists k :: 0 <= k < j && Creates(Trace(log)[k], id) && forall i :: k < i < j ==> !Deletes(Trace(log)[i], id)
  {
    TracePrefix(log, j);
    HistoryExplains(log[..j]);
    var h := Trace(log[..j]);
    assert h == Trace(log)[..j];
    assert forall i :: 0 <= i < j ==> Trace(log)[i] == h[i];
    var l := Serial(log[..j]).list;
    if Creates(Trace(log)[j], id) { CreatedAgain(h, id); }
    if Deletes(Trace(log)[j], id) { CreatedBefore(h, Origins(log[..j])[Find(l, id)], l[Find(l, id)]); }
  }

  lemma CreatedAgain(h: seq<Happening>, id: string)
    requires Gone(h, id)
    ensures forall i :: 0 <= i < |h| && Creates(h[i], id) ==> exists k :: i < k < |h| && Deletes(h[k], id)
  {}

  lemma CreatedBefore(h: seq<Happening>, o: Origin, e: Elem)
    requires Explains(h, o, e)
    ensures exists k :: 0 <= k < |h| && Creates(h[k], e.id) && forall i :: k < i < |h| ==> !Deletes(h[i], e.id)
  {
    assert Creates(h[o.create], e.id);
  }

  /** A name stays once a CREATE has tried it, as long as nothing removes it. */
  lemma {:induction false} StaysPresent(log: seq<Entry>, id: string, i: nat, j: nat)
    requires FileLog(log) && i < j <= |log| && log[i].op.AppendUnique? && log[i].op.id == id
    requires forall k :: i < k < j && log[k].op.RemoveById? ==> log[k].op.id != id
    ensures Has(Serial(log[..j]).list, id)
    decreases j
  {
    var n := j - 1;
    assert log[..j][..n] == log[..n] && log[..j][n] == log[n];
    var l := Serial(log[..n]).list;
    if i < n {
      StaysPresent(log, id, i, n);
      StillHas(l, log[n].op, id);
    } else if !Has(l, id) {
      HasLast(l, Elem(id, log[n].op.data));
    }
  }

  /** Among CREATEs of a name that nothing removes, exactly one wins: the first. */
  lemma {:induction false} OneWinner(log: seq<Entry>, id: string, j: nat)
    requires FileLog(log) && j < |log| && log[j].op.AppendUnique? && log[j].op.id == id
    requires forall i :: 0 <= i < |log| && log[i].op.RemoveById? ==> log[i].op.id != id
    ensures Creates(Trace(log)[j], id) <==> forall i :: 0 <= i < j && log[i].op.AppendUnique? ==> log[i].op.id != id
  {
    TracePrefix(log, j);
    if Has(Serial(log[..j]).list, id) {
      WasTried(log[..j], id);
    } else {
      forall i | 0 <= i < j && log[i].op.AppendUnique? ensures log[i].op.id != id {
        if log[i].op.id == id { StaysPresent(log, id, i, j); }
      }
    }
  }

  /** A name in the list was tried by some CREATE. */
  lemma {:induction false} WasTried(log: seq<Entry>, id: string)
    requires FileLog(log) && Has(Serial(log).list, id)
    ensures exists i :: 0 <= i < |log| && log[i].op.AppendUnique? && log[i].op.id == id
  {
    HistoryExplains(log);
    var l := Serial(log).list;
    var o := Origins(log)[Find(l, id)];
    assert Explains(Trace(log), o, l[Find(l, id)]);
    TracePrefix(log, o.create);
  }

  /** A READ returns the payload of the latest successful CREATE or UPDATE of its name before it,
      whole; or nothing, exactly when no CREATE before it has succeeded since the last DELETE. */
  lemma {:induction false} ReadsLatest(log: seq<Entry>, i: nat, id: string)
    requires FileLog(log) && i < |log| && log[i].op == GetById(id)
    ensures var h := Trace(log)[..i];
            match Trace(log)[i].r
            case Payload(Some(data)) =>
              exists c: nat, w: nat ::
                Alive(h, c, id) && LastWrite(h, w, id) && c <= w && h[w].op.data == data
            case Payload(None) => forall c: nat :: !Alive(h, c, id)
            case _ => false
  {
    TracePrefix(log, i);
    HistoryExplains(log[..i]);
    var h, l := Trace(log)[..i], Serial(log[..i]).list;
    if Has(l, id) {
      var o := Origins(log[..i])[Find(l, id)];
      assert Explains(h, o, l[Find(l, id)]);
      assert Fills(h[o.create], id);
    } else {
      assert Gone(h, id);
    }
  }

  // ----- histories and recorded results

  lemma {:induction false} ResultsTraced(log: seq<Entry>, i: nat)
    requires i < |log| && forall a, b :: 0 <= a < b < |log| ==> log[a].tid != log[b].tid
    ensures log[i].tid in Serial(log).results && Serial(log).results[log[i].tid] == Trace(log)[i].r
  {
    var n := |log| - 1;
    if i < n { ResultsTraced(log[..n], i); }
  }
}
