/** What the operations of lib/concurrentLinkedList.c mean when they run one at a time,
    on a plain sequence of (ID, payload) pairs. */
module ListSpec {

  datatype Option<+T> = None | Some(value: T)

  /** One list element, as a value. `data` holds `payload_size` characters. */
  datatype Elem = Elem(id: string, data: string)

  datatype Op =
    | Append(id: string, data: string)
    | AppendUnique(id: string, data: string)
    | GetFirst
    | GetById(id: string)
    | GetAllIds
    | RemoveFirst
    | RemoveById(id: string)
    | Update(id: string, data: string)
    | RemoveAll

  /** What a call hands back. `Payload(None)` is the NULL payload with size 0. */
  datatype Result =
    | Void
    | Code(code: nat)
    | Payload(data: Option<string>)
    | Listing(count: nat, text: string)

  predicate Matches(e: Elem, id: string) {
    e.id == id
  }

  /** Index of the first element with this ID, or the length of the list. */
  function Find(l: seq<Elem>, id: string): (i: nat)
    ensures i <= |l|
    ensures i < |l| ==> Matches(l[i], id)
    ensures forall j :: 0 <= j < i ==> !Matches(l[j], id)
  {
    if l == [] || Matches(l[0], id) then 0 else 1 + Find(l[1..], id)
  }

  /** The IDs in list order, each preceded by a newline. */
  function IdText(l: seq<Elem>): string {
    if l == [] then "" else "\n" + l[0].id + IdText(l[1..])
  }

  function Has(l: seq<Elem>, id: string): bool {
    Find(l, id) < |l|
  }

  /** A sequence without its `i`-th element. */
  function Without<T>(s: seq<T>, i: nat): (d: seq<T>)
    requires i < |s|
    ensures |d| == |s| - 1 && forall k :: 0 <= k < |d| ==> d[k] == s[if k < i then k else k + 1]
  {
    s[..i] + s[i + 1..]
  }

  /** One whole call, run alone. */
  function Apply(op: Op, l: seq<Elem>): (seq<Elem>, Result) {
    match op
    case Append(id, data) => (l + [Elem(id, data)], Void)
    case AppendUnique(id, data) =>
      if Has(l, id) then (l, Code(1)) else (l + [Elem(id, data)], Code(0))
    case GetFirst => (l, Payload(if l == [] then None else Some(l[0].data)))
    case GetById(id) => (l, Payload(if Has(l, id) then Some(l[Find(l, id)].data) else None))
    case GetAllIds => (l, Listing(|l|, IdText(l)))
    case RemoveFirst => (if l == [] then [] else l[1..], Void)
    case RemoveById(id) =>
      var i := Find(l, id);
      if i < |l| then (l[..i] + l[i + 1..], Code(0)) else (l, Code(1))
    case Update(id, data) =>
      var i := Find(l, id);
      if i < |l| then (l[i := Elem(id, data)], Code(0)) else (l, Code(1))
    case RemoveAll => ([], Void)
  }

  /** One call in a serial history: the caller's number and its operation. */
  datatype Entry = Entry(tid: nat, op: Op)

  datatype Outcome = Outcome(list: seq<Elem>, results: map<nat, Result>)

  /** The history run one call at a time, in order, on an empty list. */
  function Serial(log: seq<Entry>): Outcome {
    if log == [] then Outcome([], map[]) else
      var before := Serial(log[..|log| - 1]);
      var last := log[|log| - 1];
      var (l, r) := Apply(last.op, before.list);
      Outcome(l, before.results[last.tid := r])
  }

  lemma SerialSnoc(log: seq<Entry>, e: Entry)
    ensures var s := Serial(log);
            var (l, r) := Apply(e.op, s.list);
            Serial(log + [e]) == Outcome(l, s.results[e.tid := r])
  {
    assert (log + [e])[..|log + [e]| - 1] == log;
  }
}
