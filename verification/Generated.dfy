/** The generated tables in readable form: one rule per state, the proof that the packed tables
    hold exactly these rules, and that looking a character up follows its state's rule. */
module Generated {
  import opened Grammar
  import opened Lookup
  import opened Tables

  /** One state of the machine, in readable form. Actions are offsets into the action lists. */
  datatype Rule =
    | Dead
    | Branch(choices: seq<(char, nat)>)
    | Letter(c: char, next: nat, act: int)
    | Enter(f: FieldKind, next: nat, act: int)
    | Inside(f: FieldKind, stay: int, c: char, next: nat, act: int)

  function RuleOf(q: nat): Rule {
    match q
    case 0 => Dead
    case 1 => Branch([('C', 2), ('D', 18), ('L', 26), ('R', 30), ('U', 36)])
    case 2 => Branch([('R', 3), ('d', 14)])
    case 3 => Letter('E', 4, 0)
    case 4 => Letter('A', 5, 0)
    case 5 => Letter('T', 6, 0)
    case 6 => Letter('E', 7, 0)
    case 7 => Letter(' ', 8, 0)
    case 8 => Enter(Filename, 9, 30)
    case 9 => Inside(Filename, 3, ' ', 10, 5)
    case 10 => Enter(Length, 11, 33)
    case 11 => Inside(Length, 7, '\n', 12, 9)
    case 12 => Enter(Content, 13, 27)
    case 13 => Inside(Content, 1, '\n', 48, 18)
    case 14 => Letter('i', 15, 0)
    case 15 => Letter('s', 16, 0)
    case 16 => Letter('t', 17, 0)
    case 17 => Letter('\n', 48, 13)
    case 18 => Letter('E', 19, 0)
    case 19 => Letter('L', 20, 0)
    case 20 => Letter('E', 21, 0)
    case 21 => Letter('T', 22, 0)
    case 22 => Letter('E', 23, 0)
    case 23 => Letter(' ', 24, 0)
    case 24 => Enter(Filename, 25, 30)
    case 25 => Inside(Filename, 3, '\n', 48, 24)
    case 26 => Letter('I', 27, 0)
    case 27 => Letter('S', 28, 0)
    case 28 => Letter('T', 29, 0)
    case 29 => Letter('\n', 48, 11)
    case 30 => Letter('E', 31, 0)
    case 31 => Letter('A', 32, 0)
    case 32 => Letter('D', 33, 0)
    case 33 => Letter(' ', 34, 0)
    case 34 => Enter(Filename, 35, 30)
    case 35 => Inside(Filename, 3, '\n', 48, 21)
    case 36 => Letter('P', 37, 0)
    case 37 => Letter('D', 38, 0)
    case 38 => Letter('A', 39, 0)
    case 39 => Letter('T', 40, 0)
    case 40 => Letter('E', 41, 0)
    case 41 => Letter(' ', 42, 0)
    case 42 => Enter(Filename, 43, 30)
    case 43 => Inside(Filename, 3, ' ', 44, 5)
    case 44 => Enter(Length, 45, 33)
    case 45 => Inside(Length, 7, '\n', 46, 9)
    case 46 => Enter(Content, 47, 27)
    case 47 => Inside(Content, 1, '\n', 48, 15)
    case _ => Dead
  }

  function First(f: FieldKind): char {
    match f case Filename => '!' case Length => '0' case Content => ' '
  }

  function Final(f: FieldKind): char {
    match f case Filename => '~' case Length => '9' case Content => '~'
  }

  /** State `q` has these numbers of keys, packed from `k` on, and its transitions from `i` on. */
  ghost predicate Packs(m: Packed, q: nat, k: nat, i: nat, singles: nat, ranges: nat) {
    && q < |m.keyOffsets| && m.keyOffsets[q] == k && q < |m.indexOffsets| && m.indexOffsets[q] == i
    && q < |m.singleLengths| && m.singleLengths[q] == singles && q < |m.rangeLengths| && m.rangeLengths[q] == ranges
    && k + singles + 2 * ranges <= |m.transKeys|
    && i + singles + ranges < |m.transTargs| && i + singles + ranges < |m.transActions|
  }

  ghost predicate Goes(m: Packed, t: nat, next: nat, act: int) {
    t < |m.transTargs| && m.transTargs[t] == next && t < |m.transActions| && m.transActions[t] == act
  }

  /** The packed tables hold this rule for state `q`, its keys from `k` on and its transitions from `i` on. */
  ghost predicate Encodes(m: Packed, q: nat, k: nat, i: nat, rule: Rule) {
    var keys := m.transKeys;
    match rule
    case Dead => Packs(m, q, k, i, 0, 0)
    case Branch(choices) =>
      Packs(m, q, k, i, |choices|, 0) && Goes(m, i + |choices|, 0, 0)
      && forall j :: 0 <= j < |choices| ==> keys[k + j] == choices[j].0 as int && Goes(m, i + j, choices[j].1, 0)
    case Letter(c, next, act) =>
      Packs(m, q, k, i, 1, 0) && keys[k] == c as int && Goes(m, i, next, act) && Goes(m, i + 1, 0, 0)
    case Enter(f, next, act) =>
      Packs(m, q, k, i, 0, 1) && keys[k] == First(f) as int && keys[k + 1] == Final(f) as int
      && Goes(m, i, next, act) && Goes(m, i + 1, 0, 0)
    case Inside(f, stay, c, next, act) =>
      Packs(m, q, k, i, 1, 1) && keys[k] == c as int && keys[k + 1] == First(f) as int && keys[k + 2] == Final(f) as int
      && Goes(m, i, next, act) && Goes(m, i + 1, q, stay) && Goes(m, i + 2, 0, 0)
  }

  /** State `q` is packed as `RuleOf` lists it. */
  ghost predicate Encoded(m: Packed, q: nat) {
    exists k, i :: Encodes(m, q, k, i, RuleOf(q))
  }

  // The tables are compared with the rules a few states at a time.

  lemma Encoded0(q: nat)
    requires q == 0
    ensures Encoded(PROTOCOLL, q)
  {
    assert Encodes(PROTOCOLL, 0, 0, 0, RuleOf(0));
  }

  lemma Encoded1(q: nat)
    requires q == 1
    ensures Encoded(PROTOCOLL, q)
  {
    assert Encodes(PROTOCOLL, 1, 0, 0, RuleOf(1));
  }

  lemma Encoded2(q: nat)
    requires q == 2
    ensures Encoded(PROTOCOLL, q)
  {
    assert Encodes(PROTOCOLL, 2, 5, 6, RuleOf(2));
  }

  lemma Encoded3(q: nat)
    requires 3 <= q <= 4
    ensures Encoded(PROTOCOLL, q)
  {
    match q
    case 3 => assert Encodes(PROTOCOLL, 3, 7, 9, RuleOf(3));
    case _ => assert Encodes(PROTOCOLL, 4, 8, 11, RuleOf(4));
  }

  lemma Encoded5(q: nat)
    requires 5 <= q <= 7
    ensures Encoded(PROTOCOLL, q)
  {
    match q
    case 5 => assert Encodes(PROTOCOLL, 5, 9, 13, RuleOf(5));
    case 6 => assert Encodes(PROTOCOLL, 6, 10, 15, RuleOf(6));
    case _ => assert Encodes(PROTOCOLL, 7, 11, 17, RuleOf(7));
  }

  lemma Encoded8(q: nat)
    requires 8 <= q <= 9
    ensures Encoded(PROTOCOLL, q)
  {
    match q
    case 8 => assert Encodes(PROTOCOLL, 8, 12, 19, RuleOf(8));
    case _ => assert Encodes(PROTOCOLL, 9, 14, 21, RuleOf(9));
  }

  lemma Encoded10(q: nat)
    requires 10 <= q <= 11
    ensures Encoded(PROTOCOLL, q)
  {
    match q
    case 10 => assert Encodes(PROTOCOLL, 10, 17, 24, RuleOf(10));
    case _ => assert Encodes(PROTOCOLL, 11, 19, 26, RuleOf(11));
  }

  lemma Encoded12(q: nat)
    requires 12 <= q <= 13
    ensures Encoded(PROTOCOLL, q)
  {
    match q
    case 12 => assert Encodes(PROTOCOLL, 12, 22, 29, RuleOf(12));
    case _ => assert Encodes(PROTOCOLL, 13, 24, 31, RuleOf(13));
  }

  lemma Encoded14(q: nat)
    requires 14 <= q <= 15
    ensures Encoded(PROTOCOLL, q)
  {
    match q
    case 14 => assert Encodes(PROTOCOLL, 14, 27, 34, RuleOf(14));
    case _ => assert Encodes(PROTOCOLL, 15, 28, 36, RuleOf(15));
  }

  lemma Encoded16(q: nat)
    requires 16 <= q <= 17
    ensures Encoded(PROTOCOLL, q)
  {
    match q
    case 16 => assert Encodes(PROTOCOLL, 16, 29, 38, RuleOf(16));
    case _ => assert Encodes(PROTOCOLL, 17, 30, 40, RuleOf(17));
  }

  lemma Encoded18(q: nat)
    requires 18 <= q <= 19
    ensures Encoded(PROTOCOLL, q)
  {
    match q
    case 18 => assert Encodes(PROTOCOLL, 18, 31, 42, RuleOf(18));
    case _ => assert Encodes(PROTOCOLL, 19, 32, 44, RuleOf(19));
  }

  lemma Encoded20(q: nat)
    requires 20 <= q <= 21
    ensures Encoded(PROTOCOLL, q)
  {
    match q
    case 20 => assert Encodes(PROTOCOLL, 20, 33, 46, RuleOf(20));
    case _ => assert Encodes(PROTOCOLL, 21, 34, 48, RuleOf(21));
  }

  lemma Encoded22(q: nat)
    requires 22 <= q <= 23
    ensures Encoded(PROTOCOLL, q)
  {
    match q
    case 22 => assert Encodes(PROTOCOLL, 22, 35, 50, RuleOf(22));
    case _ => assert Encodes(PROTOCOLL, 23, 36, 52, RuleOf(23));
  }

  lemma Encoded24(q: nat)
    requires 24 <= q <= 25
    ensures Encoded(PROTOCOLL, q)
  {
    match q
    case 24 => assert Encodes(PROTOCOLL, 24, 37, 54, RuleOf(24));
    case _ => assert Encodes(PROTOCOLL, 25, 39, 56, RuleOf(25));
  }

  lemma Encoded26(q: nat)
    requires 26 <= q <= 27
    ensures Encoded(PROTOCOLL, q)
  {
    match q
    case 26 => assert Encodes(PROTOCOLL, 26, 42, 59, RuleOf(26));
    case _ => assert Encodes(PROTOCOLL, 27, 43, 61, RuleOf(27));
  }

  lemma Encoded28(q: nat)
    requires 28 <= q <= 29
    ensures Encoded(PROTOCOLL, q)
  {
    match q
    case 28 => assert Encodes(PROTOCOLL, 28, 44, 63, RuleOf(28));
    case _ => assert Encodes(PROTOCOLL, 29, 45, 65, RuleOf(29));
  }

  lemma Encoded30(q: nat)
    requires 30 <= q <= 31
    ensures Encoded(PROTOCOLL, q)
  {
    match q
    case 30 => assert Encodes(PROTOCOLL, 30, 46, 67, RuleOf(30));
    case _ => assert Encodes(PROTOCOLL, 31, 47, 69, RuleOf(31));
  }

  lemma Encoded32(q: nat)
    requires 32 <= q <= 33
    ensures Encoded(PROTOCOLL, q)
  {
    match q
    case 32 => assert Encodes(PROTOCOLL, 32, 48, 71, RuleOf(32));
    case _ => assert Encodes(PROTOCOLL, 33, 49, 73, RuleOf(33));
  }

  lemma Encoded34(q: nat)
    requires 34 <= q <= 35
    ensures Encoded(PROTOCOLL, q)
  {
    match q
    case 34 => assert Encodes(PROTOCOLL, 34, 50, 75, RuleOf(34));
    case _ => assert Encodes(PROTOCOLL, 35, 52, 77, RuleOf(35));
  }

  lemma Encoded36(q: nat)
    requires 36 <= q <= 37
    ensures Encoded(PROTOCOLL, q)
  {
    match q
    case 36 => assert Encodes(PROTOCOLL, 36, 55, 80, RuleOf(36));
    case _ => assert Encodes(PROTOCOLL, 37, 56, 82, RuleOf(37));
  }

  lemma Encoded38(q: nat)
    requires 38 <= q <= 39
    ensures Encoded(PROTOCOLL, q)
  {
    match q
    case 38 => assert Encodes(PROTOCOLL, 38, 57, 84, RuleOf(38));
    case _ => assert Encodes(PROTOCOLL, 39, 58, 86, RuleOf(39));
  }

  lemma Encoded40(q: nat)
    requires 40 <= q <= 41
    ensures Encoded(PROTOCOLL, q)
  {
    match q
    case 40 => assert Encodes(PROTOCOLL, 40, 59, 88, RuleOf(40));
    case _ => assert Encodes(PROTOCOLL, 41, 60, 90, RuleOf(41));
  }

  lemma Encoded42(q: nat)
    requires 42 <= q <= 43
    ensures Encoded(PROTOCOLL, q)
  {
    match q
    case 42 => assert Encodes(PROTOCOLL, 42, 61, 92, RuleOf(42));
    case _ => assert Encodes(PROTOCOLL, 43, 63, 94, RuleOf(43));
  }

  lemma Encoded44(q: nat)
    requires 44 <= q <= 45
    ensures Encoded(PROTOCOLL, q)
  {
    match q
    case 44 => assert Encodes(PROTOCOLL, 44, 66, 97, RuleOf(44));
    case _ => assert Encodes(PROTOCOLL, 45, 68, 99, RuleOf(45));
  }

  lemma Encoded46(q: nat)
    requires 46 <= q <= 47
    ensures Encoded(PROTOCOLL, q)
  {
    match q
    case 46 => assert Encodes(PROTOCOLL, 46, 71, 102, RuleOf(46));
    case _ => assert Encodes(PROTOCOLL, 47, 73, 104, RuleOf(47));
  }

  lemma Encoded48(q: nat)
    requires q == 48
    ensures Encoded(PROTOCOLL, q)
  {
    assert Encodes(PROTOCOLL, 48, 76, 107, RuleOf(48));
  }

  /** Every state is packed as listed. */
  lemma AllEncoded(q: nat)
    requires q < STATES
    ensures Encoded(PROTOCOLL, q)
  {
    if q <= 0 {
      Encoded0(q);
    } else if q <= 1 {
      Encoded1(q);
    } else if q <= 2 {
      Encoded2(q);
    } else if q <= 4 {
      Encoded3(q);
    } else if q <= 7 {
      Encoded5(q);
    } else if q <= 9 {
      Encoded8(q);
    } else if q <= 11 {
      Encoded10(q);
    } else if q <= 13 {
      Encoded12(q);
    } else if q <= 15 {
      Encoded14(q);
    } else if q <= 17 {
      Encoded16(q);
    } else if q <= 19 {
      Encoded18(q);
    } else if q <= 21 {
      Encoded20(q);
    } else if q <= 23 {
      Encoded22(q);
    } else if q <= 25 {
      Encoded24(q);
    } else if q <= 27 {
      Encoded26(q);
    } else if q <= 29 {
      Encoded28(q);
    } else if q <= 31 {
      Encoded30(q);
    } else if q <= 33 {
      Encoded32(q);
    } else if q <= 35 {
      Encoded34(q);
    } else if q <= 37 {
      Encoded36(q);
    } else if q <= 39 {
      Encoded38(q);
    } else if q <= 41 {
      Encoded40(q);
    } else if q <= 43 {
      Encoded42(q);
    } else if q <= 45 {
      Encoded44(q);
    } else if q <= 47 {
      Encoded46(q);
    } else {
      Encoded48(q);
    }
  }

  // ----- the action lists

  function ActionOf(code: int): Action {
    match code
    case 0 => Append(Content)
    case 1 => Term(Content)
    case 2 => Append(Filename)
    case 3 => Term(Filename)
    case 4 => Append(Length)
    case 5 => Term(Length)
    case 7 => Return(List)
    case 8 => Return(Read)
    case 9 => Return(Delete)
    case 10 => Return(Update)
    case 11 => Return(Create)
    case 12 => Return(Special)
    case _ => Init
  }

  /** The action lists, by their offset. */
  function ListOf(off: int): seq<Action> {
    match off
    case 1 => [Append(Content)]
    case 3 => [Append(Filename)]
    case 5 => [Term(Filename)]
    case 7 => [Append(Length)]
    case 9 => [Term(Length)]
    case 11 => [Return(List)]
    case 13 => [Return(Special)]
    case 15 => [Term(Content), Return(Update)]
    case 18 => [Term(Content), Return(Create)]
    case 21 => [Term(Filename), Return(Read)]
    case 24 => [Term(Filename), Return(Delete)]
    case 27 => [Init, Append(Content)]
    case 30 => [Init, Append(Filename)]
    case 33 => [Init, Append(Length)]
    case _ => []
  }

  /** The code at `at` is one of the actions', for `a`. */
  ghost predicate Coded(m: Packed, at: nat, a: Action) {
    at < |m.actions| && 0 <= m.actions[at] <= 12 && ActionOf(m.actions[at]) == a
  }

  /** The packed list at `off` is a length and that many codes for the list's actions. */
  ghost predicate Listed(m: Packed, off: int) {
    var l := ListOf(off);
    && 0 < off < |m.actions| && m.actions[off] == |l|
    && (|l| > 0 ==> Coded(m, off + 1, l[0]))
    && (|l| > 1 ==> Coded(m, off + 2, l[1]))
  }

  lemma ListedSingles()
    ensures Listed(PROTOCOLL, 1) && Listed(PROTOCOLL, 3) && Listed(PROTOCOLL, 5) && Listed(PROTOCOLL, 7)
    ensures Listed(PROTOCOLL, 9) && Listed(PROTOCOLL, 11) && Listed(PROTOCOLL, 13)
  {}

  lemma ListedReturns()
    ensures Listed(PROTOCOLL, 15) && Listed(PROTOCOLL, 18) && Listed(PROTOCOLL, 21) && Listed(PROTOCOLL, 24)
  {}

  lemma ListedEntries()
    ensures Listed(PROTOCOLL, 27) && Listed(PROTOCOLL, 30) && Listed(PROTOCOLL, 33)
  {}

  lemma AllListed(off: int)
    requires ListOf(off) != []
    ensures Listed(PROTOCOLL, off)
  {
    if off <= 13 { ListedSingles(); } else if off <= 24 { ListedReturns(); } else { ListedEntries(); }
  }

  // ----- sound tables: what the generator promises

  ghost predicate WellPacked(m: Packed) {
    && (forall q: nat :: q < STATES ==> Encoded(m, q))
    && (forall off: int :: ListOf(off) != [] ==> Listed(m, off))
  }

  lemma ProtocollSound()
    ensures WellPacked(PROTOCOLL)
  {
    forall q: nat | q < STATES ensures Encoded(PROTOCOLL, q) { AllEncoded(q); }
    forall off: int | ListOf(off) != [] ensures Listed(PROTOCOLL, off) { AllListed(off); }
  }

  /** State `q`'s row lies inside the tables, and its keys are fit for binary search. */
  ghost predicate Fit(m: Packed, q: nat) {
    && q < |m.keyOffsets| && q < |m.singleLengths| && q < |m.rangeLengths| && q < |m.indexOffsets|
    && m.keyOffsets[q] >= 0 && m.singleLengths[q] >= 0 && m.rangeLengths[q] >= 0 && m.indexOffsets[q] >= 0
    && Searchable(m.transKeys, Row(m.keyOffsets[q], m.singleLengths[q], m.rangeLengths[q]))
    && m.indexOffsets[q] + m.singleLengths[q] + m.rangeLengths[q] < |m.transTargs|
    && m.indexOffsets[q] + m.singleLengths[q] + m.rangeLengths[q] < |m.transActions|
  }

  lemma FitsRow(m: Packed, q: nat, k: nat, i: nat, singles: nat, ranges: nat)
    requires Packs(m, q, k, i, singles, ranges) && ranges <= 1
    requires forall a, b :: k <= a < b < k + singles ==> m.transKeys[a] < m.transKeys[b]
    requires ranges == 1 ==> m.transKeys[k + singles] <= m.transKeys[k + singles + 1]
    ensures Fit(m, q)
  {}

  lemma FitsRule(m: Packed, q: nat, k: nat, i: nat, rule: Rule)
    requires Encodes(m, q, k, i, rule)
    requires rule.Branch? ==> forall a, b :: 0 <= a < b < |rule.choices| ==> rule.choices[a].0 < rule.choices[b].0
    ensures Fit(m, q)
  {
    match rule
    case Dead => FitsRow(m, q, k, i, 0, 0);
    case Branch(choices) =>
      forall a, b | k <= a < b < k + |choices| ensures m.transKeys[a] < m.transKeys[b] {
        assert m.transKeys[k + (a - k)] == choices[a - k].0 as int && m.transKeys[k + (b - k)] == choices[b - k].0 as int;
      }
      FitsRow(m, q, k, i, |choices|, 0);
    case Letter(_, _, _) => FitsRow(m, q, k, i, 1, 0);
    case Enter(_, _, _) => FitsRow(m, q, k, i, 0, 1);
    case Inside(_, _, _, _, _) => FitsRow(m, q, k, i, 1, 1);
  }

  lemma BranchSorted(q: nat)
    requires RuleOf(q).Branch?
    ensures var c := RuleOf(q).choices; forall i, j :: 0 <= i < j < |c| ==> c[i].0 < c[j].0
  {}

  lemma Fits(m: Packed, q: nat)
    requires Encoded(m, q)
    ensures Fit(m, q)
  {
    var k, i :| Encodes(m, q, k, i, RuleOf(q));
    if RuleOf(q).Branch? { BranchSorted(q); }
    FitsRule(m, q, k, i, RuleOf(q));
  }

  /** The keys of a state. */
  function RowOf(m: Packed, q: nat): (r: Row)
    requires Fit(m, q)
    ensures Searchable(m.transKeys, r)
  {
    Row(m.keyOffsets[q], m.singleLengths[q], m.rangeLengths[q])
  }

  /** The transition that linear lookup selects. */
  function Transition(m: Packed, q: nat, x: int): (t: nat)
    requires Fit(m, q)
    ensures t < |m.transTargs| && t < |m.transActions|
  {
    m.indexOffsets[q] + Linear(m.transKeys, RowOf(m, q), 0, x)
  }

  function Selected(m: Packed, q: nat, x: int): (int, int)
    requires Fit(m, q)
  {
    (m.transTargs[Transition(m, q, x)], m.transActions[Transition(m, q, x)])
  }

  /** Where a rule sends `x`, and with which actions. */
  function Follow(q: nat, rule: Rule, x: int): (nat, int) {
    match rule
    case Dead => (0, 0)
    case Branch(choices) => (Choose(choices, x), 0)
    case Letter(c, next, act) => if x == c as int then (next, act) else (0, 0)
    case Enter(f, next, act) => if First(f) as int <= x <= Final(f) as int then (next, act) else (0, 0)
    case Inside(f, stay, c, next, act) =>
      if x == c as int then (next, act) else if First(f) as int <= x <= Final(f) as int then (q, stay) else (0, 0)
  }

  function Choose(choices: seq<(char, nat)>, x: int): nat {
    if choices == [] then 0 else if x == choices[0].0 as int then choices[0].1 else Choose(choices[1..], x)
  }

  lemma SelectsBranch(m: Packed, q: nat, k: nat, i: nat, choices: seq<(char, nat)>, x: int)
    requires Encodes(m, q, k, i, Branch(choices)) && Fit(m, q)
    ensures Selected(m, q, x) == Follow(q, Branch(choices), x)
  {
    ChooseLinear(m.transKeys, RowOf(m, q), choices, 0, x);
    assert choices[0..] == choices;
  }

  lemma SelectsShort(m: Packed, q: nat, k: nat, i: nat, rule: Rule, x: int)
    requires Encodes(m, q, k, i, rule) && Fit(m, q) && (rule.Letter? || rule.Enter?)
    ensures Selected(m, q, x) == Follow(q, rule, x)
  {
    assert Linear(m.transKeys, RowOf(m, q), 1, x) == 1;
  }

  lemma SelectsInside(m: Packed, q: nat, k: nat, i: nat, rule: Rule, x: int)
    requires Encodes(m, q, k, i, rule) && Fit(m, q) && rule.Inside?
    ensures Selected(m, q, x) == Follow(q, rule, x)
  {
    assert Linear(m.transKeys, RowOf(m, q), 2, x) == 2;
    assert Linear(m.transKeys, RowOf(m, q), 1, x) == if Takes(m.transKeys, RowOf(m, q), 1, x) then 1 else 2;
  }

  /** Looking up the packed rule is following it. */
  lemma SelectsRule(m: Packed, q: nat, k: nat, i: nat, rule: Rule, x: int)
    requires Encodes(m, q, k, i, rule) && Fit(m, q) && !rule.Dead?
    ensures Selected(m, q, x) == Follow(q, rule, x)
  {
    match rule
    case Branch(choices) => SelectsBranch(m, q, k, i, choices, x);
    case Letter(_, _, _) => SelectsShort(m, q, k, i, rule, x);
    case Enter(_, _, _) => SelectsShort(m, q, k, i, rule, x);
    case Inside(_, _, _, _, _) => SelectsInside(m, q, k, i, rule, x);
  }

  lemma {:induction false} ChooseLinear(keys: seq<int>, r: Row, choices: seq<(char, nat)>, n: nat, x: int)
    requires r.End() <= |keys| && r.singles == |choices| && r.ranges == 0 && n <= |choices|
    requires forall j :: 0 <= j < |choices| ==> keys[r.start + j] == choices[j].0 as int
    ensures var t := Linear(keys, r, n, x);
            Choose(choices[n..], x) == if t == |choices| then 0 else choices[t].1
    decreases |choices| - n
  {
    if n < |choices| {
      ChooseLinear(keys, r, choices, n + 1, x);
      assert choices[n..][1..] == choices[n + 1..];
    }
  }
}
