/** The coarse capability set: a 64-bit word with one bit for each slot. */
module CapabilitySet {

  datatype Capability =
    | CapFsRead | CapFsWrite | CapFsList | CapFsMetadata
    | ProcessSpawn | ProcessSignal | ProcessIo
    | SecretList | SecretRead | SecretMutate
    | NetworkFetch | NetworkBind
    | ScheduleList | ScheduleRead | ScheduleMutate
    | AgentSpawn | JobSpawn | TimeRead

  /** Any word is a value: the source keeps unknown bits. */
  type Capabilities = bv64

  const EMPTY: Capabilities := 0

  /** The discriminant, a byte, is the bit position. */
  function Index(c: Capability): (i: bv8)
    ensures i < 64
  {
    match c
    case CapFsRead => 0
    case CapFsWrite => 1
    case CapFsList => 2
    case CapFsMetadata => 3
    case ProcessSpawn => 8
    case ProcessSignal => 9
    case ProcessIo => 10
    case SecretList => 16
    case SecretRead => 17
    case SecretMutate => 18
    case NetworkFetch => 24
    case NetworkBind => 25
    case ScheduleList => 32
    case ScheduleRead => 33
    case ScheduleMutate => 34
    case AgentSpawn => 40
    case JobSpawn => 48
    case TimeRead => 56
  }

  function Bit(c: Capability): Capabilities {
    (1 as bv64) << Index(c)
  }

  predicate Contains(caps: Capabilities, other: Capabilities) {
    caps & other == other
  }

  /** The word a list of slots folds to. */
  function Word(list: seq<Capability>): Capabilities {
    if list == [] then EMPTY else Word(list[..|list| - 1]) | Bit(list[|list| - 1])
  }

  method FromIter(list: seq<Capability>) returns (caps: Capabilities)
    ensures caps == Word(list)
  {
    caps := EMPTY;
    for i := 0 to |list|
      invariant caps == Word(list[..i])
    {
      assert list[..i + 1][..i] == list[..i];
      caps := caps | Bit(list[i]);
    }
    assert list[..|list|] == list;
  }

  lemma ContainsTransitive(a: Capabilities, b: Capabilities, c: Capabilities)
    requires Contains(a, b) && Contains(b, c)
    ensures Contains(a, c)
  {
    AndAssociates(a, b, c);
  }

  lemma AndAssociates(a: Capabilities, b: Capabilities, c: Capabilities)
    ensures a & (b & c) == (a & b) & c
  {
  }

  lemma ContainsReflexive(a: Capabilities)
    ensures Contains(a, a)
    ensures Contains(a, EMPTY)
  {
  }

  lemma AndOverOr(a: Capabilities, b: Capabilities, c: Capabilities)
    ensures a & (b | c) == (a & b) | (a & c)
  {
  }

  lemma UnionCovers(a: Capabilities, b: Capabilities, c: Capabilities)
    requires a & (b | c) == b | c
    ensures a & b == b
  {
  }

  lemma OrCommutes(a: Capabilities, b: Capabilities)
    ensures a | b == b | a
  {
  }

  lemma ContainsUnion(a: Capabilities, b: Capabilities, c: Capabilities)
    ensures Contains(a, b | c) <==> Contains(a, b) && Contains(a, c)
  {
    if Contains(a, b | c) {
      UnionCovers(a, b, c);
      OrCommutes(b, c);
      UnionCovers(a, c, b);
    }
    if Contains(a, b) && Contains(a, c) {
      AndOverOr(a, b, c);
    }
  }

  lemma AndCommutes(a: Capabilities, b: Capabilities)
    ensures a & b == b & a
  {
  }

  lemma ShiftsAreSeparate(i: bv8, j: bv8)
    requires i < 64 && j < 64 && i != j
    ensures ((1 as bv64) << i) & ((1 as bv64) << j) == 0
  {
  }

  lemma BitIsNotEmpty(i: bv8)
    requires i < 64
    ensures (1 as bv64) << i != 0
  {
  }

  lemma AndOverDisjointOr(a: Capabilities, b: Capabilities, bit: Capabilities)
    requires b & bit == 0
    ensures (a | b) & bit == a & bit
  {
  }

  lemma OrAbsorbs(a: Capabilities, b: Capabilities)
    ensures (a | b) & b == b
  {
  }

  lemma OtherBitAdded(a: Capabilities, b: Capabilities, bit: Capabilities)
    requires b & bit == 0
    ensures Contains(a | b, bit) <==> Contains(a, bit)
  {
    AndOverDisjointOr(a, b, bit);
  }

  lemma EmptyLacks(bit: Capabilities)
    requires bit != 0
    ensures !Contains(EMPTY, bit)
  {
  }

  lemma IndexInjective(c: Capability, d: Capability)
    ensures Index(c) == Index(d) <==> c == d
  {
  }

  lemma BitsAreSeparate(c: Capability, d: Capability)
    ensures Bit(c) != 0
    ensures c != d ==> Bit(c) & Bit(d) == 0
  {
    BitIsNotEmpty(Index(c));
    if c != d {
      IndexInjective(c, d);
      ShiftsAreSeparate(Index(c), Index(d));
    }
  }

  /** Joining `bit` to a word makes it hold `bit`, and no other bit apart from it. */
  lemma JoinedBit(w: Capabilities, bit: Capabilities, other: Capabilities, same: bool)
    requires if same then bit == other else bit & other == 0
    ensures Contains(w | bit, other) <==> same || Contains(w, other)
  {
    if same {
      OrAbsorbs(w, bit);
    } else {
      OtherBitAdded(w, bit, other);
    }
  }

  lemma BitAdded(w: Capabilities, d: Capability, c: Capability)
    ensures Contains(w | Bit(d), Bit(c)) <==> c == d || Contains(w, Bit(c))
  {
    BitsAreSeparate(d, c);
    JoinedBit(w, Bit(d), Bit(c), c == d);
  }

  lemma {:induction false} WordHolds(list: seq<Capability>, c: Capability)
    ensures Contains(Word(list), Bit(c)) <==> c in list
  {
    if list == [] {
      BitsAreSeparate(c, c);
      EmptyLacks(Bit(c));
    } else {
      var init, last := list[..|list| - 1], list[|list| - 1];
      WordHolds(init, c);
      BitAdded(Word(init), last, c);
    }
  }

  lemma ContainsJoined(caps: Capabilities, w: Capabilities, bit: Capabilities, joined: Capabilities)
    requires joined == w | bit
    ensures Contains(caps, joined) <==> Contains(caps, w) && Contains(caps, bit)
  {
    ContainsUnion(caps, w, bit);
  }

  /** Whether a word holds a slot, as a function of the slot. */
  function Has(caps: Capabilities): Capability -> bool {
    c => Contains(caps, Bit(c))
  }

  predicate All<T>(p: T -> bool, list: seq<T>) {
    list == [] || (All(p, list[..|list| - 1]) && p(list[|list| - 1]))
  }

  lemma {:induction false} AllIff<T>(p: T -> bool, list: seq<T>)
    ensures All(p, list) <==> forall x :: x in list ==> p(x)
  {
    if list != [] {
      var init, last := list[..|list| - 1], list[|list| - 1];
      assert list == init + [last];
      AllIff(p, init);
    }
  }

  lemma {:induction false} WordIncluded(caps: Capabilities, list: seq<Capability>)
    ensures Contains(caps, Word(list)) <==> All(Has(caps), list)
  {
    if list == [] {
      ContainsReflexive(caps);
    } else {
      var init, last := list[..|list| - 1], list[|list| - 1];
      WordIncluded(caps, init);
      ContainsJoined(caps, Word(init), Bit(last), Word(list));
    }
  }

  /** On folded words the bit test is exactly inclusion of the lists, whatever their order or repeats. */
  lemma ContainsIsInclusion(xs: seq<Capability>, ys: seq<Capability>)
    ensures Contains(Word(xs), Word(ys)) <==> forall c :: c in ys ==> c in xs
  {
    WordIncluded(Word(xs), ys);
    AllIff(Has(Word(xs)), ys);
    forall c
      ensures Has(Word(xs))(c) <==> c in xs
    {
      WordHolds(xs, c);
    }
  }

  lemma MutualInclusion(a: Capabilities, b: Capabilities)
    requires Contains(a, b) && Contains(b, a)
    ensures a == b
  {
    AndCommutes(a, b);
  }

  /** Two lists with the same slots fold to one word. */
  lemma WordIgnoresOrderAndRepeats(xs: seq<Capability>, ys: seq<Capability>)
    requires forall c :: c in xs <==> c in ys
    ensures Word(xs) == Word(ys)
  {
    ContainsIsInclusion(xs, ys);
    ContainsIsInclusion(ys, xs);
    MutualInclusion(Word(xs), Word(ys));
  }

  /** The word of each slot, as other programs store it. */
  lemma SlotWords()
    ensures Bit(CapFsRead) == 0x1 && Bit(CapFsWrite) == 0x2 && Bit(CapFsList) == 0x4 && Bit(CapFsMetadata) == 0x8
    ensures Bit(ProcessSpawn) == 0x100 && Bit(ProcessSignal) == 0x200 && Bit(ProcessIo) == 0x400
    ensures Bit(SecretList) == 0x1_0000 && Bit(SecretRead) == 0x2_0000 && Bit(SecretMutate) == 0x4_0000
    ensures Bit(NetworkFetch) == 0x100_0000 && Bit(NetworkBind) == 0x200_0000
    ensures Bit(ScheduleList) == 0x1_0000_0000 && Bit(ScheduleRead) == 0x2_0000_0000
    ensures Bit(ScheduleMutate) == 0x4_0000_0000
    ensures Bit(AgentSpawn) == 0x100_0000_0000 && Bit(JobSpawn) == 0x1_0000_0000_0000
    ensures Bit(TimeRead) == 0x100_0000_0000_0000
  {
  }
}
