/**
 * The root-signature layout built by the Direct3D 12 renderer from a
 * shader's reflected bindings (`CreateD3D12RootSignature`): a first pass
 * files each binding as a root descriptor, a descriptor table or a static
 * sampler; a second gives the root descriptors their parameter indices; a
 * third appends one table per new texture range and records which index
 * every binding is reached through.
 */
module RootSignature {
  import opened Wrappers

  /** The resource kinds shader reflection reports; `Unsupported` stands for any other value. */
  datatype Kind = ConstantBuffer | StructuredBuffer | Texture | Sampler | UAV | Unsupported(code: int)

  /** One reflected binding: its kind, register and register space. */
  datatype Binding = Binding(kind: Kind, register: nat, space: nat)

  /** How the first pass files a binding. */
  datatype Slot = RootDescriptor | NewTable | StaticSampler | MergedTable

  /** A descriptor range of shader-resource views. */
  datatype Range = Range(base: int, count: int, space: nat)

  /** The result of the first pass. */
  datatype Classified = Classified(slots: seq<Slot>, ranges: seq<Range>, samplers: seq<Binding>)

  predicate IsRootKind(k: Kind) {
    k.ConstantBuffer? || k.StructuredBuffer? || k.UAV?
  }

  /** The slot a binding of each kind can be filed under. */
  predicate SlotFits(k: Kind, s: Slot) {
    match s
    case RootDescriptor => IsRootKind(k)
    case NewTable => k.Texture?
    case MergedTable => k.Texture?
    case StaticSampler => k.Sampler?
  }

  function Max(a: int, b: int): int {
    if a >= b then a else b
  }

  predicate RangeMatches(r: Range, register: nat, space: nat) {
    r.base == register && r.space == space
  }

  /** The first range starting at `register` in `space`, searching from position `from`. */
  function FindRangeFrom(ranges: seq<Range>, register: nat, space: nat, from: nat): (r: Option<nat>)
    requires from <= |ranges|
    ensures r.Some? ==> from <= r.value < |ranges| && RangeMatches(ranges[r.value], register, space)
    ensures r.Some? ==> forall j | from <= j < r.value :: !RangeMatches(ranges[j], register, space)
    ensures r.None? ==> forall j | from <= j < |ranges| :: !RangeMatches(ranges[j], register, space)
    decreases |ranges| - from
  {
    if from == |ranges| then None
    else if RangeMatches(ranges[from], register, space) then Some(from)
    else FindRangeFrom(ranges, register, space, from + 1)
  }

  /** The `findRange` search: the first matching range, if any. */
  function FindRange(ranges: seq<Range>, register: nat, space: nat): Option<nat> {
    FindRangeFrom(ranges, register, space, 0)
  }

  const UNSUPPORTED_RESOURCE: string := "Unsupported resource type in root signature creation"

  /**
   * The first pass on one binding: root descriptors and samplers are filed
   * directly; a texture joins an existing range with its register and space,
   * widening it to cover the register, or opens a new one-descriptor range.
   */
  function ClassifyStep(c: Classified, b: Binding): Result<Classified> {
    match b.kind
    case ConstantBuffer => Success(Classified(c.slots + [RootDescriptor], c.ranges, c.samplers))
    case StructuredBuffer => Success(Classified(c.slots + [RootDescriptor], c.ranges, c.samplers))
    case UAV => Success(Classified(c.slots + [RootDescriptor], c.ranges, c.samplers))
    case Texture =>
      (match FindRange(c.ranges, b.register, b.space)
       case Some(j) =>
         var r := c.ranges[j];
         var maxBinding := Max(r.base + r.count - 1, b.register);
         Success(Classified(c.slots + [MergedTable],
                            c.ranges[j := Range(r.base, maxBinding - r.base + 1, r.space)], c.samplers))
       case None =>
         Success(Classified(c.slots + [NewTable], c.ranges + [Range(b.register, 1, b.space)], c.samplers)))
    case Sampler => Success(Classified(c.slots + [StaticSampler], c.ranges, c.samplers + [b]))
    case Unsupported(_) => Failure(UNSUPPORTED_RESOURCE)
  }

  /** The first pass over the first `n` bindings. */
  function ClassifyUpTo(bs: seq<Binding>, n: nat): Result<Classified>
    requires n <= |bs|
  {
    if n == 0 then Success(Classified([], [], []))
    else
      match ClassifyUpTo(bs, n - 1)
      case Failure(e) => Failure(e)
      case Success(c) => ClassifyStep(c, bs[n - 1])
  }

  /** How many of the first `n` slots equal `s`. */
  function CountSlots(slots: seq<Slot>, n: nat, s: Slot): (k: nat)
    requires n <= |slots|
    ensures k <= n
  {
    if n == 0 then 0 else CountSlots(slots, n - 1, s) + (if slots[n - 1] == s then 1 else 0)
  }

  /** Some binding before position `n` is a texture at `register` in `space`. */
  predicate HasTexture(bs: seq<Binding>, n: nat, register: nat, space: nat)
    requires n <= |bs|
  {
    exists j | 0 <= j < n :: bs[j].kind.Texture? && bs[j].register == register && bs[j].space == space
  }

  /** The samplers among the first `n` bindings, in order. */
  function SamplersUpTo(bs: seq<Binding>, n: nat): seq<Binding>
    requires n <= |bs|
  {
    if n == 0 then [] else SamplersUpTo(bs, n - 1) + (if bs[n - 1].kind.Sampler? then [bs[n - 1]] else [])
  }

  /** Some range starts at `register` in `space`. */
  predicate HasRange(ranges: seq<Range>, register: nat, space: nat) {
    exists k | 0 <= k < |ranges| :: RangeMatches(ranges[k], register, space)
  }

  lemma FindRangeFindsAny(ranges: seq<Range>, register: nat, space: nat)
    ensures FindRange(ranges, register, space).Some? <==> HasRange(ranges, register, space)
  {
    var r := FindRange(ranges, register, space);
    if r.Some? {
      assert RangeMatches(ranges[r.value], register, space);
    }
  }

  lemma CountSlotsOfAppend(slots: seq<Slot>, x: Slot, n: nat, s: Slot)
    requires n <= |slots|
    ensures CountSlots(slots + [x], n, s) == CountSlots(slots, n, s)
  {
    if n > 0 {
      CountSlotsOfAppend(slots, x, n - 1, s);
      assert (slots + [x])[n - 1] == slots[n - 1];
    }
  }

  /** Counting up to a later position counts at least as many. */
  lemma {:induction false} CountSlotsGrows(slots: seq<Slot>, i: nat, n: nat, s: Slot)
    requires i < n <= |slots| && slots[i] == s
    ensures CountSlots(slots, i, s) < CountSlots(slots, n, s)
    decreases n
  {
    if n > i + 1 {
      CountSlotsGrows(slots, i, n - 1, s);
    }
  }

  /** Every one of the first `n` bindings is filed under a slot its kind allows. */
  ghost predicate SlotsOk(bs: seq<Binding>, n: nat, c: Classified)
    requires n <= |bs|
  {
    |c.slots| == n && forall i | 0 <= i < n :: SlotFits(bs[i].kind, c.slots[i])
  }

  /** One one-register range per new table, in the order the tables were opened. */
  ghost predicate RangesOk(bs: seq<Binding>, n: nat, c: Classified)
    requires n <= |bs| && |c.slots| == n
  {
    && |c.ranges| == CountSlots(c.slots, n, NewTable)
    && (forall k | 0 <= k < |c.ranges| :: c.ranges[k].count == 1)
    && (forall i | 0 <= i < n && c.slots[i] == NewTable ::
          CountSlots(c.slots, i, NewTable) < |c.ranges| &&
          c.ranges[CountSlots(c.slots, i, NewTable)] == Range(bs[i].register, 1, bs[i].space))
  }

  /** A texture is merged exactly when an earlier texture had its register and space. */
  ghost predicate MergedOk(bs: seq<Binding>, n: nat, c: Classified)
    requires n <= |bs| && |c.slots| == n
  {
    forall i | 0 <= i < n :: c.slots[i] == MergedTable <==>
      bs[i].kind.Texture? && HasTexture(bs, i, bs[i].register, bs[i].space)
  }

  /** There is a range for a register and space exactly when some texture used them. */
  ghost predicate KeysOk(bs: seq<Binding>, n: nat, c: Classified)
    requires n <= |bs|
  {
    forall register: nat, space: nat ::
      HasRange(c.ranges, register, space) <==> HasTexture(bs, n, register, space)
  }

  /** What a successful first pass over `n` bindings holds. */
  ghost predicate ClassifiedWell(bs: seq<Binding>, n: nat, c: Classified)
    requires n <= |bs|
  {
    SlotsOk(bs, n, c) && RangesOk(bs, n, c) && MergedOk(bs, n, c) && KeysOk(bs, n, c)
    && c.samplers == SamplersUpTo(bs, n)
  }

  lemma HasTextureStep(bs: seq<Binding>, n: nat, register: nat, space: nat)
    requires n < |bs|
    ensures HasTexture(bs, n + 1, register, space) <==>
              HasTexture(bs, n, register, space) ||
              (bs[n].kind.Texture? && bs[n].register == register && bs[n].space == space)
  {
    if HasTexture(bs, n + 1, register, space) && !(bs[n].kind.Texture? && bs[n].register == register && bs[n].space == space) {
      var j :| 0 <= j < n + 1 && bs[j].kind.Texture? && bs[j].register == register && bs[j].space == space;
      assert j < n;
    }
  }

  lemma HasRangeAppend(ranges: seq<Range>, x: Range, register: nat, space: nat)
    ensures HasRange(ranges + [x], register, space) <==> HasRange(ranges, register, space) || RangeMatches(x, register, space)
  {
    if HasRange(ranges, register, space) {
      var k :| 0 <= k < |ranges| && RangeMatches(ranges[k], register, space);
      assert (ranges + [x])[k] == ranges[k];
    }
    if RangeMatches(x, register, space) {
      assert (ranges + [x])[|ranges|] == x;
    }
    if HasRange(ranges + [x], register, space) {
      var k :| 0 <= k < |ranges| + 1 && RangeMatches((ranges + [x])[k], register, space);
      if k < |ranges| {
        assert (ranges + [x])[k] == ranges[k];
      }
    }
  }

  /** A binding that joins a range leaves it as it was, because every range covers one register. */
  lemma MergeKeepsRanges(c: Classified, b: Binding, j: nat)
    requires j < |c.ranges| && c.ranges[j].count == 1 && RangeMatches(c.ranges[j], b.register, b.space)
    ensures var r := c.ranges[j];
            c.ranges[j := Range(r.base, Max(r.base + r.count - 1, b.register) - r.base + 1, r.space)] == c.ranges
  {
  }

  lemma KeepSlots(bs: seq<Binding>, n: nat, c: Classified, c': Classified, x: Slot)
    requires n < |bs| && SlotsOk(bs, n, c)
    requires c'.slots == c.slots + [x] && SlotFits(bs[n].kind, x)
    ensures SlotsOk(bs, n + 1, c')
  {
  }

  lemma KeepCounts(c: Classified, c': Classified, x: Slot, n: nat)
    requires |c.slots| == n && c'.slots == c.slots + [x]
    ensures forall i | 0 <= i <= n :: CountSlots(c'.slots, i, NewTable) == CountSlots(c.slots, i, NewTable)
  {
    forall i | 0 <= i <= n
      ensures CountSlots(c'.slots, i, NewTable) == CountSlots(c.slots, i, NewTable)
    {
      CountSlotsOfAppend(c.slots, x, i, NewTable);
    }
  }

  lemma KeepRanges(bs: seq<Binding>, n: nat, c: Classified, c': Classified, x: Slot)
    requires n < |bs| && |c.slots| == n && RangesOk(bs, n, c)
    requires c'.slots == c.slots + [x] && x != NewTable && c'.ranges == c.ranges
    ensures RangesOk(bs, n + 1, c')
  {
    KeepCounts(c, c', x, n);
  }

  lemma OpenRange(bs: seq<Binding>, n: nat, c: Classified, c': Classified)
    requires n < |bs| && |c.slots| == n && RangesOk(bs, n, c)
    requires c'.slots == c.slots + [NewTable]
    requires c'.ranges == c.ranges + [Range(bs[n].register, 1, bs[n].space)]
    ensures RangesOk(bs, n + 1, c')
  {
    KeepCounts(c, c', NewTable, n);
    OpenRangeIndexed(bs, n, c, c');
  }

  /** The new table's range sits right after the ranges of the earlier tables. */
  lemma OpenRangeIndexed(bs: seq<Binding>, n: nat, c: Classified, c': Classified)
    requires n < |bs| && |c.slots| == n && |c.ranges| == CountSlots(c.slots, n, NewTable)
    requires forall i | 0 <= i < n && c.slots[i] == NewTable ::
               CountSlots(c.slots, i, NewTable) < |c.ranges| &&
               c.ranges[CountSlots(c.slots, i, NewTable)] == Range(bs[i].register, 1, bs[i].space)
    requires c'.slots == c.slots + [NewTable]
    requires c'.ranges == c.ranges + [Range(bs[n].register, 1, bs[n].space)]
    requires forall i | 0 <= i <= n :: CountSlots(c'.slots, i, NewTable) == CountSlots(c.slots, i, NewTable)
    ensures forall i | 0 <= i < n + 1 && c'.slots[i] == NewTable ::
              CountSlots(c'.slots, i, NewTable) < |c'.ranges| &&
              c'.ranges[CountSlots(c'.slots, i, NewTable)] == Range(bs[i].register, 1, bs[i].space)
  {
    forall i | 0 <= i < n + 1 && c'.slots[i] == NewTable
      ensures CountSlots(c'.slots, i, NewTable) < |c'.ranges|
      ensures c'.ranges[CountSlots(c'.slots, i, NewTable)] == Range(bs[i].register, 1, bs[i].space)
    {
      if i < n {
        assert c'.slots[i] == c.slots[i];
        RangeKeptAt(c.ranges, Range(bs[n].register, 1, bs[n].space), CountSlots(c.slots, i, NewTable));
      }
    }
  }

  lemma RangeKeptAt(ranges: seq<Range>, x: Range, k: nat)
    requires k < |ranges|
    ensures (ranges + [x])[k] == ranges[k]
  {
  }

  lemma KeepMerged(bs: seq<Binding>, n: nat, c: Classified, c': Classified, x: Slot)
    requires n < |bs| && |c.slots| == n && MergedOk(bs, n, c)
    requires c'.slots == c.slots + [x]
    requires x == MergedTable <==> bs[n].kind.Texture? && HasTexture(bs, n, bs[n].register, bs[n].space)
    ensures MergedOk(bs, n + 1, c')
  {
  }

  lemma KeepKeys(bs: seq<Binding>, n: nat, c: Classified, c': Classified)
    requires n < |bs| && KeysOk(bs, n, c) && c'.ranges == c.ranges
    requires bs[n].kind.Texture? ==> HasTexture(bs, n, bs[n].register, bs[n].space)
    ensures KeysOk(bs, n + 1, c')
  {
    forall register: nat, space: nat
      ensures HasRange(c'.ranges, register, space) <==> HasTexture(bs, n + 1, register, space)
    {
      HasTextureStep(bs, n, register, space);
    }
  }

  lemma OpenKey(bs: seq<Binding>, n: nat, c: Classified, c': Classified)
    requires n < |bs| && KeysOk(bs, n, c) && bs[n].kind.Texture?
    requires c'.ranges == c.ranges + [Range(bs[n].register, 1, bs[n].space)]
    ensures KeysOk(bs, n + 1, c')
  {
    forall register: nat, space: nat
      ensures HasRange(c'.ranges, register, space) <==> HasTexture(bs, n + 1, register, space)
    {
      HasTextureStep(bs, n, register, space);
      HasRangeAppend(c.ranges, Range(bs[n].register, 1, bs[n].space), register, space);
    }
  }

  /** One step of the first pass keeps everything `ClassifiedWell` states. */
  lemma StepWell(bs: seq<Binding>, n: nat, c: Classified)
    requires n < |bs| && ClassifiedWell(bs, n, c)
    ensures ClassifyStep(c, bs[n]).Success? <==> !bs[n].kind.Unsupported?
    ensures ClassifyStep(c, bs[n]).Success? ==> ClassifiedWell(bs, n + 1, ClassifyStep(c, bs[n]).value)
  {
    var b := bs[n];
    if !b.kind.Unsupported? {
      var c' := ClassifyStep(c, b).value;
      if b.kind.Texture? {
        FindRangeFindsAny(c.ranges, b.register, b.space);
        match FindRange(c.ranges, b.register, b.space)
        case Some(j) =>
          MergeKeepsRanges(c, b, j);
          KeepSlots(bs, n, c, c', MergedTable);
          KeepRanges(bs, n, c, c', MergedTable);
          KeepMerged(bs, n, c, c', MergedTable);
          KeepKeys(bs, n, c, c');
        case None =>
          KeepSlots(bs, n, c, c', NewTable);
          OpenRange(bs, n, c, c');
          KeepMerged(bs, n, c, c', NewTable);
          OpenKey(bs, n, c, c');
      } else {
        var x := if b.kind.Sampler? then StaticSampler else RootDescriptor;
        KeepSlots(bs, n, c, c', x);
        KeepRanges(bs, n, c, c', x);
        KeepMerged(bs, n, c, c', x);
        KeepKeys(bs, n, c, c');
      }
    }
  }

  /**
   * The first pass fails exactly when some binding has an unsupported kind;
   * otherwise it files every binding, keeps one one-register range per
   * distinct texture register and space, in order of first appearance, marks
   * a texture as merged exactly when an earlier texture had its register and
   * space, and collects the samplers in order.
   */
  lemma {:induction false} ClassifyMeaning(bs: seq<Binding>, n: nat)
    requires n <= |bs|
    ensures ClassifyUpTo(bs, n).Success? <==> forall i | 0 <= i < n :: !bs[i].kind.Unsupported?
    ensures ClassifyUpTo(bs, n).Success? ==> ClassifiedWell(bs, n, ClassifyUpTo(bs, n).value)
  {
    if n > 0 {
      ClassifyMeaning(bs, n - 1);
      var prev := ClassifyUpTo(bs, n - 1);
      if prev.Success? {
        StepWell(bs, n - 1, prev.value);
      }
    }
  }

  // ---------------------------------------------------------------------
  // Root-parameter numbering
  // ---------------------------------------------------------------------

  /** A root parameter: a root descriptor of some kind, or a descriptor table of one range. */
  datatype RootParam = Cbv(register: nat, space: nat) | Srv(register: nat, space: nat)
                     | Uav(register: nat, space: nat) | Table(range: Range)

  /** The key bindings are looked up by: register, and set 1 for storage buffers and UAVs, else 0. */
  datatype Key = Key(binding: nat, bindingSet: nat)

  function SetOf(k: Kind): nat {
    if k.StructuredBuffer? || k.UAV? then 1 else 0
  }

  function KeyOf(b: Binding): Key {
    Key(b.register, SetOf(b.kind))
  }

  function RootParamOf(b: Binding): (p: RootParam)
    requires IsRootKind(b.kind)
    ensures !p.Table?
  {
    match b.kind
    case ConstantBuffer => Cbv(b.register, b.space)
    case StructuredBuffer => Srv(b.register, b.space)
    case UAV => Uav(b.register, b.space)
  }

  /** The state of the numbering passes. */
  datatype Numbering = Numbering(params: seq<RootParam>, paramOf: map<Key, nat>, next: nat, tableIndex: nat)

  ghost predicate SlotsFit(bs: seq<Binding>, slots: seq<Slot>) {
    |slots| == |bs| && forall i | 0 <= i < |bs| :: SlotFits(bs[i].kind, slots[i])
  }

  /**
   * The second pass over the first `n` bindings: each root descriptor takes
   * the next parameter index, counted from zero.
   */
  function RootPass(bs: seq<Binding>, slots: seq<Slot>, n: nat, paramOf0: map<Key, nat>): (st: Numbering)
    requires SlotsFit(bs, slots) && n <= |bs|
    ensures st.tableIndex == 0
    ensures st.next == |st.params| == CountSlots(slots, n, RootDescriptor)
  {
    if n == 0 then Numbering([], paramOf0, 0, 0)
    else
      var st := RootPass(bs, slots, n - 1, paramOf0);
      if slots[n - 1] == RootDescriptor then
        var b := bs[n - 1];
        Numbering(st.params + [RootParamOf(b)], st.paramOf[KeyOf(b) := st.next], st.next + 1, st.tableIndex)
      else st
  }

  /** The parameter index before `next`, as a 32-bit unsigned decrement. */
  function PrevIndex(next: nat): nat {
    if next == 0 then 0xFFFF_FFFF else next - 1
  }

  /**
   * The third pass over the first `n` bindings: each new texture range opens
   * a table at the next index; a merged texture is given the index before
   * the next one.
   */
  function TablePass(bs: seq<Binding>, slots: seq<Slot>, ranges: seq<Range>, n: nat, st0: Numbering): (st: Numbering)
    requires SlotsFit(bs, slots) && n <= |bs|
    requires CountSlots(slots, |slots|, NewTable) <= |ranges| && st0.tableIndex == 0
    ensures st.tableIndex == CountSlots(slots, n, NewTable)
    ensures st.next == st0.next + CountSlots(slots, n, NewTable)
    ensures |st.params| == |st0.params| + CountSlots(slots, n, NewTable)
  {
    if n == 0 then st0
    else
      var st := TablePass(bs, slots, ranges, n - 1, st0);
      var b := bs[n - 1];
      match slots[n - 1]
      case NewTable =>
        CountSlotsGrows(slots, n - 1, |slots|, NewTable);
        Numbering(st.params + [Table(ranges[st.tableIndex])], st.paramOf[KeyOf(b) := st.next],
                  st.next + 1, st.tableIndex + 1)
      case MergedTable => Numbering(st.params, st.paramOf[KeyOf(b) := PrevIndex(st.next)], st.next, st.tableIndex)
      case RootDescriptor => st
      case StaticSampler => st
  }

  /** The root signature: its parameters, static samplers and ranges, and the binding-to-parameter map. */
  datatype Layout = Layout(params: seq<RootParam>, samplers: seq<Binding>, ranges: seq<Range>, paramOf: map<Key, nat>)

  /** `CreateD3D12RootSignature` with the binding map holding `paramOf0` beforehand. */
  function RootSignatureOf(bs: seq<Binding>, paramOf0: map<Key, nat>): Result<Layout> {
    match ClassifyUpTo(bs, |bs|)
    case Failure(e) => Failure(e)
    case Success(c) =>
      ClassifyMeaning(bs, |bs|);
      var roots := RootPass(bs, c.slots, |bs|, paramOf0);
      var st := TablePass(bs, c.slots, c.ranges, |bs|, roots);
      Success(Layout(st.params, c.samplers, c.ranges, st.paramOf))
  }

  // ---------------------------------------------------------------------
  // What the numbering gives each binding
  // ---------------------------------------------------------------------

  /** Root descriptors take parameter indices 0, 1, ... in input order, and no table is among them. */
  lemma {:induction false} RootPassOrder(bs: seq<Binding>, slots: seq<Slot>, n: nat, paramOf0: map<Key, nat>)
    requires SlotsFit(bs, slots) && n <= |bs|
    ensures forall k | 0 <= k < |RootPass(bs, slots, n, paramOf0).params| :: !RootPass(bs, slots, n, paramOf0).params[k].Table?
    ensures forall i | 0 <= i < n && slots[i] == RootDescriptor ::
              CountSlots(slots, i, RootDescriptor) < CountSlots(slots, n, RootDescriptor) &&
              RootPass(bs, slots, n, paramOf0).params[CountSlots(slots, i, RootDescriptor)] == RootParamOf(bs[i])
  {
    if n > 0 {
      RootPassOrder(bs, slots, n - 1, paramOf0);
      forall i | 0 <= i < n && slots[i] == RootDescriptor
        ensures CountSlots(slots, i, RootDescriptor) < CountSlots(slots, n, RootDescriptor)
      {
        CountSlotsGrows(slots, i, n, RootDescriptor);
      }
    }
  }

  /** Tables follow the parameters already there, one per range, in range order. */
  lemma {:induction false} TablePassOrder(bs: seq<Binding>, slots: seq<Slot>, ranges: seq<Range>, n: nat, st0: Numbering)
    requires SlotsFit(bs, slots) && n <= |bs|
    requires CountSlots(slots, |slots|, NewTable) <= |ranges| && st0.tableIndex == 0
    ensures TablePass(bs, slots, ranges, n, st0).params[..|st0.params|] == st0.params
    ensures forall t | 0 <= t < CountSlots(slots, n, NewTable) && t < |ranges| ::
              TablePass(bs, slots, ranges, n, st0).params[|st0.params| + t] == Table(ranges[t])
  {
    if n > 0 {
      TablePassOrder(bs, slots, ranges, n - 1, st0);
      var prev := TablePass(bs, slots, ranges, n - 1, st0).params;
      var now := TablePass(bs, slots, ranges, n, st0).params;
      assert now[..|prev|] == prev;
      assert now[..|st0.params|] == prev[..|st0.params|];
    }
  }

  /** The key of every entry added to the binding map belongs to a binding that is not a sampler. */
  ghost predicate KeysFromBindings(bs: seq<Binding>, slots: seq<Slot>, m: map<Key, nat>, paramOf0: map<Key, nat>)
    requires |slots| == |bs|
  {
    forall k | k in m :: k in paramOf0 || exists i | 0 <= i < |bs| :: slots[i] != StaticSampler && KeyOf(bs[i]) == k
  }

  /** Every binding that is not a sampler has its key in the map. */
  ghost predicate NonSamplersKeyed(bs: seq<Binding>, slots: seq<Slot>, n: nat, m: map<Key, nat>)
    requires |slots| == |bs| && n <= |bs|
  {
    forall i | 0 <= i < n && slots[i] != StaticSampler :: KeyOf(bs[i]) in m
  }

  lemma {:induction false} RootPassKeys(bs: seq<Binding>, slots: seq<Slot>, n: nat, paramOf0: map<Key, nat>)
    requires SlotsFit(bs, slots) && n <= |bs|
    ensures KeysFromBindings(bs, slots, RootPass(bs, slots, n, paramOf0).paramOf, paramOf0)
    ensures forall i | 0 <= i < n && slots[i] == RootDescriptor :: KeyOf(bs[i]) in RootPass(bs, slots, n, paramOf0).paramOf
    ensures forall k | k in paramOf0 :: k in RootPass(bs, slots, n, paramOf0).paramOf
  {
    if n > 0 {
      RootPassKeys(bs, slots, n - 1, paramOf0);
    }
  }

  lemma {:induction false} TablePassKeys(bs: seq<Binding>, slots: seq<Slot>, ranges: seq<Range>, n: nat, st0: Numbering,
                                         paramOf0: map<Key, nat>)
    requires SlotsFit(bs, slots) && n <= |bs|
    requires CountSlots(slots, |slots|, NewTable) <= |ranges| && st0.tableIndex == 0
    requires KeysFromBindings(bs, slots, st0.paramOf, paramOf0)
    ensures KeysFromBindings(bs, slots, TablePass(bs, slots, ranges, n, st0).paramOf, paramOf0)
    ensures forall i | 0 <= i < n && (slots[i] == NewTable || slots[i] == MergedTable) ::
              KeyOf(bs[i]) in TablePass(bs, slots, ranges, n, st0).paramOf
    ensures forall k | k in st0.paramOf :: k in TablePass(bs, slots, ranges, n, st0).paramOf
  {
    if n > 0 {
      TablePassKeys(bs, slots, ranges, n - 1, st0, paramOf0);
    }
  }

  /** The result of a successful first pass, with what it holds. */
  function ClassifiedOf(bs: seq<Binding>): (c: Classified)
    requires ClassifyUpTo(bs, |bs|).Success?
    ensures SlotsFit(bs, c.slots) && |c.ranges| == CountSlots(c.slots, |c.slots|, NewTable)
  {
    ClassifyMeaning(bs, |bs|);
    ClassifyUpTo(bs, |bs|).value
  }

  /**
   * A successful layout: the root descriptors come first, in input order;
   * one table per range follows, in range order; the samplers are the
   * sampler bindings in order; and the binding map gains exactly the keys of
   * the bindings that are not samplers.
   */
  lemma LayoutMeaning(bs: seq<Binding>, paramOf0: map<Key, nat>)
    requires RootSignatureOf(bs, paramOf0).Success?
    ensures var l := RootSignatureOf(bs, paramOf0).value;
            var slots := ClassifiedOf(bs).slots;
            var k := CountSlots(slots, |bs|, RootDescriptor);
            && |l.params| == k + |l.ranges|
            && (forall i | 0 <= i < |bs| && slots[i] == RootDescriptor ::
                  CountSlots(slots, i, RootDescriptor) < k &&
                  l.params[CountSlots(slots, i, RootDescriptor)] == RootParamOf(bs[i]))
            && (forall t | 0 <= t < |l.ranges| :: l.params[k + t] == Table(l.ranges[t]))
            && l.samplers == SamplersUpTo(bs, |bs|)
            && KeysFromBindings(bs, slots, l.paramOf, paramOf0)
            && NonSamplersKeyed(bs, slots, |bs|, l.paramOf)
            && (forall key | key in paramOf0 :: key in l.paramOf)
  {
    ClassifyMeaning(bs, |bs|);
    var c := ClassifyUpTo(bs, |bs|).value;
    var roots := RootPass(bs, c.slots, |bs|, paramOf0);
    var st := TablePass(bs, c.slots, c.ranges, |bs|, roots);
    RootPassOrder(bs, c.slots, |bs|, paramOf0);
    TablePassOrder(bs, c.slots, c.ranges, |bs|, roots);
    RootPassKeys(bs, c.slots, |bs|, paramOf0);
    TablePassKeys(bs, c.slots, c.ranges, |bs|, roots, paramOf0);
    var k := CountSlots(c.slots, |bs|, RootDescriptor);
    forall i | 0 <= i < |bs| && c.slots[i] == RootDescriptor
      ensures st.params[CountSlots(c.slots, i, RootDescriptor)] == RootParamOf(bs[i])
    {
      assert st.params[..|roots.params|][CountSlots(c.slots, i, RootDescriptor)] == roots.params[CountSlots(c.slots, i, RootDescriptor)];
    }
  }

  /**
   * The index each binding is written with when its pass reaches it: a root
   * descriptor the number of root descriptors before it; a new table the
   * number of root descriptors plus the number of tables before it; a merged
   * texture the index before the next free one.
   */
  lemma WrittenIndex(bs: seq<Binding>, slots: seq<Slot>, ranges: seq<Range>, i: nat, paramOf0: map<Key, nat>)
    requires SlotsFit(bs, slots) && i < |bs|
    requires CountSlots(slots, |slots|, NewTable) <= |ranges|
    ensures var roots := RootPass(bs, slots, |bs|, paramOf0);
            var k := CountSlots(slots, |bs|, RootDescriptor);
            var written := TablePass(bs, slots, ranges, i + 1, roots).paramOf;
            && (slots[i] == RootDescriptor ==>
                  RootPass(bs, slots, i + 1, paramOf0).paramOf[KeyOf(bs[i])] == CountSlots(slots, i, RootDescriptor))
            && (slots[i] == NewTable ==> written[KeyOf(bs[i])] == k + CountSlots(slots, i, NewTable))
            && (slots[i] == MergedTable ==> written[KeyOf(bs[i])] == PrevIndex(k + CountSlots(slots, i, NewTable)))
  {
  }

  // ---------------------------------------------------------------------
  // Where a merged texture is routed
  // ---------------------------------------------------------------------

  /**
   * The index of the table a texture's range sits in, counted from `first`,
   * the index of the first table; the decrement the source uses when no
   * range matches.
   */
  function TableIndexOf(ranges: seq<Range>, register: nat, space: nat, first: nat, next: nat): nat {
    match FindRange(ranges, register, space)
    case Some(j) => first + j
    case None => PrevIndex(next)
  }

  /** The third pass with a merged texture routed to the table of the range it joined. */
  function CorrectedTablePass(bs: seq<Binding>, slots: seq<Slot>, ranges: seq<Range>, n: nat, st0: Numbering): (st: Numbering)
    requires SlotsFit(bs, slots) && n <= |bs|
    requires CountSlots(slots, |slots|, NewTable) <= |ranges| && st0.tableIndex == 0
    ensures st.tableIndex == CountSlots(slots, n, NewTable)
    ensures st.next == st0.next + CountSlots(slots, n, NewTable)
    ensures st.params == TablePass(bs, slots, ranges, n, st0).params
  {
    if n == 0 then st0
    else
      var st := CorrectedTablePass(bs, slots, ranges, n - 1, st0);
      var b := bs[n - 1];
      match slots[n - 1]
      case NewTable =>
        CountSlotsGrows(slots, n - 1, |slots|, NewTable);
        Numbering(st.params + [Table(ranges[st.tableIndex])], st.paramOf[KeyOf(b) := st.next],
                  st.next + 1, st.tableIndex + 1)
      case MergedTable =>
        Numbering(st.params, st.paramOf[KeyOf(b) := TableIndexOf(ranges, b.register, b.space, st0.next, st.next)],
                  st.next, st.tableIndex)
      case RootDescriptor => st
      case StaticSampler => st
  }

  /** The layout with merged textures routed to their own tables. */
  function CorrectedRootSignatureOf(bs: seq<Binding>, paramOf0: map<Key, nat>): Result<Layout> {
    if ClassifyUpTo(bs, |bs|).Failure? then Failure(ClassifyUpTo(bs, |bs|).error)
    else
      var c := ClassifiedOf(bs);
      var roots := RootPass(bs, c.slots, |bs|, paramOf0);
      var st := CorrectedTablePass(bs, c.slots, c.ranges, |bs|, roots);
      Success(Layout(st.params, c.samplers, c.ranges, st.paramOf))
  }

  /** The index the corrected third pass writes for binding `i` when it reaches it. */
  function CorrectedIndexAt(bs: seq<Binding>, paramOf0: map<Key, nat>, i: nat): nat
    requires i < |bs| && ClassifyUpTo(bs, |bs|).Success? && bs[i].kind.Texture?
  {
    var c := ClassifiedOf(bs);
    var roots := RootPass(bs, c.slots, |bs|, paramOf0);
    var m := CorrectedTablePass(bs, c.slots, c.ranges, i + 1, roots).paramOf;
    if KeyOf(bs[i]) in m then m[KeyOf(bs[i])] else 0
  }

  /** A table starting at `register` in `space` sits at parameter index `v`. */
  ghost predicate ReachesTableOf(params: seq<RootParam>, v: nat, register: nat, space: nat) {
    v < |params| && params[v].Table? && RangeMatches(params[v].range, register, space)
  }

  /**
   * With the correction, every texture binding, new or merged, is written
   * with the index of a table whose range starts at its own register and
   * space.
   */
  lemma CorrectedTexturesReachTheirTables(bs: seq<Binding>, paramOf0: map<Key, nat>, i: nat)
    requires i < |bs| && ClassifyUpTo(bs, |bs|).Success?
    requires bs[i].kind.Texture?
    ensures ReachesTableOf(CorrectedRootSignatureOf(bs, paramOf0).value.params,
                           CorrectedIndexAt(bs, paramOf0, i), bs[i].register, bs[i].space)
  {
    var c := ClassifiedOf(bs);
    TextureFiled(bs, i);
    CorrectedIndexReaches(bs, c.slots, c.ranges, RootPass(bs, c.slots, |bs|, paramOf0), i);
  }

  /** After the first pass a texture's range is the one its table opened, or one with its register and space. */
  lemma TextureFiled(bs: seq<Binding>, i: nat)
    requires i < |bs| && ClassifyUpTo(bs, |bs|).Success? && bs[i].kind.Texture?
    ensures var c := ClassifiedOf(bs);
            && (c.slots[i] == NewTable || c.slots[i] == MergedTable)
            && (c.slots[i] == NewTable ==>
                  CountSlots(c.slots, i, NewTable) < |c.ranges| &&
                  c.ranges[CountSlots(c.slots, i, NewTable)] == Range(bs[i].register, 1, bs[i].space))
            && (c.slots[i] == MergedTable ==> HasRange(c.ranges, bs[i].register, bs[i].space))
  {
    ClassifyMeaning(bs, |bs|);
    var c := ClassifiedOf(bs);
    var b := bs[i];
    HasTextureStep(bs, i, b.register, b.space);
    HasTextureUpTo(bs, i + 1, |bs|, b.register, b.space);
  }

  /** The corrected third pass sends a texture to a table of its own register and space. */
  lemma CorrectedIndexReaches(bs: seq<Binding>, slots: seq<Slot>, ranges: seq<Range>, st0: Numbering, i: nat)
    requires SlotsFit(bs, slots) && i < |bs| && bs[i].kind.Texture?
    requires |ranges| == CountSlots(slots, |slots|, NewTable) && st0.tableIndex == 0 && st0.next == |st0.params|
    requires slots[i] == NewTable ==>
               CountSlots(slots, i, NewTable) < |ranges| &&
               ranges[CountSlots(slots, i, NewTable)] == Range(bs[i].register, 1, bs[i].space)
    requires slots[i] == MergedTable ==> HasRange(ranges, bs[i].register, bs[i].space)
    ensures var v := CorrectedTablePass(bs, slots, ranges, i + 1, st0).paramOf[KeyOf(bs[i])];
            ReachesTableOf(CorrectedTablePass(bs, slots, ranges, |bs|, st0).params, v, bs[i].register, bs[i].space)
  {
    var b := bs[i];
    var params := CorrectedTablePass(bs, slots, ranges, |bs|, st0).params;
    var k := st0.next;
    TablePassOrder(bs, slots, ranges, |bs|, st0);
    var v := CorrectedTablePass(bs, slots, ranges, i + 1, st0).paramOf[KeyOf(b)];
    if slots[i] == NewTable {
      var t := CountSlots(slots, i, NewTable);
      assert v == k + t;
      CountSlotsGrows(slots, i, |bs|, NewTable);
      assert params[k + t] == Table(ranges[t]);
    } else {
      FindRangeFindsAny(ranges, b.register, b.space);
      var j := FindRange(ranges, b.register, b.space).value;
      assert v == k + j;
      assert params[k + j] == Table(ranges[j]);
    }
  }

  lemma HasTextureUpTo(bs: seq<Binding>, m: nat, n: nat, register: nat, space: nat)
    requires m <= n <= |bs| && HasTexture(bs, m, register, space)
    ensures HasTexture(bs, n, register, space)
  {
    var j :| 0 <= j < m && bs[j].kind.Texture? && bs[j].register == register && bs[j].space == space;
    assert 0 <= j < n;
  }

  /** Two textures at registers 0 and 1, then the first again. */
  const REUSED_TEXTURE: seq<Binding> :=
    [Binding(Texture, 0, 0), Binding(Texture, 1, 0), Binding(Texture, 0, 0)]

  /** The first pass on `REUSED_TEXTURE`: two new tables, then a merge into the first. */
  lemma ReusedTextureClassified()
    ensures ClassifyUpTo(REUSED_TEXTURE, 3) == Success(Classified(REUSED_SLOTS, REUSED_RANGES, []))
  {
    var bs := REUSED_TEXTURE;
    var c0 := Classified([], [], []);
    var c1 := Classified([NewTable], [Range(0, 1, 0)], []);
    var c2 := Classified([NewTable, NewTable], [Range(0, 1, 0), Range(1, 1, 0)], []);
    assert bs[0] == Binding(Texture, 0, 0) && bs[1] == Binding(Texture, 1, 0) && bs[2] == Binding(Texture, 0, 0);
    assert ClassifyUpTo(bs, 0) == Success(c0);
    assert FindRange(c0.ranges, 0, 0) == None;
    var r1 := ClassifyStep(c0, bs[0]);
    assert r1.Success? && r1.value.slots == c1.slots && r1.value.ranges == c1.ranges && r1.value.samplers == [];
    assert ClassifyUpTo(bs, 1) == Success(c1);
    assert FindRange(c1.ranges, 1, 0) == None;
    var r2 := ClassifyStep(c1, bs[1]);
    assert r2.Success? && r2.value.slots == c2.slots && r2.value.ranges == c2.ranges && r2.value.samplers == [];
    assert ClassifyUpTo(bs, 2) == Success(c2);
    assert FindRange(c2.ranges, 0, 0) == Some(0);
    var r3 := ClassifyStep(c2, bs[2]);
    assert r3.Success? && r3.value.slots == [NewTable, NewTable, MergedTable] && r3.value.ranges == c2.ranges;
  }

  const REUSED_SLOTS: seq<Slot> := [NewTable, NewTable, MergedTable]
  const REUSED_RANGES: seq<Range> := [Range(0, 1, 0), Range(1, 1, 0)]

  lemma ReusedTextureRoots()
    ensures SlotsFit(REUSED_TEXTURE, REUSED_SLOTS)
    ensures RootPass(REUSED_TEXTURE, REUSED_SLOTS, 3, map[]) == Numbering([], map[], 0, 0)
  {
    var bs := REUSED_TEXTURE;
    assert RootPass(bs, REUSED_SLOTS, 1, map[]) == Numbering([], map[], 0, 0);
    assert RootPass(bs, REUSED_SLOTS, 2, map[]) == Numbering([], map[], 0, 0);
  }

  /** As written, the third pass ends with register 0 mapped to index 1. */
  lemma ReusedTextureTables()
    ensures SlotsFit(REUSED_TEXTURE, REUSED_SLOTS)
    ensures CountSlots(REUSED_SLOTS, 3, NewTable) == 2
    ensures var t := TablePass(REUSED_TEXTURE, REUSED_SLOTS, REUSED_RANGES, 3, Numbering([], map[], 0, 0));
            t.params == [Table(Range(0, 1, 0)), Table(Range(1, 1, 0))] && Key(0, 0) in t.paramOf && t.paramOf[Key(0, 0)] == 1
  {
    var bs := REUSED_TEXTURE;
    var st0 := Numbering([], map[], 0, 0);
    assert CountSlots(REUSED_SLOTS, 3, NewTable) == 2;
    var t1 := TablePass(bs, REUSED_SLOTS, REUSED_RANGES, 1, st0);
    assert t1.params == [Table(Range(0, 1, 0))] && t1.next == 1 && t1.tableIndex == 1;
    var t2 := TablePass(bs, REUSED_SLOTS, REUSED_RANGES, 2, st0);
    assert t2.params == [Table(Range(0, 1, 0)), Table(Range(1, 1, 0))] && t2.next == 2;
  }

  /** With the correction, register 0 stays on index 0. */
  lemma ReusedTextureCorrected()
    ensures SlotsFit(REUSED_TEXTURE, REUSED_SLOTS)
    ensures CountSlots(REUSED_SLOTS, 3, NewTable) == 2
    ensures var t := CorrectedTablePass(REUSED_TEXTURE, REUSED_SLOTS, REUSED_RANGES, 3, Numbering([], map[], 0, 0));
            Key(0, 0) in t.paramOf && t.paramOf[Key(0, 0)] == 0
  {
    var bs := REUSED_TEXTURE;
    var st0 := Numbering([], map[], 0, 0);
    assert CountSlots(REUSED_SLOTS, 3, NewTable) == 2;
    assert FindRange(REUSED_RANGES, 0, 0) == Some(0);
    assert TableIndexOf(REUSED_RANGES, 0, 0, 0, 2) == 0;
    var u2 := CorrectedTablePass(bs, REUSED_SLOTS, REUSED_RANGES, 2, st0);
    var u3 := CorrectedTablePass(bs, REUSED_SLOTS, REUSED_RANGES, 3, st0);
    assert u3.paramOf == u2.paramOf[Key(0, 0) := TableIndexOf(REUSED_RANGES, 0, 0, 0, u2.next)];
  }

  /**
   * As written, the repeated texture at register 0 is given the index of the
   * most recently opened table, the one for register 1, and that entry is
   * the one the map keeps; the correction keeps register 0 on its own table.
   */
  lemma MergedTextureMisrouted()
    ensures RootSignatureOf(REUSED_TEXTURE, map[]).Success?
    ensures var l := RootSignatureOf(REUSED_TEXTURE, map[]).value;
            Key(0, 0) in l.paramOf && l.paramOf[Key(0, 0)] == 1 && !ReachesTableOf(l.params, l.paramOf[Key(0, 0)], 0, 0)
    ensures CorrectedRootSignatureOf(REUSED_TEXTURE, map[]).Success?
    ensures var l := CorrectedRootSignatureOf(REUSED_TEXTURE, map[]).value;
            Key(0, 0) in l.paramOf && l.paramOf[Key(0, 0)] == 0 && ReachesTableOf(l.params, 0, 0, 0)
  {
    ReusedTextureClassified();
    assert ClassifyUpTo(REUSED_TEXTURE, |REUSED_TEXTURE|).value.slots == REUSED_SLOTS;
    assert ClassifyUpTo(REUSED_TEXTURE, |REUSED_TEXTURE|).value.ranges == REUSED_RANGES;
    ReusedTextureRoots();
    ReusedTextureTables();
    ReusedTextureCorrected();
  }

  // ---------------------------------------------------------------------
  // The passes as loops
  // ---------------------------------------------------------------------

  /** `findRange`: scans the ranges in order for one starting at `register` in `space`. */
  method FindRangeIn(ranges: seq<Range>, register: nat, space: nat) returns (r: Option<nat>)
    ensures r == FindRange(ranges, register, space)
  {
    for k := 0 to |ranges|
      invariant FindRange(ranges, register, space) == FindRangeFrom(ranges, register, space, k)
    {
      if ranges[k].base == register && ranges[k].space == space {
        return Some(k);
      }
    }
    return None;
  }

  /** Once the first pass fails it stays failed with the same message. */
  lemma {:induction false} FailureSticks(bs: seq<Binding>, i: nat, n: nat, e: string)
    requires i <= n <= |bs| && ClassifyUpTo(bs, i) == Failure(e)
    ensures ClassifyUpTo(bs, n) == Failure(e)
    decreases n
  {
    if n > i {
      FailureSticks(bs, i, n - 1, e);
    }
  }

  /** The first loop of `CreateD3D12RootSignature`: files every binding, or fails on an unsupported kind. */
  method ClassifyBindings(bs: seq<Binding>) returns (r: Result<Classified>)
    ensures r == ClassifyUpTo(bs, |bs|)
  {
    var slots: seq<Slot> := [];
    var ranges: seq<Range> := [];
    var samplers: seq<Binding> := [];
    for i := 0 to |bs|
      invariant ClassifyUpTo(bs, i) == Success(Classified(slots, ranges, samplers))
    {
      var b := bs[i];
      match b.kind {
        case ConstantBuffer =>
          slots := slots + [RootDescriptor];
        case Texture =>
          var existing := FindRangeIn(ranges, b.register, b.space);
          if existing.Some? {
            var j := existing.value;
            var maxBinding := Max(ranges[j].base + ranges[j].count - 1, b.register);
            ranges := ranges[j := Range(ranges[j].base, maxBinding - ranges[j].base + 1, ranges[j].space)];
            slots := slots + [MergedTable];
          } else {
            ranges := ranges + [Range(b.register, 1, b.space)];
            slots := slots + [NewTable];
          }
        case StructuredBuffer =>
          slots := slots + [RootDescriptor];
        case Sampler =>
          slots := slots + [StaticSampler];
          samplers := samplers + [b];
        case UAV =>
          slots := slots + [RootDescriptor];
        case Unsupported(_) =>
          FailureSticks(bs, i + 1, |bs|, UNSUPPORTED_RESOURCE);
          return Failure(UNSUPPORTED_RESOURCE);
      }
    }
    return Success(Classified(slots, ranges, samplers));
  }

  /** The renderer's map from binding keys to root-parameter indices, which root-signature creation fills. */
  class BindingTable {
    var bindingToRootParam: map<Key, nat>

    constructor()
      ensures bindingToRootParam == map[]
    {
      bindingToRootParam := map[];
    }

    /** The second loop: each root descriptor is appended and mapped to the next index. */
    method NumberRoots(bs: seq<Binding>, slots: seq<Slot>) returns (params: seq<RootParam>, next: nat)
      requires SlotsFit(bs, slots)
      modifies this
      ensures Numbering(params, bindingToRootParam, next, 0) == RootPass(bs, slots, |bs|, old(bindingToRootParam))
    {
      params := [];
      next := 0;
      for i := 0 to |bs|
        invariant Numbering(params, bindingToRootParam, next, 0) == RootPass(bs, slots, i, old(bindingToRootParam))
      {
        if slots[i] == RootDescriptor {
          var b := bs[i];
          params := params + [RootParamOf(b)];
          bindingToRootParam := bindingToRootParam[KeyOf(b) := next];
          next := next + 1;
        }
      }
    }

    /**
     * The third loop: each new table takes the next range and the next
     * index; a merged texture is mapped to the index before the next one.
     */
    method NumberTables(bs: seq<Binding>, slots: seq<Slot>, ranges: seq<Range>, params0: seq<RootParam>, next0: nat)
      returns (params: seq<RootParam>, next: nat)
      requires SlotsFit(bs, slots) && CountSlots(slots, |slots|, NewTable) <= |ranges|
      modifies this
      ensures var st := TablePass(bs, slots, ranges, |bs|, Numbering(params0, old(bindingToRootParam), next0, 0));
              params == st.params && bindingToRootParam == st.paramOf && next == st.next
    {
      ghost var st0 := Numbering(params0, bindingToRootParam, next0, 0);
      params := params0;
      next := next0;
      var tableIndex := 0;
      for i := 0 to |bs|
        invariant Numbering(params, bindingToRootParam, next, tableIndex) == TablePass(bs, slots, ranges, i, st0)
      {
        var key := KeyOf(bs[i]);
        if slots[i] == NewTable {
          CountSlotsGrows(slots, i, |slots|, NewTable);
          params := params + [Table(ranges[tableIndex])];
          tableIndex := tableIndex + 1;
          bindingToRootParam := bindingToRootParam[key := next];
          next := next + 1;
        } else if slots[i] == MergedTable {
          bindingToRootParam := bindingToRootParam[key := PrevIndex(next)];
        }
      }
    }

    /**
     * `CreateD3D12RootSignature`: on an unsupported binding kind it fails
     * before touching the map; otherwise it returns the layout and leaves
     * the map as the layout's binding map.
     */
    method CreateRootSignature(bs: seq<Binding>) returns (r: Result<Layout>)
      modifies this
      ensures r == RootSignatureOf(bs, old(bindingToRootParam))
      ensures r.Success? ==> bindingToRootParam == r.value.paramOf
      ensures r.Failure? ==> bindingToRootParam == old(bindingToRootParam)
    {
      var classified := ClassifyBindings(bs);
      if classified.Failure? {
        return Failure(classified.error);
      }
      var c := classified.value;
      ClassifyMeaning(bs, |bs|);
      var params, next := NumberRoots(bs, c.slots);
      params, next := NumberTables(bs, c.slots, c.ranges, params, next);
      r := Success(Layout(params, c.samplers, c.ranges, bindingToRootParam));
    }

    /** The third loop with a merged texture mapped to the table of the range it joined. */
    method CorrectedNumberTables(bs: seq<Binding>, slots: seq<Slot>, ranges: seq<Range>, params0: seq<RootParam>,
                                 next0: nat) returns (params: seq<RootParam>, next: nat)
      requires SlotsFit(bs, slots) && CountSlots(slots, |slots|, NewTable) <= |ranges|
      modifies this
      ensures var st := CorrectedTablePass(bs, slots, ranges, |bs|, Numbering(params0, old(bindingToRootParam), next0, 0));
              params == st.params && bindingToRootParam == st.paramOf && next == st.next
    {
      ghost var st0 := Numbering(params0, bindingToRootParam, next0, 0);
      params := params0;
      next := next0;
      var tableIndex := 0;
      for i := 0 to |bs|
        invariant Numbering(params, bindingToRootParam, next, tableIndex) == CorrectedTablePass(bs, slots, ranges, i, st0)
      {
        var key := KeyOf(bs[i]);
        if slots[i] == NewTable {
          CountSlotsGrows(slots, i, |slots|, NewTable);
          params := params + [Table(ranges[tableIndex])];
          tableIndex := tableIndex + 1;
          bindingToRootParam := bindingToRootParam[key := next];
          next := next + 1;
        } else if slots[i] == MergedTable {
          var found := FindRangeIn(ranges, bs[i].register, bs[i].space);
          var index := if found.Some? then next0 + found.value else PrevIndex(next);
          bindingToRootParam := bindingToRootParam[key := index];
        }
      }
    }

    /** `CreateD3D12RootSignature` with the corrected third loop. */
    method CreateCorrectedRootSignature(bs: seq<Binding>) returns (r: Result<Layout>)
      modifies this
      ensures r == CorrectedRootSignatureOf(bs, old(bindingToRootParam))
      ensures r.Success? ==> bindingToRootParam == r.value.paramOf
      ensures r.Failure? ==> bindingToRootParam == old(bindingToRootParam)
    {
      var classified := ClassifyBindings(bs);
      if classified.Failure? {
        return Failure(classified.error);
      }
      var c := classified.value;
      ClassifyMeaning(bs, |bs|);
      var params, next := NumberRoots(bs, c.slots);
      params, next := CorrectedNumberTables(bs, c.slots, c.ranges, params, next);
      r := Success(Layout(params, c.samplers, c.ranges, bindingToRootParam));
    }
  }
}
