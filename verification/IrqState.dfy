/** The RISC-V interrupt state in its two builds: virtualised by the stall bit of the in-band stage
    (CONFIG_IRQ_PIPELINE), or held in sstatus.SIE itself, and the packing of both into one word.
    SIE is the interrupt enable of section 4.1.1 of the RISC-V Privileged Architecture 1.12. */
module IrqState {

  const SR_IE: bv64 := 2

  function B2I(b: bool): bv32 {
    if b then 1 else 0
  }

  /** native_irqs_disabled_flags, also arch_irqs_disabled_flags. */
  predicate DisabledFlags(flags: bv64) {
    flags & SR_IE == 0
  }

  /** arch_irqs_virtual_to_native_flags; the parameter is a C int. */
  function VirtualToNative(stalled: bv32): bv64 {
    if stalled == 0 then SR_IE else 0
  }

  /** arch_irqs_native_to_virtual_flags. */
  function NativeToVirtual(flags: bv64): bv64 {
    if flags & SR_IE == 0 then 1 else 0
  }

  /** irqs_merge_flags. */
  function Merge(flags: bv64, stalled: bool): bv64 {
    VirtualToNative(B2I(stalled)) | NativeToVirtual(flags)
  }

  /** irqs_split_flags: the hardware flags, and the stall state. The word is cut down to a C int on
      its way through arch_irqs_virtual_to_native_flags. */
  function Split(combo: bv64): (bv64, bool) {
    var stalled := DisabledFlags(combo);
    var virt := combo & !VirtualToNative(B2I(stalled));
    (VirtualToNative((virt & 0xffff_ffff) as bv32), stalled)
  }

  /** Splitting a merged word gives back the stall state and exactly the enable bit. */
  lemma SplitMerge(flags: bv64, stalled: bool)
    ensures Split(Merge(flags, stalled)) == (flags & SR_IE, stalled)
  {
    assert flags & SR_IE == 0 || flags & SR_IE == SR_IE;
    if stalled {
      assert !VirtualToNative(1) == 0xffff_ffff_ffff_ffff;
    } else {
      assert Merge(flags, stalled) & SR_IE != 0;
    }
  }

  /** Merging what was split gives back the word exactly when it holds nothing but the two bits. */
  lemma MergeSplit(combo: bv64)
    ensures (var (flags, stalled) := Split(combo); Merge(flags, stalled)) == combo <==> combo & !3 == 0
  {
    assert combo & !3 == 0 ==> combo == 0 || combo == 1 || combo == 2 || combo == 3;
  }

  /** The merged word reads as the stall state to whoever tests it for interrupts being disabled, its
      lowest bit tells whether the hardware had them off, and it holds nothing else. */
  lemma MergedWord(flags: bv64, stalled: bool)
    ensures DisabledFlags(Merge(flags, stalled)) <==> stalled
    ensures Merge(flags, stalled) & 1 != 0 <==> DisabledFlags(flags)
    ensures Merge(flags, stalled) & !3 == 0
  {
    assert Merge(flags, stalled) in {0, 1, 2, 3};
  }

  /** The conversions between stall state and flags agree with the test on flags. */
  lemma ConversionsAgree(stalled: bv32, flags: bv64)
    ensures DisabledFlags(VirtualToNative(stalled)) <==> stalled != 0
    ensures NativeToVirtual(flags) != 0 <==> DisabledFlags(flags)
  {
  }

  /** csr_set, csr_clear of the enable bit. */
  function WithIE(w: bv64): bv64 {
    w | SR_IE
  }

  function WithoutIE(w: bv64): bv64 {
    w & !SR_IE
  }

  /** native_irq_restore: the bit is set when the flags have it, and never cleared. */
  function RestoredIE(w: bv64, flags: bv64): bv64 {
    w | (flags & SR_IE)
  }

  // ------------------------------------------------------------- one hart

  class Hart {
    var sstatus: bv64
    var stalled: bool

    /** native_save_flags, hard_local_save_flags. */
    method NativeSaveFlags() returns (flags: bv64)
      ensures flags == sstatus
    {
      flags := sstatus;
    }

    /** native_irq_enable: csr_set. */
    method NativeIrqEnable()
      modifies `sstatus
      ensures sstatus == WithIE(old(sstatus))
    {
      sstatus := WithIE(sstatus);
    }

    /** native_irq_disable: csr_clear. */
    method NativeIrqDisable()
      modifies `sstatus
      ensures sstatus == WithoutIE(old(sstatus))
    {
      sstatus := WithoutIE(sstatus);
    }

    /** native_irq_save: csr_read_clear. */
    method NativeIrqSave() returns (flags: bv64)
      modifies `sstatus
      ensures flags == old(sstatus) && sstatus == WithoutIE(old(sstatus))
    {
      flags := sstatus;
      sstatus := WithoutIE(sstatus);
    }

    /** native_irq_restore: only ever sets the bit. */
    method NativeIrqRestore(flags: bv64)
      modifies `sstatus
      ensures sstatus == RestoredIE(old(sstatus), flags)
    {
      sstatus := RestoredIE(sstatus, flags);
    }

    /** Pipelined arch_local_irq_save, over inband_irq_save. Like every method below it leaves
        sstatus alone. */
    method ArchLocalIrqSave() returns (flags: bv64)
      modifies `stalled
      ensures flags == VirtualToNative(B2I(old(stalled))) && stalled
    {
      var was := stalled;
      stalled := true;
      flags := VirtualToNative(B2I(was));
    }

    method ArchLocalIrqEnable()
      modifies `stalled
      ensures !stalled
    {
      stalled := false;
    }

    method ArchLocalIrqDisable()
      modifies `stalled
      ensures stalled
    {
      stalled := true;
    }

    method ArchLocalSaveFlags() returns (flags: bv64)
      ensures flags == VirtualToNative(B2I(stalled))
    {
      flags := VirtualToNative(B2I(stalled));
    }

    /** Pipelined arch_local_irq_restore, over inband_irq_restore. */
    method ArchLocalIrqRestore(flags: bv64)
      modifies `stalled
      ensures stalled == DisabledFlags(flags)
    {
      stalled := DisabledFlags(flags);
    }

    /** One in-band call in the pipelined build, with the saved words at hand. */
    method CallPiped(op: Op, slots: map<nat, bv64>) returns (slots': map<nat, bv64>)
      requires Has(op, slots)
      modifies `stalled
      ensures Piped(stalled, sstatus, slots') == PipedStep(op, Piped(old(stalled), old(sstatus), slots))
    {
      slots' := slots;
      match op {
        case Enable => ArchLocalIrqEnable();
        case Disable => ArchLocalIrqDisable();
        case Save(k) => var w := ArchLocalIrqSave(); slots' := slots[k := w];
        case SaveFlags(k) => var w := ArchLocalSaveFlags(); slots' := slots[k := w];
        case Restore(k) => ArchLocalIrqRestore(slots[k]);
      }
    }

    /** The same call in the build without a pipeline. */
    method CallNative(op: Op, slots: map<nat, bv64>) returns (slots': map<nat, bv64>)
      requires Has(op, slots)
      modifies `sstatus
      ensures Native(sstatus, slots') == NativeStep(op, Native(old(sstatus), slots))
    {
      slots' := slots;
      match op {
        case Enable => NativeIrqEnable();
        case Disable => NativeIrqDisable();
        case Save(k) => var w := NativeIrqSave(); slots' := slots[k := w];
        case SaveFlags(k) => var w := NativeSaveFlags(); slots' := slots[k := w];
        case Restore(k) => NativeIrqRestore(slots[k]);
      }
    }

    /** stage_save_flags: both states in one word, from which both can be read back. */
    method StageSaveFlags() returns (irqstate: bv64)
      ensures irqstate == Merge(sstatus, stalled)
      ensures Split(irqstate) == (sstatus & SR_IE, stalled)
    {
      var flags := NativeSaveFlags();
      var virt := ArchLocalSaveFlags();
      irqstate := Merge(flags, DisabledFlags(virt));
      SplitMerge(flags, DisabledFlags(virt));
    }
  }

  // ------------------------------------------------------- the two builds side by side

  /** The arch_local_* calls of in-band code; saved words live in numbered slots. */
  datatype Op = Enable | Disable | Save(slot: nat) | SaveFlags(slot: nat) | Restore(slot: nat)

  /** CONFIG_IRQ_PIPELINE off. */
  datatype Native = Native(sstatus: bv64, slots: map<nat, bv64>)

  /** CONFIG_IRQ_PIPELINE on. */
  datatype Piped = Piped(stalled: bool, sstatus: bv64, slots: map<nat, bv64>)

  ghost predicate Has(op: Op, slots: map<nat, bv64>) {
    op.Restore? ==> op.slot in slots
  }

  ghost function NativeStep(op: Op, h: Native): Native
    requires Has(op, h.slots)
  {
    match op
    case Enable => h.(sstatus := WithIE(h.sstatus))
    case Disable => h.(sstatus := WithoutIE(h.sstatus))
    case Save(k) => Native(WithoutIE(h.sstatus), h.slots[k := h.sstatus])
    case SaveFlags(k) => h.(slots := h.slots[k := h.sstatus])
    case Restore(k) => h.(sstatus := RestoredIE(h.sstatus, h.slots[k]))
  }

  ghost function PipedStep(op: Op, p: Piped): Piped
    requires Has(op, p.slots)
  {
    match op
    case Enable => p.(stalled := false)
    case Disable => p.(stalled := true)
    case Save(k) => p.(stalled := true, slots := p.slots[k := VirtualToNative(B2I(p.stalled))])
    case SaveFlags(k) => p.(slots := p.slots[k := VirtualToNative(B2I(p.stalled))])
    case Restore(k) => p.(stalled := DisabledFlags(p.slots[k]))
  }

  /** arch_irqs_disabled in either build. */
  ghost predicate NativeDisabled(h: Native) {
    DisabledFlags(h.sstatus)
  }

  ghost predicate PipedDisabled(p: Piped) {
    DisabledFlags(VirtualToNative(B2I(p.stalled)))
  }

  /** Both builds see interrupts alike, now and in every saved word. */
  ghost predicate Alike(h: Native, p: Piped) {
    && NativeDisabled(h) == p.stalled
    && h.slots.Keys == p.slots.Keys
    && forall k :: k in h.slots ==> DisabledFlags(h.slots[k]) == DisabledFlags(p.slots[k])
  }

  /** A restore may not be asked to turn interrupts off: they are off already, or the word says on. */
  ghost predicate Fair(op: Op, p: Piped)
    requires Has(op, p.slots)
  {
    op.Restore? ==> p.stalled || !DisabledFlags(p.slots[op.slot])
  }

  lemma BitOff(w: bv64)
    ensures DisabledFlags(WithoutIE(w)) && !DisabledFlags(WithIE(w))
  {
  }

  lemma BitOr(w: bv64, v: bv64)
    ensures DisabledFlags(RestoredIE(w, v)) <==> DisabledFlags(w) && DisabledFlags(v)
  {
  }

  lemma Virtual(b: bool)
    ensures DisabledFlags(VirtualToNative(B2I(b))) == b
  {
  }

  /** What a call makes of the enable bit of the native build. */
  lemma NativeAnswer(op: Op, h: Native)
    requires Has(op, h.slots)
    ensures NativeDisabled(NativeStep(op, h)) == match op
            case Enable => false
            case Disable => true
            case Save(_) => true
            case SaveFlags(_) => NativeDisabled(h)
            case Restore(k) => NativeDisabled(h) && DisabledFlags(h.slots[k])
  {
    match op
    case Enable => BitOff(h.sstatus);
    case Disable => BitOff(h.sstatus);
    case Save(_) => BitOff(h.sstatus);
    case SaveFlags(_) =>
    case Restore(k) => BitOr(h.sstatus, h.slots[k]);
  }

  /** What a call makes of the stall bit. */
  lemma PipedAnswer(op: Op, p: Piped)
    requires Has(op, p.slots)
    ensures PipedDisabled(PipedStep(op, p)) == match op
            case Enable => false
            case Disable => true
            case Save(_) => true
            case SaveFlags(_) => PipedDisabled(p)
            case Restore(k) => DisabledFlags(p.slots[k])
  {
    ConversionsAgree(B2I(PipedStep(op, p).stalled), 0);
    ConversionsAgree(B2I(p.stalled), 0);
  }

  /** A saved word tells in either build what was so before the call; all other words are kept. */
  lemma SavedWordTells(op: Op, h: Native, p: Piped)
    requires Has(op, h.slots) && Has(op, p.slots)
    ensures op.Save? || op.SaveFlags? ==>
              && op.slot in NativeStep(op, h).slots && op.slot in PipedStep(op, p).slots
              && DisabledFlags(NativeStep(op, h).slots[op.slot]) == NativeDisabled(h)
              && DisabledFlags(PipedStep(op, p).slots[op.slot]) == PipedDisabled(p)
    ensures forall k :: k in h.slots && !((op.Save? || op.SaveFlags?) && op.slot == k) ==>
              k in NativeStep(op, h).slots && NativeStep(op, h).slots[k] == h.slots[k]
    ensures forall k :: k in p.slots && !((op.Save? || op.SaveFlags?) && op.slot == k) ==>
              k in PipedStep(op, p).slots && PipedStep(op, p).slots[k] == p.slots[k]
  {
  }

  ghost predicate NativeCallable(ops: seq<Op>, h: Native)
    decreases ops
  {
    ops == [] || (Has(ops[0], h.slots) && NativeCallable(ops[1..], NativeStep(ops[0], h)))
  }

  ghost function NativeRun(ops: seq<Op>, h: Native): Native
    requires NativeCallable(ops, h)
    decreases ops
  {
    if ops == [] then h else NativeRun(ops[1..], NativeStep(ops[0], h))
  }

  /** SPIE, SPP and every other bit of sstatus but SIE. */
  function Others(w: bv64): bv64 {
    w & 0xffff_ffff_ffff_fffd
  }

  lemma SetKeepsOthers(w: bv64)
    ensures Others(WithIE(w)) == Others(w)
  {
  }

  lemma ClearKeepsOthers(w: bv64)
    ensures Others(WithoutIE(w)) == Others(w)
  {
  }

  lemma RestoreKeepsOthers(w: bv64, v: bv64)
    ensures Others(RestoredIE(w, v)) == Others(w)
  {
  }

  lemma {:induction false} StepKeepsOthers(op: Op, h: Native)
    requires Has(op, h.slots)
    ensures Others(NativeStep(op, h).sstatus) == Others(h.sstatus)
  {
    match op
    case Enable => SetKeepsOthers(h.sstatus);
    case Disable => ClearKeepsOthers(h.sstatus);
    case Save(_) => ClearKeepsOthers(h.sstatus);
    case SaveFlags(_) =>
    case Restore(k) => RestoreKeepsOthers(h.sstatus, h.slots[k]);
  }

  /** No run of calls in the native build changes any bit of sstatus but the enable bit. */
  lemma {:induction false} OtherBitsKept(ops: seq<Op>, h: Native)
    requires NativeCallable(ops, h)
    ensures Others(NativeRun(ops, h).sstatus) == Others(h.sstatus)
    decreases ops
  {
    if ops != [] {
      StepKeepsOthers(ops[0], h);
      OtherBitsKept(ops[1..], NativeStep(ops[0], h));
    }
  }

  lemma StepSlots(op: Op, h: Native, p: Piped)
    requires Alike(h, p) && Has(op, p.slots)
    ensures NativeStep(op, h).slots.Keys == PipedStep(op, p).slots.Keys
    ensures forall k :: k in NativeStep(op, h).slots ==>
              DisabledFlags(NativeStep(op, h).slots[k]) == DisabledFlags(PipedStep(op, p).slots[k])
  {
    match op
    case Enable =>
    case Disable =>
    case Save(_) => Virtual(p.stalled);
    case SaveFlags(_) => Virtual(p.stalled);
    case Restore(_) =>
  }

  lemma RestoreAlike(k: nat, h: Native, p: Piped)
    requires Alike(h, p) && k in p.slots
    ensures NativeDisabled(NativeStep(Restore(k), h)) == PipedStep(Restore(k), p).stalled <==> Fair(Restore(k), p)
  {
    NativeAnswer(Restore(k), h);
  }

  lemma OtherAlike(op: Op, h: Native, p: Piped)
    requires Alike(h, p) && !op.Restore?
    ensures NativeDisabled(NativeStep(op, h)) == PipedStep(op, p).stalled
  {
    NativeAnswer(op, h);
  }

  /** One call keeps the builds alike exactly when it is fair. */
  lemma {:induction false} StepAlike(op: Op, h: Native, p: Piped)
    requires Alike(h, p) && Has(op, p.slots)
    ensures Alike(NativeStep(op, h), PipedStep(op, p)) <==> Fair(op, p)
    ensures NativeDisabled(NativeStep(op, h)) == PipedDisabled(PipedStep(op, p)) <==> Fair(op, p)
  {
    if op.Restore? { RestoreAlike(op.slot, h, p); } else { OtherAlike(op, h, p); }
    StepSlots(op, h, p);
    Virtual(PipedStep(op, p).stalled);
  }

  ghost predicate Callable(ops: seq<Op>, p: Piped)
    decreases ops
  {
    ops == [] || (Has(ops[0], p.slots) && Callable(ops[1..], PipedStep(ops[0], p)))
  }

  ghost predicate FairRun(ops: seq<Op>, p: Piped)
    requires Callable(ops, p)
    decreases ops
  {
    ops == [] || (Fair(ops[0], p) && FairRun(ops[1..], PipedStep(ops[0], p)))
  }

  /** arch_irqs_disabled answers the same at every point of the run. */
  ghost predicate SameAnswers(ops: seq<Op>, h: Native, p: Piped)
    requires Callable(ops, p)
    decreases ops
  {
    && NativeDisabled(h) == PipedDisabled(p)
    && (ops == [] || (Has(ops[0], h.slots) && SameAnswers(ops[1..], NativeStep(ops[0], h), PipedStep(ops[0], p))))
  }

  /** From alike states, a run is answered alike at every point if and only if all its restores are
      fair. native_irq_restore never clears the bit, so the other ones do tell the builds apart. */
  lemma {:induction false} BuildsAgreeIff(ops: seq<Op>, h: Native, p: Piped)
    requires Alike(h, p) && Callable(ops, p)
    ensures SameAnswers(ops, h, p) <==> FairRun(ops, p)
    decreases ops
  {
    if ops != [] {
      StepAlike(ops[0], h, p);
      var h', p' := NativeStep(ops[0], h), PipedStep(ops[0], p);
      if Fair(ops[0], p) {
        BuildsAgreeIff(ops[1..], h', p');
      } else {
        assert NativeDisabled(h') != PipedDisabled(p');
      }
    }
  }

  /** They can be told apart: a restore to off, issued with interrupts on, works in one build only. */
  lemma {:induction false} BuildsDiffer(h: Native, p: Piped)
    requires Alike(h, p)
    ensures var ops := [Disable, SaveFlags(0), Enable, Restore(0)];
            Callable(ops, p) && !FairRun(ops, p) && !SameAnswers(ops, h, p)
  {
    var ops := [Disable, SaveFlags(0), Enable, Restore(0)];
    assert ops[1..] == [SaveFlags(0), Enable, Restore(0)] && ops[1..][1..] == [Enable, Restore(0)];
    assert ops[1..][1..][1..] == [Restore(0)] && ops[1..][1..][1..][1..] == [];
    BuildsAgreeIff(ops, h, p);
  }

  ghost function PipedRun(ops: seq<Op>, p: Piped): Piped
    requires Callable(ops, p)
    decreases ops
  {
    if ops == [] then p else PipedRun(ops[1..], PipedStep(ops[0], p))
  }

  /** In-band code never touches the hardware bit in the pipelined build. */
  lemma {:induction false} PipedLeavesHardware(ops: seq<Op>, p: Piped)
    requires Callable(ops, p)
    ensures PipedRun(ops, p).sstatus == p.sstatus
    decreases ops
  {
    if ops != [] { PipedLeavesHardware(ops[1..], PipedStep(ops[0], p)); }
  }

  // ------------------------------------------------------------- nested sections

  /** Critical sections, in sequence and nested to any depth. */
  datatype Sections = Done | Section(body: Sections, rest: Sections)

  /** Each section saves to the slot of its depth, runs its body, and restores from there. */
  ghost function Code(s: Sections, depth: nat): seq<Op> {
    match s
    case Done => []
    case Section(body, rest) => [Save(depth)] + Code(body, depth + 1) + [Restore(depth)] + Code(rest, depth)
  }

  lemma {:induction false} RunConcat(a: seq<Op>, b: seq<Op>, p: Piped)
    requires Callable(a, p) && Callable(b, PipedRun(a, p))
    ensures Callable(a + b, p) && PipedRun(a + b, p) == PipedRun(b, PipedRun(a, p))
    ensures FairRun(a + b, p) <==> FairRun(a, p) && FairRun(b, PipedRun(a, p))
    decreases a
  {
    if a == [] {
      assert a + b == b;
    } else {
      assert (a + b)[0] == a[0] && (a + b)[1..] == a[1..] + b;
      RunConcat(a[1..], b, PipedStep(a[0], p));
    }
  }

  lemma RunOne(op: Op, p: Piped)
    requires Has(op, p.slots)
    ensures Callable([op], p) && PipedRun([op], p) == PipedStep(op, p)
    ensures FairRun([op], p) <==> Fair(op, p)
  {
    assert [op][1..] == [] && PipedRun([], PipedStep(op, p)) == PipedStep(op, p);
  }

  /** Sections give back the stall state they found, leave the slots of outer sections alone, and
      restore fairly. */
  lemma {:induction false} SectionsFair(s: Sections, depth: nat, p: Piped)
    ensures var ops := Code(s, depth);
            && Callable(ops, p) && FairRun(ops, p)
            && PipedRun(ops, p).stalled == p.stalled
            && (forall k :: k < depth && k in p.slots ==>
                  k in PipedRun(ops, p).slots && PipedRun(ops, p).slots[k] == p.slots[k])
    decreases s
  {
    match s
    case Done =>
    case Section(body, rest) =>
      var p1 := PipedStep(Save(depth), p);
      RunOne(Save(depth), p);
      SectionsFair(body, depth + 1, p1);
      RunConcat([Save(depth)], Code(body, depth + 1), p);
      var p2 := PipedRun(Code(body, depth + 1), p1);
      var p3 := PipedStep(Restore(depth), p2);
      RunOne(Restore(depth), p2);
      RunConcat([Save(depth)] + Code(body, depth + 1), [Restore(depth)], p);
      SectionsFair(rest, depth, p3);
      RunConcat([Save(depth)] + Code(body, depth + 1) + [Restore(depth)], Code(rest, depth), p);
  }

  /** So for nested critical sections the two builds never disagree, and the pipelined one leaves
      the hardware alone. */
  lemma {:induction false} SectionsAgree(s: Sections, h: Native, p: Piped)
    requires Alike(h, p)
    ensures Callable(Code(s, 0), p) && SameAnswers(Code(s, 0), h, p)
    ensures PipedRun(Code(s, 0), p).sstatus == p.sstatus && PipedRun(Code(s, 0), p).stalled == p.stalled
  {
    SectionsFair(s, 0, p);
    PipedLeavesHardware(Code(s, 0), p);
    BuildsAgreeIff(Code(s, 0), h, p);
  }
}
