/** Option bits of a class or an object, and what they decide: the lock, the
    allocation flags and the context check (lunatik.h). */
module Options {

  // ---- the bits ----

  const IRQ: bv8 := 0x01
  const SOFTIRQ: bv8 := IRQ | 0x02
  const HARDIRQ: bv8 := IRQ | 0x04
  const MONITOR: bv8 := 0x08
  const SINGLE: bv8 := 0x10
  const EXTERNAL: bv8 := 0x20

  /** The option bits as the macros `lunatik_isirq`, ..., `lunatik_isexternal` read them. */
  datatype Opt = Opt(irq: bool, hardirq: bool, monitor: bool, single: bool, external: bool)

  function Decode(bits: bv8): Opt {
    Opt(bits & IRQ != 0, bits & 0x04 != 0, bits & MONITOR != 0, bits & SINGLE != 0, bits & EXTERNAL != 0)
  }

  /** `lunatik_setobject`: an object inherits its class's options, and SINGLE drops MONITOR. */
  function InheritBits(classOpt: bv8, opt: bv8): bv8 {
    if opt & SINGLE != 0 then (opt | classOpt) & !MONITOR else opt | classOpt
  }

  function Inherit(classOpt: Opt, opt: Opt): Opt {
    Opt(classOpt.irq || opt.irq, classOpt.hardirq || opt.hardirq, (classOpt.monitor || opt.monitor) && !opt.single,
        classOpt.single || opt.single, classOpt.external || opt.external)
  }

  /** The bit operations of `lunatik_setobject` act on each option separately: sharing is
      forbidden when either side asks for it, and asking for SINGLE is what drops MONITOR. */
  lemma InheritDecodes(classOpt: bv8, opt: bv8)
    ensures Decode(InheritBits(classOpt, opt)) == Inherit(Decode(classOpt), Decode(opt))
    ensures Decode(SOFTIRQ).irq && Decode(HARDIRQ).irq && Decode(HARDIRQ).hardirq && !Decode(SOFTIRQ).hardirq
  {
  }

  // ---- what they decide ----

  datatype Lock = Mutex | SpinBh | SpinIrqSave
  datatype Gfp = Kernel | Atomic

  /** Which member of the lock union `lunatik_locker` operates on. */
  function LockOf(opt: Opt): Lock {
    if !opt.irq then Mutex else if opt.hardirq then SpinIrqSave else SpinBh
  }

  function GfpOf(opt: Opt): Gfp {
    if opt.irq then Atomic else Kernel
  }

  /** `lunatik_checkclass`: an interrupt-context runtime takes interrupt-context classes only. */
  predicate Admits(runtimeOpt: Opt, classOpt: Opt) {
    runtimeOpt.irq ==> classOpt.irq
  }
}
