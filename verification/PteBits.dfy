/** Page table entries as the 64-bit words the kernel computes with, and what
    its helpers do to the fields the page-table model works on. */
module PteBits {
  import opened VirtualMemory

  const PA_MASK: bv64 := 0x3F_FFFF_FFFF_FFFF
  const PFN_LIMIT: bv64 := 0x1000_0000_0000

  const PRESENT: bv64 := 0x1
  const READ: bv64 := 0x2
  const WRITE: bv64 := 0x4
  const EXEC: bv64 := 0x8
  const USER: bv64 := 0x10
  const GLOBAL: bv64 := 0x20
  const ACCESSED: bv64 := 0x40
  const DIRTY: bv64 := 0x80
  const SOFT: bv64 := 0x100
  const INSD: bv64 := 0x200

  function GetPfn(e: bv64): bv64 { (e & PA_MASK) >> 10 }

  function GetPa(e: bv64): bv64 { ((e & PA_MASK) >> 10) << 12 }

  function SetPfnBits(e: bv64, pfn: bv64): bv64 { (pfn << 10) | (e & 0x3ff) }

  function SetAttribute(e: bv64, bits: bv64): bv64 { e | bits }

  function CleanAttribute(e: bv64, bits: bv64): bv64 { e ^ bits }

  // ---------- A word in three parts ----------

  function Hi(e: bv64): bv64 { e >> 54 }

  function Low(e: bv64): bv64 { e & 0x3ff }

  datatype Parts = Parts(hi: bv64, pfn: bv64, low: bv64)

  function Split(e: bv64): Parts {
    Parts(Hi(e), GetPfn(e), Low(e))
  }

  lemma SameParts(a: bv64, b: bv64)
    requires Hi(a) == Hi(b) && GetPfn(a) == GetPfn(b) && Low(a) == Low(b)
    ensures a == b
  {
  }

  /** Nothing of a word is lost in its parts. */
  lemma SplitLossless(a: bv64, b: bv64)
    ensures Split(a) == Split(b) <==> a == b
  {
    hide Hi, GetPfn, Low;
    if Split(a) == Split(b) {
      SameParts(a, b);
    }
  }

  /** A frame number comes back exactly when it has at most 44 bits. */
  lemma PfnRoundTrip(e: bv64, pfn: bv64)
    ensures GetPfn(SetPfnBits(e, pfn)) == pfn <==> pfn < PFN_LIMIT
  {
  }

  /** A page-aligned physical address stored in an entry and read back. */
  lemma PaRoundTrip(e: bv64, pa: bv64)
    requires pa & 0xfff == 0 && pa >> 12 < PFN_LIMIT
    ensures GetPa(SetPfnBits(e, pa >> 12)) == pa
  {
  }

  lemma SetPfnHi(e: bv64, pfn: bv64)
    requires pfn < PFN_LIMIT
    ensures Hi(SetPfnBits(e, pfn)) == 0
  {
  }

  lemma SetPfnLow(e: bv64, pfn: bv64)
    ensures Low(SetPfnBits(e, pfn)) == Low(e)
  {
  }

  /** Setting a frame number keeps the ten low bits and clears the ten on top. */
  lemma SetPfnSplit(e: bv64, pfn: bv64)
    requires pfn < PFN_LIMIT
    ensures Split(SetPfnBits(e, pfn)) == Parts(0, pfn, Split(e).low)
  {
    hide SetPfnBits, GetPfn, Hi, Low;
    PfnRoundTrip(e, pfn);
    SetPfnHi(e, pfn);
    SetPfnLow(e, pfn);
  }

  lemma SetLow(e: bv64, m: bv64)
    requires Low(m) == m
    ensures Low(SetAttribute(e, m)) == SetAttribute(Low(e), m)
  {
  }

  lemma CleanLow(e: bv64, m: bv64)
    requires Low(m) == m
    ensures Low(CleanAttribute(e, m)) == CleanAttribute(Low(e), m)
  {
  }

  lemma SetHi(e: bv64, m: bv64)
    requires Low(m) == m
    ensures Hi(SetAttribute(e, m)) == Hi(e)
  {
  }

  lemma CleanHi(e: bv64, m: bv64)
    requires Low(m) == m
    ensures Hi(CleanAttribute(e, m)) == Hi(e)
  {
  }

  lemma SetKeepsPfn(e: bv64, m: bv64)
    requires Low(m) == m
    ensures GetPfn(SetAttribute(e, m)) == GetPfn(e)
  {
  }

  lemma CleanKeepsPfn(e: bv64, m: bv64)
    requires Low(m) == m
    ensures GetPfn(CleanAttribute(e, m)) == GetPfn(e)
  {
  }

  /** Attributes touch the ten low bits only. */
  lemma AttributeSplit(e: bv64, m: bv64)
    requires Low(m) == m
    ensures Split(SetAttribute(e, m)) == Split(e).(low := SetAttribute(Split(e).low, m))
    ensures Split(CleanAttribute(e, m)) == Split(e).(low := CleanAttribute(Split(e).low, m))
  {
    hide GetPfn, Hi, Low, SetAttribute, CleanAttribute;
    SetLow(e, m);
    CleanLow(e, m);
    SetHi(e, m);
    CleanHi(e, m);
    SetKeepsPfn(e, m);
    CleanKeepsPfn(e, m);
  }

  /** Clearing by exclusive or clears exactly if every bit of the mask is set;
      otherwise it sets a bit that was clear. */
  lemma CleanIsClear(e: bv64, bits: bv64)
    ensures CleanAttribute(e, bits) == e & !bits <==> e & bits == bits
  {
    CleanClears(e, bits);
    CleanOnlyThen(e, bits);
  }

  lemma CleanClears(e: bv64, bits: bv64)
    ensures e & bits == bits ==> CleanAttribute(e, bits) == e & !bits
  {
  }

  lemma CleanOnlyThen(e: bv64, bits: bv64)
    ensures CleanAttribute(e, bits) == e & !bits ==> e & bits == bits
  {
  }

  // ---------- The flags ----------

  datatype Flag = InSd | Soft | Dirty | Accessed | Global | UserPage | Exec | Write | Read | Present

  function Mask(f: Flag): bv64 {
    match f
    case InSd => INSD
    case Soft => SOFT
    case Dirty => DIRTY
    case Accessed => ACCESSED
    case Global => GLOBAL
    case UserPage => USER
    case Exec => EXEC
    case Write => WRITE
    case Read => READ
    case Present => PRESENT
  }

  /** Where the privileged architecture puts the flags: V R W X U G A D from bit 0 on,
      and the two bits left to software, of which the kernel uses the upper one for
      pages in the SD card. */
  lemma MaskPlaces(f: Flag)
    ensures Mask(f) == match f
      case Present => 1
      case Read => 2
      case Write => 4
      case Exec => 8
      case UserPage => 16
      case Global => 32
      case Accessed => 64
      case Dirty => 128
      case Soft => 256
      case InSd => 512
  {
  }

  function And(a: bv64, b: bv64): bv64 { a & b }

  function Has(low: bv64, f: Flag): bool { And(low, Mask(f)) != 0 }

  function EntryOf(hi: nat, pfn: nat, low: bv64): Pte {
    Pte(hi, pfn, Has(low, InSd), Has(low, Soft), Has(low, Dirty), Has(low, Accessed),
        Has(low, Global), Has(low, UserPage), Has(low, Exec), Has(low, Write), Has(low, Read), Has(low, Present))
  }

  /** The model's entry for a word: numbers for the two bit fields, and the flags. */
  function ToPte(p: Parts): Pte {
    EntryOf(p.hi as nat, p.pfn as nat, p.low)
  }

  lemma OtherBitSet(low: bv64, m: bv64, k: bv64)
    requires And(m, k) == 0
    ensures And(SetAttribute(low, m), k) == And(low, k)
  {
  }

  lemma OtherBitClean(low: bv64, m: bv64, k: bv64)
    requires And(m, k) == 0
    ensures And(CleanAttribute(low, m), k) == And(low, k)
  {
  }

  lemma OwnBit(low: bv64, f: Flag)
    ensures Has(SetAttribute(low, Mask(f)), f) && Has(CleanAttribute(low, Mask(f)), f) == !Has(low, f)
  {
  }

  lemma Disjoint(f: Flag, g: Flag)
    requires f != g
    ensures And(Mask(f), Mask(g)) == 0
  {
  }

  /** Setting one attribute sets its flag and no other. */
  lemma FlagSet(low: bv64, f: Flag, g: Flag)
    ensures Has(SetAttribute(low, Mask(f)), g) == (f == g || Has(low, g))
  {
    hide Mask, And, SetAttribute;
    if f == g {
      hide Has;
      OwnBit(low, f);
    } else {
      Disjoint(f, g);
      OtherBitSet(low, Mask(f), Mask(g));
    }
  }

  /** Clearing one attribute flips its flag and no other. */
  lemma FlagClean(low: bv64, f: Flag, g: Flag)
    ensures Has(CleanAttribute(low, Mask(f)), g) == if f == g then !Has(low, g) else Has(low, g)
  {
    hide Mask, And, CleanAttribute;
    if f == g {
      hide Has;
      OwnBit(low, f);
    } else {
      Disjoint(f, g);
      OtherBitClean(low, Mask(f), Mask(g));
    }
  }

  /** The entry with the field of one flag replaced. */
  function WithFlag(e: Pte, f: Flag, b: bool): Pte {
    match f
    case InSd => e.(sd := b)
    case Soft => e.(soft := b)
    case Dirty => e.(d := b)
    case Accessed => e.(a := b)
    case Global => e.(g := b)
    case UserPage => e.(u := b)
    case Exec => e.(x := b)
    case Write => e.(w := b)
    case Read => e.(r := b)
    case Present => e.(v := b)
  }

  function FieldOf(e: Pte, f: Flag): bool {
    match f
    case InSd => e.sd
    case Soft => e.soft
    case Dirty => e.d
    case Accessed => e.a
    case Global => e.g
    case UserPage => e.u
    case Exec => e.x
    case Write => e.w
    case Read => e.r
    case Present => e.v
  }

  lemma WithFlagField(e: Pte, f: Flag, b: bool, g: Flag)
    ensures FieldOf(WithFlag(e, f, b), g) == if f == g then b else FieldOf(e, g)
    ensures WithFlag(e, f, b).hi == e.hi && WithFlag(e, f, b).pfn == e.pfn
  {
  }

  lemma EntryField(hi: nat, pfn: nat, low: bv64, g: Flag)
    ensures FieldOf(EntryOf(hi, pfn, low), g) == Has(low, g)
  {
    hide Has;
  }

  /** An entry is its two numbers and its ten flags. */
  lemma SameFields(a: Pte, b: Pte)
    requires a.hi == b.hi && a.pfn == b.pfn && forall g :: FieldOf(a, g) == FieldOf(b, g)
    ensures a == b
  {
    assert FieldOf(a, InSd) == FieldOf(b, InSd) && FieldOf(a, Soft) == FieldOf(b, Soft);
    assert FieldOf(a, Dirty) == FieldOf(b, Dirty) && FieldOf(a, Accessed) == FieldOf(b, Accessed);
    assert FieldOf(a, Global) == FieldOf(b, Global) && FieldOf(a, UserPage) == FieldOf(b, UserPage);
    assert FieldOf(a, Exec) == FieldOf(b, Exec) && FieldOf(a, Write) == FieldOf(b, Write);
    assert FieldOf(a, Read) == FieldOf(b, Read) && FieldOf(a, Present) == FieldOf(b, Present);
  }

  lemma SetField(hi: nat, pfn: nat, low: bv64, f: Flag)
    ensures EntryOf(hi, pfn, SetAttribute(low, Mask(f))) == WithFlag(EntryOf(hi, pfn, low), f, true)
  {
    hide Has, Mask, SetAttribute, FieldOf, WithFlag;
    var a, b := EntryOf(hi, pfn, SetAttribute(low, Mask(f))), WithFlag(EntryOf(hi, pfn, low), f, true);
    forall g ensures FieldOf(a, g) == FieldOf(b, g) {
      FlagSet(low, f, g);
      EntryField(hi, pfn, low, g);
      EntryField(hi, pfn, SetAttribute(low, Mask(f)), g);
      WithFlagField(EntryOf(hi, pfn, low), f, true, g);
    }
    WithFlagField(EntryOf(hi, pfn, low), f, true, f);
    SameFields(a, b);
  }

  lemma CleanField(hi: nat, pfn: nat, low: bv64, f: Flag)
    ensures EntryOf(hi, pfn, CleanAttribute(low, Mask(f))) == WithFlag(EntryOf(hi, pfn, low), f, !Has(low, f))
  {
    hide Has, Mask, CleanAttribute, FieldOf, WithFlag;
    var a, b := EntryOf(hi, pfn, CleanAttribute(low, Mask(f))), WithFlag(EntryOf(hi, pfn, low), f, !Has(low, f));
    forall g ensures FieldOf(a, g) == FieldOf(b, g) {
      FlagClean(low, f, g);
      EntryField(hi, pfn, low, g);
      EntryField(hi, pfn, CleanAttribute(low, Mask(f)), g);
      WithFlagField(EntryOf(hi, pfn, low), f, !Has(low, f), g);
    }
    WithFlagField(EntryOf(hi, pfn, low), f, !Has(low, f), f);
    SameFields(a, b);
  }

  lemma MaskIsLow(f: Flag)
    ensures Low(Mask(f)) == Mask(f)
  {
  }

  /** set_attribute of one flag sets that field of the entry, and no other. */
  lemma SetWord(e: bv64, f: Flag)
    ensures ToPte(Split(SetAttribute(e, Mask(f)))) == WithFlag(ToPte(Split(e)), f, true)
  {
    hide Has, Mask, SetAttribute, CleanAttribute, EntryOf, WithFlag, Split, Low;
    MaskIsLow(f);
    AttributeSplit(e, Mask(f));
    var p := Split(e);
    SetField(p.hi as nat, p.pfn as nat, p.low, f);
  }

  /** clean_attribute of one flag flips that field of the entry, and no other. */
  lemma CleanWord(e: bv64, f: Flag)
    ensures ToPte(Split(CleanAttribute(e, Mask(f)))) == WithFlag(ToPte(Split(e)), f, !Has(Split(e).low, f))
  {
    hide Has, Mask, SetAttribute, CleanAttribute, EntryOf, WithFlag, Split, Low;
    MaskIsLow(f);
    AttributeSplit(e, Mask(f));
    var p := Split(e);
    CleanField(p.hi as nat, p.pfn as nat, p.low, f);
  }

  lemma SetPfnEntry(e: bv64, pfn: bv64)
    requires pfn < PFN_LIMIT
    ensures ToPte(Split(SetPfnBits(e, pfn))) == SetPfn(ToPte(Split(e)), pfn as nat)
  {
    hide Has, Split, SetPfnBits;
    SetPfnSplit(e, pfn);
  }

  /** The entries of a page and of a table, built the way the kernel builds them. */
  lemma NewEntries(pfn: bv64)
    requires pfn < PFN_LIMIT
    ensures ToPte(Split(SetAttribute(SetPfnBits(0, pfn), 0xdf))) == PageEntry(pfn as nat)
    ensures ToPte(Split(SetAttribute(SetPfnBits(0, pfn), 0x11))) == TableEntry(pfn as nat)
    ensures 0xdf == ACCESSED | DIRTY | PRESENT | USER | READ | WRITE | EXEC && 0x11 == PRESENT | USER
  {
    hide SetAttribute, SetPfnBits, Split;
    SetPfnSplit(0, pfn);
    AttributeSplit(SetPfnBits(0, pfn), 0xdf);
    AttributeSplit(SetPfnBits(0, pfn), 0x11);
    ZeroLow();
    NewFlags(pfn);
  }

  lemma ZeroLow()
    ensures Split(0).low == 0 && SetAttribute(0, 0xdf) == 0xdf && SetAttribute(0, 0x11) == 0x11
  {
  }

  lemma NewFlags(pfn: bv64)
    ensures ToPte(Parts(0, pfn, 0xdf)) == PageEntry(pfn as nat) && ToPte(Parts(0, pfn, 0x11)) == TableEntry(pfn as nat)
  {
  }
}
