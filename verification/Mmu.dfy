/** The page-table builder of arch/armv8/mmu.c, and the hardware walk that gives its output a
    meaning (section D5.3 of ARM DDI 0487, 4 KB granule, 48-bit addresses). */
module Mmu {
  import opened CTypes
  import opened Bits

  const PAGE_GRANULE: nat := 4096
  const PTES_PER_LEVEL: nat := 512

  // ----- descriptors ------------------------------------------------------------------------

  function PteOutAddr(page: nat): nat { BitsAtPos(page, 40, 12) }
  function PteLoAttr(lo: nat): nat { BitsAtPos(lo, 10, 2) }
  function PteUpAttr(up: nat): nat { BitsAtPos(up, 13, 51) }

  function MakePagePte(up: nat, page: nat, lo: nat): nat {
    Or(Or(Or(PteUpAttr(up), PteOutAddr(page)), PteLoAttr(lo)), 3)
  }

  function MakePagePteLoAttr(attrIdx: nat, ns: nat, ap: nat, sh: nat, af: nat, ng: nat): nat {
    Or(Or(Or(Or(Or(BitsAtPos(attrIdx, 3, 0), BitsAtPos(ns, 1, 3)), BitsAtPos(ap, 2, 4)),
             BitsAtPos(sh, 2, 6)), BitsAtPos(af, 1, 8)), BitsAtPos(ng, 1, 9))
  }

  function MakeTablePte(ns: nat, ap: nat, xn: nat, pxn: nat, page: nat): nat {
    Or(Or(Or(Or(Or(BitsAtPos(ns, 1, 63), BitsAtPos(ap, 2, 61)), BitsAtPos(xn, 1, 60)),
             BitsAtPos(pxn, 1, 59)), PteOutAddr(page)), 3)
  }

  /** The value of the page descriptor that map_page_ptes stores: output address from bit 12,
      access flag, shareability, non-secure bit and attribute index, then 0b11. */
  function PageEntry(page: nat, attrIdx: nat, sh: nat): nat {
    page * 4096 + (attrIdx % 8 + 8 + (sh % 4) * 64 + 256) * 4 + 3
  }

  /** The value of the table descriptor that map_table_ptes stores. */
  function TableEntry(page: nat): nat {
    page * 4096 + 3
  }

  // How the hardware reads a descriptor (section D5.3.3 of ARM DDI 0487).
  predicate IsValid(d: nat) { d % 2 == 1 }
  predicate IsTableOrPage(d: nat) { d / 2 % 2 == 1 }
  function AttrIndex(d: nat): nat { d / 4 % 8 }
  function Shareability(d: nat): nat { d / 256 % 4 }
  predicate AccessFlag(d: nat) { d / 1024 % 2 == 1 }
  function OutputPage(d: nat): nat { d / 4096 % 0x10_0000_0000 }

  /** Bits 51:48 are reserved and must be zero. */
  predicate ReservedClear(d: nat) { d / 0x1_0000_0000_0000 % 16 == 0 }

  type TwoBits = n: nat | n < 4

  /** The access rights of a page. AP[2:1] has the encodings of mmu_lpdesc.h:4-11: bit 0 gives
      EL0 data access, bit 1 takes write access away. */
  datatype Rights = Rights(
    nonSecure: bool, ap: TwoBits, notGlobal: bool, contiguous: bool, pxn: bool, uxn: bool)
  {
    /** Stage 1 never forbids EL1 to read a valid page. */
    predicate Writable() { ap / 2 % 2 == 0 }

    /** At EL1; memory that EL0 can write is never executable there. SCTLR_EL1.WXN is clear. */
    predicate Executable() { !pxn && !(ap == 1) }

    predicate UserData() { ap % 2 == 1 }
  }

  /** NS is bit 5, AP[2:1] are bits 7:6, nG is bit 11, Contiguous bit 52, PXN bit 53, UXN bit 54. */
  function PageRights(d: nat): Rights {
    Rights(d / 32 % 2 == 1, d / 64 % 4, d / 2048 % 2 == 1, d / 0x10_0000_0000_0000 % 2 == 1,
           d / 0x20_0000_0000_0000 % 2 == 1, d / 0x40_0000_0000_0000 % 2 == 1)
  }

  /** What a table descriptor leaves of the rights of a page below it: bit 63 (NSTable) makes it
      non-secure and non-global, bit 62 (APTable[1]) forbids writes, bit 61 (APTable[0]) forbids
      EL0 data access, bit 60 (UXNTable) and bit 59 (PXNTable) forbid execution. */
  function TableLimits(d: nat, r: Rights): Rights {
    var nsTable, apTable := d / 0x8000_0000_0000_0000 % 2 == 1, d / 0x2000_0000_0000_0000 % 4;
    var user := if apTable % 2 == 1 then 0 else r.ap % 2;
    var readOnly := if apTable / 2 == 1 then 2 else r.ap / 2 % 2 * 2;
    Rights(r.nonSecure || nsTable, readOnly + user, r.notGlobal || nsTable, r.contiguous,
           r.pxn || d / 0x800_0000_0000_0000 % 2 == 1, r.uxn || d / 0x1000_0000_0000_0000 % 2 == 1)
  }

  /** A 36-bit page number fits the output address field, whose lowest bit is bit 12. */
  lemma OutAddrValue(page: nat)
    requires page < 0x10_0000_0000
    ensures PteOutAddr(page) == page * 4096
  {
    Pow2Of40();
    assert Pow2(12) == 4096;
  }

  // ----- the macros on all their arguments --------------------------------------------------

  /** Attribute index, NS, AP, SH, AF and nG, from the lowest bit up. */
  function LoFields(a: nat, ns: nat, ap: nat, sh: nat, af: nat, ng: nat): nat {
    a + 8 * (ns + 2 * (ap + 4 * (sh + 4 * (af + 2 * ng))))
  }

  lemma LoPowers()
    ensures Pow2(0) == 1 && Pow2(1) == 2 && Pow2(2) == 4 && Pow2(3) == 8 && Pow2(4) == 16 && Pow2(6) == 64
    ensures Pow2(8) == 256 && Pow2(9) == 512 && Pow2(10) == 1024 && Pow2(12) == 4096
  {
    assert Pow2(4) == 16;
    Pow2Adds(4, 4);
    Pow2Adds(8, 4);
  }

  lemma LoAttrPacks(attrIdx: nat, ns: nat, ap: nat, sh: nat, af: nat, ng: nat)
    ensures MakePagePteLoAttr(attrIdx, ns, ap, sh, af, ng)
         == LoFields(attrIdx % 8, ns % 2, ap % 4, sh % 4, af % 2, ng % 2) < 1024
  {
    LoPowers();
    hide Or, Pow2;
    var v := attrIdx % 8;
    OrDisjoint(ns % 2, v, 3);
    v := v + ns % 2 * 8;
    OrDisjoint(ap % 4, v, 4);
    v := v + ap % 4 * 16;
    OrDisjoint(sh % 4, v, 6);
    v := v + sh % 4 * 64;
    OrDisjoint(af % 2, v, 8);
    v := v + af % 2 * 256;
    OrDisjoint(ng % 2, v, 9);
  }

  lemma HiPowers()
    ensures Pow2(13) == 0x2000 && Pow2(51) == 0x8_0000_0000_0000
  {
    LoPowers();
    Pow2Of40();
    Pow2Adds(12, 1);
    Pow2Adds(40, 10);
    Pow2Adds(50, 1);
  }

  lemma UpAttrValue(up: nat)
    ensures PteUpAttr(up) == up % 0x2000 * 0x8_0000_0000_0000
  {
    HiPowers();
  }

  lemma LoAttrOut(lo: nat)
    requires lo < 1024
    ensures PteLoAttr(lo) == lo * 4
  {
    LoPowers();
  }

  lemma OrWords(u: nat, page: nat, lo: nat)
    requires page < 0x10_0000_0000 && lo < 1024
    ensures Or(Or(Or(u * 0x8_0000_0000_0000, page * 4096), lo * 4), 3)
         == u * 0x8_0000_0000_0000 + page * 4096 + lo * 4 + 3
  {
    LoPowers();
    HiPowers();
    hide Or, Pow2;
    OrDisjoint(u, page * 4096, 51);
    OrDisjoint(u * 0x80_0000_0000 + page, lo * 4, 12);
    OrDisjoint((u * 0x80_0000_0000 + page) * 1024 + lo, 3, 2);
  }

  lemma PagePtePacks(up: nat, page: nat, lo: nat)
    requires page < 0x10_0000_0000 && lo < 1024
    ensures MakePagePte(up, page, lo) == up % 0x2000 * 0x8_0000_0000_0000 + page * 4096 + lo * 4 + 3
  {
    hide Or, PteOutAddr, PteUpAttr, PteLoAttr;
    UpAttrValue(up);
    LoAttrOut(lo);
    OutAddrValue(page);
    OrWords(up % 0x2000, page, lo);
  }

  /** The low fields of a word whose bits from 12 on are `high`. */
  lemma LoDecodes(d: nat, high: nat, a: nat, ns: nat, ap: nat, sh: nat, af: nat, ng: nat)
    requires a < 8 && ns < 2 && ap < 4 && sh < 4 && af < 2 && ng < 2
    requires d == high * 4096 + LoFields(a, ns, ap, sh, af, ng) * 4 + 3
    ensures IsValid(d) && IsTableOrPage(d) && AttrIndex(d) == a && d / 32 % 2 == ns && d / 64 % 4 == ap
    ensures Shareability(d) == sh && (AccessFlag(d) <==> af == 1) && d / 2048 % 2 == ng && d / 4096 == high
  {
    var q5 := ng + 2 * high;
    var q4 := af + 2 * q5;
    var q3 := sh + 4 * q4;
    var q2 := ap + 4 * q3;
    var q1 := ns + 2 * q2;
    var q0 := a + 8 * q1;
    DivIs(d, 2, 2 * q0 + 1, 1);
    DivIs(2 * q0 + 1, 2, q0, 1);
    DivIs(d, 4, q0, 3);
    DivIs(q0, 8, q1, a);
    DivIs(d, 32, q1, 4 * a + 3);
    DivIs(q1, 2, q2, ns);
    DivIs(d, 64, q2, 32 * ns + 4 * a + 3);
    DivIs(q2, 4, q3, ap);
    DivIs(d, 256, q3, 64 * ap + 32 * ns + 4 * a + 3);
    DivIs(q3, 4, q4, sh);
    DivIs(d, 1024, q4, 256 * sh + 64 * ap + 32 * ns + 4 * a + 3);
    DivIs(q4, 2, q5, af);
    DivIs(d, 2048, q5, 1024 * af + 256 * sh + 64 * ap + 32 * ns + 4 * a + 3);
    DivIs(q5, 2, high, ng);
    DivIs(d, 4096, high, 2048 * ng + 1024 * af + 256 * sh + 64 * ap + 32 * ns + 4 * a + 3);
  }

  /** The upper fields of a word with `up` from bit 51 on and less than 2^48 below. */
  lemma HiDecodes(d: nat, up: nat, low: nat)
    requires low < 0x1_0000_0000_0000 && d == up * 0x8_0000_0000_0000 + low
    ensures ReservedClear(d) <==> up % 2 == 0
    ensures d / 0x10_0000_0000_0000 == up / 2 && d / 0x20_0000_0000_0000 == up / 4
    ensures d / 0x40_0000_0000_0000 == up / 8
  {
    DivIs(d, 0x8_0000_0000_0000, up, low);
    DivDiv(d, 0x8_0000_0000_0000, 2);
    DivDiv(d, 0x8_0000_0000_0000, 4);
    DivDiv(d, 0x8_0000_0000_0000, 8);
    DivIs(d, 0x1_0000_0000_0000, up * 8, low);
    DivIs(up * 8, 16, up / 2, up % 2 * 8);
  }

  /** Whatever is put into the page macro, the hardware reads back field by field: every attribute, cut to
      its width, the page, and bits 52, 53 and 54 from the upper attributes, which begin at bit 51. */
  lemma PagePteDecodes(up: nat, page: nat, attrIdx: nat, ns: nat, ap: nat, sh: nat, af: nat, ng: nat)
    requires page < 0x10_0000_0000
    ensures var d := MakePagePte(up, page, MakePagePteLoAttr(attrIdx, ns, ap, sh, af, ng));
      && IsValid(d) && IsTableOrPage(d) && (ReservedClear(d) <==> up % 2 == 0)
      && OutputPage(d) == page && AttrIndex(d) == attrIdx % 8 && Shareability(d) == sh % 4
      && (AccessFlag(d) <==> af % 2 == 1)
      && PageRights(d) == Rights(ns % 2 == 1, ap % 4, ng % 2 == 1, up / 2 % 2 == 1, up / 4 % 2 == 1, up / 8 % 2 == 1)
  {
    hide MakePagePte, MakePagePteLoAttr, LoFields, ReservedClear;
    LoAttrPacks(attrIdx, ns, ap, sh, af, ng);
    var lo, u := MakePagePteLoAttr(attrIdx, ns, ap, sh, af, ng), up % 0x2000;
    PagePtePacks(up, page, lo);
    var d := MakePagePte(up, page, lo);
    LoDecodes(d, u * 0x80_0000_0000 + page, attrIdx % 8, ns % 2, ap % 4, sh % 4, af % 2, ng % 2);
    HiDecodes(d, u, page * 4096 + lo * 4 + 3);
    DivIs(u * 0x80_0000_0000 + page, 0x10_0000_0000, u * 8, page);
    UpBits(up);
  }

  /** The same for the table macro: what it is given is what it takes from the pages below. */
  lemma TablePteDecodes(ns: nat, ap: nat, xn: nat, pxn: nat, page: nat, r: Rights)
    requires page < 0x10_0000_0000
    ensures var d := MakeTablePte(ns, ap, xn, pxn, page);
      && IsValid(d) && IsTableOrPage(d) && ReservedClear(d) && OutputPage(d) == page
      && TableLimits(d, r) == Rights(
           r.nonSecure || ns % 2 == 1,
           (if ap % 4 >= 2 || r.ap >= 2 then 2 else 0) + (if ap % 2 == 0 && r.ap % 2 == 1 then 1 else 0),
           r.notGlobal || ns % 2 == 1, r.contiguous, r.pxn || pxn % 2 == 1, r.uxn || xn % 2 == 1)
  {
    hide MakeTablePte, ReservedClear;
    TablePtePacks(ns, ap, xn, pxn, page);
    TopDecodes(MakeTablePte(ns, ap, xn, pxn, page), ns % 2, ap % 4, xn % 2, pxn % 2, page);
    ApHalves(ap);
  }

  lemma ApHalves(ap: nat)
    ensures ap % 4 % 2 == ap % 2 && (ap % 4 / 2 == 1 <==> ap % 4 >= 2)
  {
    var k, m := ap / 4, ap % 4;
    DivIs(ap, 2, 2 * k + m / 2, m % 2);
  }

  lemma TopPowers()
    ensures Pow2(59) == 0x800_0000_0000_0000 && Pow2(60) == 0x1000_0000_0000_0000
    ensures Pow2(61) == 0x2000_0000_0000_0000 && Pow2(63) == 0x8000_0000_0000_0000
  {
    HiPowers();
    LoPowers();
    Pow2Adds(51, 8);
    Pow2Adds(59, 1);
    Pow2Adds(60, 1);
    Pow2Adds(61, 2);
  }

  lemma TablePtePacks(ns: nat, ap: nat, xn: nat, pxn: nat, page: nat)
    requires page < 0x10_0000_0000
    ensures MakeTablePte(ns, ap, xn, pxn, page)
         == TopFields(ns % 2, ap % 4, xn % 2, pxn % 2) * 0x800_0000_0000_0000 + page * 4096 + 3
  {
    TopPowers();
    LoPowers();
    OutAddrValue(page);
    hide Or, Pow2, PteOutAddr;
    OrTop(ns % 2, ap % 4, xn % 2, pxn % 2, page);
  }

  /** PXNTable, UXNTable, APTable and NSTable, from bit 59 up. */
  function TopFields(ns: nat, ap: nat, xn: nat, pxn: nat): nat {
    pxn + 2 * (xn + 2 * (ap + 4 * ns))
  }

  lemma OrTop(ns: nat, ap: nat, xn: nat, pxn: nat, page: nat)
    requires ns < 2 && ap < 4 && xn < 2 && pxn < 2 && page < 0x10_0000_0000
    ensures Or(Or(Or(Or(Or(ns * 0x8000_0000_0000_0000, ap * 0x2000_0000_0000_0000), xn * 0x1000_0000_0000_0000),
                     pxn * 0x800_0000_0000_0000), page * 4096), 3)
         == TopFields(ns, ap, xn, pxn) * 0x800_0000_0000_0000 + page * 4096 + 3
  {
    TopPowers();
    LoPowers();
    hide Or, Pow2;
    OrDisjoint(ns, ap * 0x2000_0000_0000_0000, 63);
    OrDisjoint(ns * 4 + ap, xn * 0x1000_0000_0000_0000, 61);
    OrDisjoint((ns * 4 + ap) * 2 + xn, pxn * 0x800_0000_0000_0000, 60);
    OrDisjoint(((ns * 4 + ap) * 2 + xn) * 2 + pxn, page * 4096, 59);
    OrDisjoint((((ns * 4 + ap) * 2 + xn) * 2 + pxn) * 0x200_0000_0000_0000 + page * 1024, 3, 2);
  }

  lemma TopDecodes(d: nat, ns: nat, ap: nat, xn: nat, pxn: nat, page: nat)
    requires ns < 2 && ap < 4 && xn < 2 && pxn < 2 && page < 0x10_0000_0000
    requires d == TopFields(ns, ap, xn, pxn) * 0x800_0000_0000_0000 + page * 4096 + 3
    ensures IsValid(d) && IsTableOrPage(d) && ReservedClear(d) && OutputPage(d) == page
    ensures d / 0x800_0000_0000_0000 % 2 == pxn && d / 0x1000_0000_0000_0000 % 2 == xn
    ensures d / 0x2000_0000_0000_0000 % 4 == ap && d / 0x8000_0000_0000_0000 % 2 == ns
  {
    var q1 := ap + 4 * ns;
    var q0 := xn + 2 * q1;
    var t := pxn + 2 * q0;
    var low := page * 4096 + 3;
    DivIs(d, 0x800_0000_0000_0000, t, low);
    DivIs(t, 2, q0, pxn);
    DivIs(d, 0x1000_0000_0000_0000, q0, pxn * 0x800_0000_0000_0000 + low);
    DivIs(q0, 2, q1, xn);
    DivIs(d, 0x2000_0000_0000_0000, q1, (2 * xn + pxn) * 0x800_0000_0000_0000 + low);
    DivIs(q1, 4, ns, ap);
    DivIs(d, 0x8000_0000_0000_0000, ns, (4 * ap + 2 * xn + pxn) * 0x800_0000_0000_0000 + low);
    DivIs(ns, 2, 0, ns);
    DivIs(d, 2, t * 0x400_0000_0000_0000 + page * 2048 + 1, 1);
    DivIs(d / 2, 2, t * 0x200_0000_0000_0000 + page * 1024, 1);
    DivIs(d, 4096, t * 0x8000_0000_0000 + page, 3);
    DivIs(t * 0x8000_0000_0000 + page, 0x10_0000_0000, t * 0x800, page);
    DivIs(d, 0x1_0000_0000_0000, t * 0x800, low);
    DivIs(t * 0x800, 16, t * 0x80, 0);
  }

  lemma UpBits(up: nat)
    ensures up % 0x2000 % 2 == up % 2 && up % 0x2000 / 2 % 2 == up / 2 % 2
    ensures up % 0x2000 / 4 % 2 == up / 4 % 2 && up % 0x2000 / 8 % 2 == up / 8 % 2
  {
    var k, u := up / 0x2000, up % 0x2000;
    DivIs(up, 2, k * 0x1000 + u / 2, u % 2);
    DivIs(up / 2, 2, k * 0x800 + u / 2 / 2, u / 2 % 2);
    DivIs(up, 4, k * 0x800 + u / 4, u % 4);
    DivIs(up / 4, 2, k * 0x400 + u / 4 / 2, u / 4 % 2);
    DivIs(up, 8, k * 0x400 + u / 8, u % 8);
    DivIs(up / 8, 2, k * 0x200 + u / 8 / 2, u / 8 % 2);
  }

  // ----- the descriptors that are stored ----------------------------------------------------

  /** The macros of map_page_ptes give the stored value. */
  lemma MakePagePteValue(page: nat, attrIdx: nat, sh: nat)
    requires page < 0x10_0000_0000
    ensures MakePagePte(0, page, MakePagePteLoAttr(attrIdx, 1, 0, sh, 1, 0))
         == PageEntry(page, attrIdx, sh)
  {
    hide MakePagePte, MakePagePteLoAttr;
    LoAttrPacks(attrIdx, 1, 0, sh, 1, 0);
    PagePtePacks(0, page, MakePagePteLoAttr(attrIdx, 1, 0, sh, 1, 0));
  }

  /** The macros of map_table_ptes give the stored value. */
  lemma MakeTablePteValue(page: nat)
    requires page < 0x10_0000_0000
    ensures MakeTablePte(0, 0, 0, 0, page) == TableEntry(page)
  {
    hide MakeTablePte;
    TablePtePacks(0, 0, 0, 0, page);
  }

  /** What the hardware reads back from a stored page descriptor. */
  lemma PageEntryFields(page: nat, attrIdx: nat, sh: nat)
    requires page < 0x10_0000_0000
    ensures var d := PageEntry(page, attrIdx, sh);
      && IsValid(d) && IsTableOrPage(d) && AccessFlag(d)
      && OutputPage(d) == page && AttrIndex(d) == attrIdx % 8 && Shareability(d) == sh % 4
      && d < 0x1_0000_0000_0000
      && ReservedClear(d) && PageRights(d) == Rights(true, 0, false, false, false, false)
  {
    assert PageEntry(page, attrIdx, sh) < 0x1_0000_0000_0000;
    hide PageEntry, IsValid, IsTableOrPage, AccessFlag, OutputPage, ReservedClear, AttrIndex, PageRights;
    MakePagePteValue(page, attrIdx, sh);
    PagePteDecodes(0, page, attrIdx, 1, 0, sh, 1, 0);
  }

  /** What the hardware reads back from a stored table descriptor. */
  lemma TableEntryFields(page: nat)
    requires page < 0x10_0000_0000
    ensures var d := TableEntry(page);
      IsValid(d) && IsTableOrPage(d) && ReservedClear(d) && OutputPage(d) == page
    ensures TableEntry(page) < 0x1_0000_0000_0000
  {
    assert TableEntry(page) < 0x1_0000_0000_0000;
    hide TableEntry, IsValid, IsTableOrPage, OutputPage, ReservedClear;
    MakeTablePteValue(page);
    TablePteDecodes(0, 0, 0, 0, page, Rights(false, 0, false, false, false, false));
  }

  /** A stored table descriptor takes nothing from the rights of the pages below it. */
  lemma TableEntryLimits(page: nat, r: Rights)
    requires page < 0x10_0000_0000
    ensures TableLimits(TableEntry(page), r) == r
  {
    hide TableEntry, TableLimits;
    MakeTablePteValue(page);
    TablePteDecodes(0, 0, 0, 0, page, r);
  }

  // ----- the hardware walk ------------------------------------------------------------------

  /** Result of a table walk. OutsideTables is a read that leaves the modelled block. */
  datatype Outcome =
    | Page(pa: nat, attrIdx: nat, sh: nat, rights: Rights)
    | TranslationFault
    | AccessFlagFault
    | Reserved
    | Block
    | OutsideTables

  /** Bytes covered by one entry of a table of the given level: VA bits 47:39, 38:30, 29:21
      and 20:12 select the entry. */
  function EntrySpan(level: nat): (r: nat)
    requires level <= 3
    ensures r > 0
  {
    if level == 0 then 0x80_0000_0000
    else if level == 1 then 0x4000_0000
    else if level == 2 then 0x20_0000
    else 0x1000
  }

  /** The outcome of the walk below a table descriptor, as that descriptor limits it. */
  function Limited(d: nat, o: Outcome): Outcome {
    if o.Page? then o.(rights := TableLimits(d, o.rights)) else o
  }

  /** Walk from the table at address `table`; `mem` is the block of descriptors at `base`. */
  function WalkFrom(mem: seq<u64>, base: nat, table: nat, level: nat, va: nat): Outcome
    requires level <= 3
    decreases 3 - level
  {
    var addr := table + 8 * (va / EntrySpan(level) % 512);
    if addr < base || addr >= base + 8 * |mem| then OutsideTables
    else
      var d := mem[(addr - base) / 8];
      if !IsValid(d) then TranslationFault
      else if level == 3 then
        if !IsTableOrPage(d) then TranslationFault
        else if !ReservedClear(d) then Reserved
        else if !AccessFlag(d) then AccessFlagFault
        else Page(OutputPage(d) * 4096 + va % 4096, AttrIndex(d), Shareability(d), PageRights(d))
      else if !IsTableOrPage(d) then
        if level == 0 then TranslationFault else Block
      else if !ReservedClear(d) then Reserved
      else Limited(d, WalkFrom(mem, base, OutputPage(d) * 4096, level + 1, va))
  }

  function Walk(mem: seq<u64>, base: nat, va: nat): Outcome {
    WalkFrom(mem, base, base, 0, va)
  }

  // ----- configuration and layout -----------------------------------------------------------

  datatype MemRange = MemRange(
    paStartPage: nat, vaStartPage: nat, numPages: nat, memAttrIdx: nat, shBits: nat)

  datatype PtConfig = PtConfig(
    baseAddress: nat, pageSize: nat, entriesPerPt: nat, paStart: nat, paEnd: nat,
    memRanges: seq<MemRange>)

  predicate Covers(r: MemRange, page: nat) {
    r.vaStartPage <= page < r.vaStartPage + r.numPages
  }

  /** What a configuration asks of the walk: the last range that covers the page decides
      (the only one, when ranges are disjoint), and an address in no range faults. Every mapped
      page is non-secure, global, read-write at EL1 without EL0 data access (AP 0), not
      contiguous with its neighbours, and executable at both levels. */
  function Translate(ranges: seq<MemRange>, va: nat): Outcome {
    if ranges == [] then TranslationFault
    else
      var r := ranges[|ranges| - 1];
      if Covers(r, va / 4096) then
        Page((r.paStartPage + (va / 4096 - r.vaStartPage)) * 4096 + va % 4096,
             r.memAttrIdx % 8, r.shBits % 4, Rights(true, 0, false, false, false, false))
      else Translate(ranges[..|ranges| - 1], va)
  }

  function DivRoundUp(val: nat, unit: nat): nat
    requires unit > 0
  {
    (val + unit - 1) / unit
  }

  function RoundUpTo(val: nat, unit: nat): nat
    requires unit > 0
  {
    (val + unit - 1) / unit * unit
  }

  function Max(a: int, b: int): int { if a > b then a else b }

  /** Entry counts of the four levels, and where each level starts in the block. */
  datatype Layout = Layout(l0: nat, l1: nat, l2: nat, l3: nat) {
    function At1(): nat { RoundUpTo(l0, 512) }
    function At2(): nat { At1() + RoundUpTo(l1, 512) }
    function At3(): nat { At2() + RoundUpTo(l2, 512) }
    function Size(): nat { At3() + RoundUpTo(l3, 512) }
  }

  function LayoutOf(cfg: PtConfig): Layout
    requires cfg.paStart <= cfg.paEnd
  {
    var l3 := Max((cfg.paEnd - cfg.paStart) / 4096, 1);
    var l2 := Max(DivRoundUp(l3, 512), 1);
    var l1 := Max(DivRoundUp(l2, 512), 1);
    var l0 := Max(DivRoundUp(l1, 512), 1);
    Layout(l0, l1, l2, l3)
  }

  predicate RangeFits(r: MemRange, l3: nat) {
    && r.vaStartPage + r.numPages <= l3
    && r.paStartPage + r.numPages <= 0x10_0000_0000
  }

  /** The most pages for which the rounding sums of lines 320-322 and 331-333 fit a C int. */
  const MAX_PAGES: nat := 0x7fff_fe00

  /** The configurations the code is written for: 4 KB granule, aligned base, page counts whose
      rounding fits a C int, tables below 2^48, ranges inside the covered space. */
  ghost predicate Supported(cfg: PtConfig) {
    && cfg.pageSize == PAGE_GRANULE && cfg.entriesPerPt == PTES_PER_LEVEL
    && cfg.paStart == 0
    && cfg.baseAddress % 4096 == 0
    && cfg.paEnd / 4096 <= MAX_PAGES
    && cfg.baseAddress / 4096 + LayoutOf(cfg).Size() / 512 <= 0x10_0000_0000
    && forall r :: r in cfg.memRanges ==> RangeFits(r, LayoutOf(cfg).l3)
  }

  /** The table areas are whole pages, in order and apart from each other, and each holds one
      page of entries per entry of the level above. */
  lemma LayoutIsPaged(cfg: PtConfig)
    requires cfg.paStart <= cfg.paEnd && cfg.paEnd / 4096 <= MAX_PAGES
    ensures var l := LayoutOf(cfg);
      && 1 <= l.l0 <= 512 && l.At1() == 512
      && l.At2() == 512 + 512 * l.l0
      && l.At3() == l.At2() + 512 * l.l1
      && l.Size() == l.At3() + 512 * l.l2
      && l.l1 <= 512 * l.l0 && l.l2 <= 512 * l.l1 && l.l3 <= 512 * l.l2
      && 512 * (l.l0 - 1) < l.l1 && 512 * (l.l1 - 1) < l.l2 && 512 * (l.l2 - 1) < l.l3
  {
    var l := LayoutOf(cfg);
    assert (cfg.paEnd - cfg.paStart) / 4096 <= cfg.paEnd / 4096;
    assert l.l3 < 0x8000_0000 && l.l2 <= 0x40_0000 && l.l1 <= 0x2000 && l.l0 <= 16;
  }

  /** No sum of the level arithmetic leaves the range of a C int, and with one page more the
      first of them does. */
  lemma NoOverflow(cfg: PtConfig)
    requires cfg.paStart == 0 && cfg.paEnd / 4096 <= MAX_PAGES + 1
    ensures var l := LayoutOf(cfg);
      l.l3 + 511 < 0x8000_0000 && l.l2 + 511 < 0x8000_0000 && l.l1 + 511 < 0x8000_0000 && l.l0 + 511 < 0x8000_0000
      <==> cfg.paEnd / 4096 <= MAX_PAGES
  {
    var l := LayoutOf(cfg);
    assert l.l2 <= 0x40_0000 && l.l1 <= 0x2000 && l.l0 <= 16;
  }

  // ----- the stores -------------------------------------------------------------------------

  /** The expression stored by map_table_ptes. */
  method TablePte(page: nat) returns (pte: u64)
    requires page < 0x10_0000_0000
    ensures pte == TableEntry(page)
  {
    MakeTablePteValue(page);
    pte := MakeTablePte(0, 0, 0, 0, page);
  }

  /** The expression stored by map_page_ptes, with its constant attributes. */
  method PagePte(page: nat, memAttrIdx: nat, shBits: nat) returns (pte: u64)
    requires page < 0x10_0000_0000
    ensures pte == PageEntry(page, memAttrIdx, shBits)
  {
    MakePagePteValue(page, memAttrIdx, shBits);
    pte := MakePagePte(0, page, MakePagePteLoAttr(memAttrIdx, 1, 0, shBits, 1, 0));
  }

  /** `page_pte` is the index `at` of an entry of the block. */
  method MapPagePtes(mem: array<u64>, at: nat, physPageIdx: nat, numPages: nat,
                     memAttrIdx: nat, shBits: nat)
    requires at + numPages <= mem.Length
    requires physPageIdx + numPages <= 0x10_0000_0000
    modifies mem
    ensures forall k :: 0 <= k < mem.Length ==>
      mem[k] == (if at <= k < at + numPages
                 then PageEntry(physPageIdx + (k - at), memAttrIdx, shBits)
                 else old(mem[k]))
  {
    var pagePte, page := at, physPageIdx;
    for i := 0 to numPages
      invariant pagePte == at + i && page == physPageIdx + i
      invariant forall k :: 0 <= k < mem.Length ==>
        mem[k] == (if at <= k < at + i
                   then PageEntry(physPageIdx + (k - at), memAttrIdx, shBits)
                   else old(mem[k]))
    {
      var pte := PagePte(page, memAttrIdx, shBits);
      mem[pagePte] := pte;
      pagePte := pagePte + 1;
      page := page + 1;
    }
  }

  /** `pt` is the index `at`; `next_level_pte` is the index `next`. */
  method MapTablePtes(mem: array<u64>, at: nat, pteCount: nat, next: nat, cfg: PtConfig)
    requires at + pteCount <= mem.Length
    requires cfg.pageSize == PAGE_GRANULE
    requires (cfg.baseAddress + 8 * next) / 4096 + pteCount <= 0x10_0000_0000
    modifies mem
    ensures forall k :: 0 <= k < mem.Length ==>
      mem[k] == (if at <= k < at + pteCount
                 then TableEntry((cfg.baseAddress + 8 * next) / 4096 + (k - at))
                 else old(mem[k]))
  {
    var first := (cfg.baseAddress + 8 * next) / cfg.pageSize;
    var page := first;
    for i := 0 to pteCount
      invariant page == first + i
      invariant forall k :: 0 <= k < mem.Length ==>
        mem[k] == (if at <= k < at + i then TableEntry(first + (k - at)) else old(mem[k]))
    {
      var pte := TablePte(page);
      mem[at + i] := pte;
      page := page + 1;
    }
  }

  /** The page descriptor that the ranges leave at a level 3 entry, or `init` where none does. */
  function Level3Entry(ranges: seq<MemRange>, page: nat, init: nat): nat {
    if ranges == [] then init
    else
      var r := ranges[|ranges| - 1];
      if Covers(r, page)
      then PageEntry(r.paStartPage + (page - r.vaStartPage), r.memAttrIdx, r.shBits)
      else Level3Entry(ranges[..|ranges| - 1], page, init)
  }

  /** Levels 0 to 2 of the block: each used entry names the page of the next level's area that
      belongs to it, and the rest of the last page of each area is zero. */
  ghost predicate TablesLaid(mem: seq<u64>, basePage: nat, l0: nat, l1: nat, l2: nat) {
    var at2 := 512 + 512 * l0;
    var at3 := at2 + 512 * l1;
    && at3 <= |mem|
    && (forall k :: 0 <= k < 512 ==>
          mem[k] == (if k < l0 then TableEntry(basePage + 1 + k) else 0))
    && (forall k :: 512 <= k < at2 ==>
          mem[k] == (if k - 512 < l1 then TableEntry(basePage + 1 + l0 + (k - 512)) else 0))
    && (forall k :: at2 <= k < at3 ==>
          mem[k] == (if k - at2 < l2 then TableEntry(basePage + 1 + l0 + l1 + (k - at2)) else 0))
  }

  /** The whole content of the block once every level has been written over zeroed memory. */
  ghost predicate Laid(mem: seq<u64>, cfg: PtConfig)
    requires cfg.paStart <= cfg.paEnd
  {
    var l := LayoutOf(cfg);
    var at3 := 512 + 512 * l.l0 + 512 * l.l1;
    && at3 + 512 * l.l2 <= |mem|
    && TablesLaid(mem, cfg.baseAddress / 4096, l.l0, l.l1, l.l2)
    && (forall k :: at3 <= k < at3 + 512 * l.l2 ==>
          mem[k] == Level3Entry(cfg.memRanges, k - at3, 0))
  }

  /** map_linear_range over zeroed table memory; `panicked` is the BUG of line 318. */
  method MapLinearRange(mem: array<u64>, cfg: PtConfig) returns (panicked: bool)
    requires Supported(cfg)
    requires LayoutOf(cfg).Size() <= mem.Length
    requires forall k :: 0 <= k < mem.Length ==> mem[k] == 0
    modifies mem
    ensures panicked <==> cfg.paEnd % 4096 != 0
    ensures panicked ==> mem[..] == old(mem[..])
    ensures !panicked ==> Laid(mem[..], cfg)
    ensures forall k :: LayoutOf(cfg).Size() <= k < mem.Length ==> mem[k] == old(mem[k])
  {
    if cfg.paEnd % cfg.pageSize != 0 {
      return true;
    }
    panicked := false;
    ghost var l := LayoutOf(cfg);
    LayoutIsPaged(cfg);

    var l0, l1, l2, l3, l1Pt, l2Pt, l3Pt := LevelCounts(cfg);
    FinishTables(mem, cfg, l0, l1, l2, l3, l1Pt, l2Pt, l3Pt);
  }

  /** Lines 319-333: entry counts and the start of each level, as indices from the base. */
  method LevelCounts(cfg: PtConfig)
    returns (l0: nat, l1: nat, l2: nat, l3: nat, l1Pt: nat, l2Pt: nat, l3Pt: nat)
    requires Supported(cfg)
    ensures LayoutOf(cfg) == Layout(l0, l1, l2, l3)
    ensures l1Pt == 512 && l2Pt == 512 + 512 * l0 && l3Pt == l2Pt + 512 * l1
  {
    LayoutIsPaged(cfg);
    l3 := Max((cfg.paEnd - cfg.paStart) / cfg.pageSize, 1);
    l2 := Max(DivRoundUp(l3, cfg.entriesPerPt), 1);
    l1 := Max(DivRoundUp(l2, cfg.entriesPerPt), 1);
    l0 := Max(DivRoundUp(l1, cfg.entriesPerPt), 1);
    l1Pt := RoundUpTo(l0, cfg.entriesPerPt);
    l2Pt := l1Pt + RoundUpTo(l1, cfg.entriesPerPt);
    l3Pt := l2Pt + RoundUpTo(l2, cfg.entriesPerPt);
  }

  /** Lines 348-366: the stores of all four levels. */
  method FinishTables(mem: array<u64>, cfg: PtConfig, l0: nat, l1: nat, l2: nat, l3: nat,
                      l1Pt: nat, l2Pt: nat, l3Pt: nat)
    requires cfg.pageSize == PAGE_GRANULE && cfg.baseAddress % 4096 == 0
    requires l1Pt == 512 && l2Pt == 512 + 512 * l0 && l3Pt == l2Pt + 512 * l1
    requires l0 <= 512 && l1 <= 512 * l0 && l2 <= 512 * l1 && l3 <= 512 * l2
    requires l3Pt + 512 * l2 <= mem.Length
    requires cfg.baseAddress / 4096 + 1 + l0 + l1 + l2 <= 0x10_0000_0000
    requires forall r :: r in cfg.memRanges ==> RangeFits(r, l3)
    requires forall k :: 0 <= k < mem.Length ==> mem[k] == 0
    modifies mem
    ensures TablesLaid(mem[..], cfg.baseAddress / 4096, l0, l1, l2)
    ensures forall k :: l3Pt <= k < l3Pt + 512 * l2 ==>
      mem[k] == Level3Entry(cfg.memRanges, k - l3Pt, 0)
    ensures forall k :: l3Pt + 512 * l2 <= k < mem.Length ==> mem[k] == 0
  {
    MapTables(mem, cfg, l0, l1, l2, 0, l1Pt, l2Pt, l3Pt);
    MapRanges(mem, l3Pt, cfg.memRanges, l3, l3Pt + 512 * l2);
  }

  /** The three calls of lines 348-358, in the source's order. */
  method MapTables(mem: array<u64>, cfg: PtConfig, l0: nat, l1: nat, l2: nat,
                   l0Pt: nat, l1Pt: nat, l2Pt: nat, l3Pt: nat)
    requires cfg.pageSize == PAGE_GRANULE && cfg.baseAddress % 4096 == 0
    requires l0Pt == 0 && l1Pt == 512 && l2Pt == 512 + 512 * l0 && l3Pt == l2Pt + 512 * l1
    requires l0 <= 512 && l1 <= 512 * l0 && l2 <= 512 * l1 && l3Pt <= mem.Length
    requires cfg.baseAddress / 4096 + 1 + l0 + l1 + l2 <= 0x10_0000_0000
    requires forall k :: 0 <= k < mem.Length ==> mem[k] == 0
    modifies mem
    ensures var basePage := cfg.baseAddress / 4096;
      forall k :: 0 <= k < mem.Length ==>
        mem[k] == (if k < l0 then TableEntry(basePage + 1 + k)
                   else if l1Pt <= k < l1Pt + l1 then TableEntry(basePage + 1 + l0 + (k - l1Pt))
                   else if l2Pt <= k < l2Pt + l2 then TableEntry(basePage + 1 + l0 + l1 + (k - l2Pt))
                   else 0)
  {
    AreaPage(cfg.baseAddress, 1);
    AreaPage(cfg.baseAddress, 1 + l0);
    AreaPage(cfg.baseAddress, 1 + l0 + l1);
    MapTablePtes(mem, l0Pt, l0, l1Pt, cfg);
    MapTablePtes(mem, l2Pt, l2, l3Pt, cfg);
    MapTablePtes(mem, l1Pt, l1, l2Pt, cfg);
  }

  /** The loop of lines 363-366. */
  method MapRanges(mem: array<u64>, l3Pt: nat, ranges: seq<MemRange>, ghost l3: nat, ghost size: nat)
    requires l3Pt + l3 <= size <= mem.Length
    requires forall r :: r in ranges ==> RangeFits(r, l3)
    requires forall k :: l3Pt <= k < mem.Length ==> mem[k] == 0
    modifies mem
    ensures forall k :: 0 <= k < l3Pt ==> mem[k] == old(mem[k])
    ensures forall k :: l3Pt <= k < size ==> mem[k] == Level3Entry(ranges, k - l3Pt, 0)
    ensures forall k :: size <= k < mem.Length ==> mem[k] == 0
  {
    for i := 0 to |ranges|
      invariant forall k :: 0 <= k < l3Pt ==> mem[k] == old(mem[k])
      invariant forall k :: l3Pt <= k < size ==> mem[k] == Level3Entry(ranges[..i], k - l3Pt, 0)
      invariant forall k :: size <= k < mem.Length ==> mem[k] == 0
    {
      var range := ranges[i];
      assert range in ranges;
      assert ranges[..i + 1][..i] == ranges[..i];
      MapPagePtes(mem, l3Pt + range.vaStartPage, range.paStartPage, range.numPages,
                  range.memAttrIdx, range.shBits);
    }
    assert ranges[..|ranges|] == ranges;
  }

  /** The page number of the n-th page of a page-aligned block. */
  lemma AreaPage(base: nat, n: nat)
    requires base % 4096 == 0
    ensures (base + 8 * (512 * n)) / 4096 == base / 4096 + n
  {
    DivIs(base + 8 * (512 * n), 4096, base / 4096 + n, 0);
  }

  // ----- the walk over the built tables -----------------------------------------------------

  /** The quotients of one address by successive entry spans nest. */
  lemma SpansNest(va: nat)
    requires va < 0x1_0000_0000_0000
    ensures va / EntrySpan(3) == va / 4096
    ensures va / EntrySpan(2) == va / EntrySpan(3) / 512
    ensures va / EntrySpan(1) == va / EntrySpan(2) / 512
    ensures va / EntrySpan(0) == va / EntrySpan(1) / 512
    ensures va / EntrySpan(0) < 512
  {
    DivDiv(va, 0x1000, 512);
    DivDiv(va, 0x20_0000, 512);
    DivDiv(va, 0x4000_0000, 512);
  }

  /** The entry read at one level, when the table is the n-th page of the block. */
  lemma EntryRead(mem: seq<u64>, base: nat, n: nat, level: nat, va: nat)
    requires level <= 3 && base % 4096 == 0 && 512 * n + 512 <= |mem|
    ensures var k := 512 * n + va / EntrySpan(level) % 512;
      var d := mem[k];
      WalkFrom(mem, base, (base / 4096 + n) * 4096, level, va) ==
        (if !IsValid(d) then TranslationFault
         else if level == 3 then
           if !IsTableOrPage(d) then TranslationFault
           else if !ReservedClear(d) then Reserved
           else if !AccessFlag(d) then AccessFlagFault
           else Page(OutputPage(d) * 4096 + va % 4096, AttrIndex(d), Shareability(d), PageRights(d))
         else if !IsTableOrPage(d) then
           if level == 0 then TranslationFault else Block
         else if !ReservedClear(d) then Reserved
         else Limited(d, WalkFrom(mem, base, OutputPage(d) * 4096, level + 1, va)))
  {
    var i := va / EntrySpan(level) % 512;
    var table := (base / 4096 + n) * 4096;
    assert table == base + 4096 * n;
    DivIs(table + 8 * i - base, 8, 512 * n + i, 0);
  }

  /** A page outside every range faults; otherwise the level 3 entry decodes to the translation. */
  lemma {:induction false} EntryDecodes(ranges: seq<MemRange>, l3: nat, va: nat)
    requires forall r :: r in ranges ==> RangeFits(r, l3)
    ensures var d := Level3Entry(ranges, va / 4096, 0);
      Translate(ranges, va) ==
        (if !IsValid(d) then TranslationFault
         else Page(OutputPage(d) * 4096 + va % 4096, AttrIndex(d), Shareability(d), PageRights(d)))
    ensures var d := Level3Entry(ranges, va / 4096, 0);
      IsValid(d) ==> IsTableOrPage(d) && ReservedClear(d) && AccessFlag(d) && va / 4096 < l3
  {
    if ranges != [] {
      var r := ranges[|ranges| - 1];
      assert r in ranges;
      if Covers(r, va / 4096) {
        PageEntryFields(r.paStartPage + (va / 4096 - r.vaStartPage), r.memAttrIdx, r.shBits);
      } else {
        EntryDecodes(ranges[..|ranges| - 1], l3, va);
      }
    }
  }

  /** A used table entry sends the walk to the page it names, an unused one faults. */
  lemma TableStep(mem: seq<u64>, base: nat, n: nat, level: nat, va: nat,
                  used: bool, child: nat, want: Outcome)
    requires level < 3 && base % 4096 == 0 && 512 * n + 512 <= |mem|
    requires mem[512 * n + va / EntrySpan(level) % 512]
          == (if used then TableEntry(base / 4096 + child) else 0)
    requires used ==> base / 4096 + child < 0x10_0000_0000
    requires used ==> WalkFrom(mem, base, (base / 4096 + child) * 4096, level + 1, va) == want
    requires !used ==> want == TranslationFault
    ensures WalkFrom(mem, base, (base / 4096 + n) * 4096, level, va) == want
  {
    hide WalkFrom, PageRights, TableLimits, TableEntry, EntrySpan, OutputPage, ReservedClear, IsTableOrPage;
    EntryRead(mem, base, n, level, va);
    if used {
      TableEntryFields(base / 4096 + child);
      if want.Page? {
        TableEntryLimits(base / 4096 + child, want.rights);
      }
    }
  }

  /** The walk below a used level 2 entry. */
  lemma WalkLevel3(mem: seq<u64>, base: nat, n: nat, ranges: seq<MemRange>, l3: nat, va: nat)
    requires base % 4096 == 0 && 512 * n + 512 <= |mem|
    requires forall r :: r in ranges ==> RangeFits(r, l3)
    requires mem[512 * n + va / 4096 % 512] == Level3Entry(ranges, va / 4096, 0)
    ensures WalkFrom(mem, base, (base / 4096 + n) * 4096, 3, va) == Translate(ranges, va)
  {
    EntryRead(mem, base, n, 3, va);
    EntryDecodes(ranges, l3, va);
  }

  /** An address above every range translates to a fault. */
  lemma {:induction false} AboveFaults(ranges: seq<MemRange>, l3: nat, va: nat)
    requires forall r :: r in ranges ==> RangeFits(r, l3)
    requires va / 4096 >= l3
    ensures Translate(ranges, va) == TranslationFault
  {
    if ranges != [] {
      assert ranges[|ranges| - 1] in ranges;
      AboveFaults(ranges[..|ranges| - 1], l3, va);
    }
  }

  /** The entry of table page n at the low nine bits of q is entry q of an area that starts
      q / 512 pages before page n. */
  lemma AreaIndex(n: nat, q: nat)
    ensures 512 * (n + q / 512) + q % 512 == 512 * n + q
  {
  }

  /** Walk correctness: over the built block, every 48-bit address translates exactly as its
      range asks, and an address in no range faults. */
  lemma WalkTranslates(mem: seq<u64>, cfg: PtConfig, va: nat)
    requires Supported(cfg) && Laid(mem, cfg)
    requires va < 0x1_0000_0000_0000
    ensures Walk(mem, cfg.baseAddress, va) == Translate(cfg.memRanges, va)
  {
    var l := LayoutOf(cfg);
    LayoutIsPaged(cfg);
    SpansNest(va);
    var q0, q1, q2 := va / EntrySpan(0), va / EntrySpan(1), va / EntrySpan(2);
    if va / 4096 >= l.l3 {
      AboveFaults(cfg.memRanges, l.l3, va);
    }
    assert q2 >= l.l2 ==> va / 4096 >= l.l3;
    assert q1 >= l.l1 ==> q2 >= l.l2;
    assert q0 >= l.l0 ==> q1 >= l.l1;
    WalkAreas(mem, cfg.baseAddress, l.l0, l.l1, l.l2, l.l3, cfg.memRanges, va, q0, q1, q2);
  }

  lemma WalkAreas(mem: seq<u64>, base: nat, l0: nat, l1: nat, l2: nat, l3: nat,
                  ranges: seq<MemRange>, va: nat, q0: nat, q1: nat, q2: nat)
    requires base % 4096 == 0 && base / 4096 + 1 + l0 + l1 + l2 <= 0x10_0000_0000
    requires 512 + 512 * l0 + 512 * l1 + 512 * l2 <= |mem|
    requires TablesLaid(mem, base / 4096, l0, l1, l2)
    requires l0 <= 512 && l1 <= 512 * l0 && l2 <= 512 * l1 && l3 <= 512 * l2
    requires forall k {:trigger mem[k]} ::
      512 + 512 * l0 + 512 * l1 <= k < 512 + 512 * l0 + 512 * l1 + 512 * l2 ==>
        mem[k] == Level3Entry(ranges, k - (512 + 512 * l0 + 512 * l1), 0)
    requires forall r :: r in ranges ==> RangeFits(r, l3)
    requires q0 == va / EntrySpan(0) && q1 == va / EntrySpan(1) && q2 == va / EntrySpan(2)
    requires q0 < 512 && q0 == q1 / 512 && q1 == q2 / 512 && q2 == va / 4096 / 512
    requires q2 >= l2 ==> Translate(ranges, va) == TranslationFault
    requires q1 >= l1 ==> q2 >= l2
    requires q0 >= l0 ==> q1 >= l1
    ensures Walk(mem, base, va) == Translate(ranges, va)
  {
    hide TableEntry, Level3Entry, Translate, Walk, EntrySpan;
    AreaIndex(0, q0);
    AreaIndex(1, q1);
    AreaIndex(1 + l0, q2);
    AreaIndex(1 + l0 + l1, va / 4096);
    WalkChain(mem, base, l0, l1, l2, l3, ranges, va, q0, q1, q2);
  }

  /** The walk, given the (at most four) entries it reads. */
  lemma WalkChain(mem: seq<u64>, base: nat, l0: nat, l1: nat, l2: nat, l3: nat,
                  ranges: seq<MemRange>, va: nat, q0: nat, q1: nat, q2: nat)
    requires base % 4096 == 0 && base / 4096 + 1 + l0 + l1 + l2 <= 0x10_0000_0000
    requires 512 + 512 * l0 + 512 * l1 + 512 * l2 <= |mem|
    requires forall r :: r in ranges ==> RangeFits(r, l3)
    requires q0 == va / EntrySpan(0) && q1 == va / EntrySpan(1) && q2 == va / EntrySpan(2)
    requires q2 >= l2 ==> Translate(ranges, va) == TranslationFault
    requires q1 >= l1 ==> q2 >= l2
    requires q0 >= l0 ==> q1 >= l1
    requires mem[q0 % 512] == (if q0 < l0 then TableEntry(base / 4096 + 1 + q0) else 0)
    requires q0 < l0 ==>
      mem[512 * (1 + q0) + q1 % 512] == (if q1 < l1 then TableEntry(base / 4096 + 1 + l0 + q1) else 0)
    requires q1 < l1 ==>
      mem[512 * (1 + l0 + q1) + q2 % 512]
        == (if q2 < l2 then TableEntry(base / 4096 + 1 + l0 + l1 + q2) else 0)
    requires q2 < l2 ==>
      mem[512 * (1 + l0 + l1 + q2) + va / 4096 % 512] == Level3Entry(ranges, va / 4096, 0)
    ensures Walk(mem, base, va) == Translate(ranges, va)
  {
    var want := Translate(ranges, va);
    if q1 < l1 {
      WalkLevel2(mem, base, 1 + l0 + q1, 1 + l0 + l1 + q2, l3, ranges, va, q2 < l2);
    }
    WalkTop(mem, base, 1 + q0, 1 + l0 + q1, va, q0 < l0, q1 < l1, want);
  }

  lemma WalkLevel2(mem: seq<u64>, base: nat, n: nat, child: nat, l3: nat,
                   ranges: seq<MemRange>, va: nat, used: bool)
    requires base % 4096 == 0 && 512 * n + 512 <= |mem|
    requires forall r :: r in ranges ==> RangeFits(r, l3)
    requires mem[512 * n + va / EntrySpan(2) % 512]
          == (if used then TableEntry(base / 4096 + child) else 0)
    requires used ==> base / 4096 + child < 0x10_0000_0000 && 512 * child + 512 <= |mem|
    requires used ==> mem[512 * child + va / 4096 % 512] == Level3Entry(ranges, va / 4096, 0)
    requires !used ==> Translate(ranges, va) == TranslationFault
    ensures WalkFrom(mem, base, (base / 4096 + n) * 4096, 2, va) == Translate(ranges, va)
  {
    if used {
      WalkLevel3(mem, base, child, ranges, l3, va);
    }
    TableStep(mem, base, n, 2, va, used, child, Translate(ranges, va));
  }

  lemma WalkTop(mem: seq<u64>, base: nat, n1: nat, n2: nat, va: nat,
                used0: bool, used1: bool, want: Outcome)
    requires base % 4096 == 0 && 512 <= |mem|
    requires mem[va / EntrySpan(0) % 512] == (if used0 then TableEntry(base / 4096 + n1) else 0)
    requires used0 ==> base / 4096 + n1 < 0x10_0000_0000 && 512 * n1 + 512 <= |mem|
    requires used0 ==>
      mem[512 * n1 + va / EntrySpan(1) % 512]
        == (if used1 then TableEntry(base / 4096 + n2) else 0)
    requires used1 ==> used0 && base / 4096 + n2 < 0x10_0000_0000
    requires used1 ==> WalkFrom(mem, base, (base / 4096 + n2) * 4096, 2, va) == want
    requires !used1 ==> want == TranslationFault
    ensures Walk(mem, base, va) == want
  {
    hide TableEntry, WalkFrom, EntrySpan;
    DivIs(base, 4096, base / 4096 + 0, 0);
    if used0 {
      TableStep(mem, base, n1, 1, va, used1, n2, want);
    }
    TableStep(mem, base, 0, 0, va, used0, n1, want);
  }

  // ----- the shipped configuration ----------------------------------------------------------

  const PERIPHERAL_ADDR_RANGE_START: nat := 0x3f00_0000
  const PERIPHERAL_ADDR_RANGE_END: nat := 0x4000_0000
  const LOCAL_PERIPH_ADDR_START: nat := 0x4000_0000
  const LOCAL_PERIPH_ADDR_END: nat := 0x4000_2000
  const SH_BITS_OUTER_SHAREABLE: nat := 2
  const MEMATTR_IDX_NORMAL: nat := 0
  const MEMATTR_IDX_DEV_NGNRE: nat := 1
  const MEMATTR_IDX_NORMAL2: nat := 2
  const MEMATTR_IDX_MMIO: nat := 3

  /** The attribute bytes mmu_init puts in MAIR_EL1: 0xff is normal write-back memory, 0x04 is
      Device-nGnRE. */
  const MAIR: seq<nat> := [0xff, 0x04, 0xff, 0x04, 0, 0, 0, 0]

  function IdentityRange(start: nat, num: nat, attrIdx: nat): MemRange {
    MemRange(start, start, num, attrIdx, SH_BITS_OUTER_SHAREABLE)
  }

  /** The shipped memory map: the identity up to the end of the local peripherals. */
  function InitMap(dmaStart: nat, dmaEnd: nat, va: nat): Outcome {
    if va >= LOCAL_PERIPH_ADDR_END then TranslationFault
    else
      var rights := Rights(true, 0, false, false, false, false);
      if va / 4096 < dmaStart / 4096 then Page(va, MEMATTR_IDX_NORMAL, 2, rights)
      else if va / 4096 < dmaEnd / 4096 then Page(va, MEMATTR_IDX_MMIO, 2, rights)
      else if va < PERIPHERAL_ADDR_RANGE_START then Page(va, MEMATTR_IDX_NORMAL2, 2, rights)
      else Page(va, MEMATTR_IDX_DEV_NGNRE, 2, rights)
  }

  /** How many ranges cover a page. */
  function CoverCount(ranges: seq<MemRange>, page: nat): nat {
    if ranges == [] then 0
    else CoverCount(ranges[..|ranges| - 1], page)
         + (if Covers(ranges[|ranges| - 1], page) then 1 else 0)
  }

  /** mmu_init, for DMA bounds below the peripherals. */
  method MmuInit(mem: array<u64>, base: nat, dmaStart: nat, dmaEnd: nat)
    returns (cfg: PtConfig, panicked: bool)
    requires dmaStart <= dmaEnd <= PERIPHERAL_ADDR_RANGE_START
    requires base % 4096 == 0 && base / 4096 + 517 <= 0x10_0000_0000
    requires mem.Length >= 512 * 517
    requires forall k :: 0 <= k < mem.Length ==> mem[k] == 0
    modifies mem
    ensures !panicked
    ensures forall va :: 0 <= va < 0x1_0000_0000_0000 ==>
      Walk(mem[..], base, va) == InitMap(dmaStart, dmaEnd, va)
    ensures forall page :: 0 <= page < LOCAL_PERIPH_ADDR_END / 4096 ==>
      CoverCount(cfg.memRanges, page) == 1
  {
    hide Walk, Translate, InitMap, CoverCount, Laid, Supported, LayoutOf;
    var pgNormOff := 0;
    var pgNormNum := dmaStart / PAGE_GRANULE;
    var pgDmaOff := pgNormNum;
    var pgDmaNum := dmaEnd / PAGE_GRANULE - pgDmaOff;
    var pgSharOff := pgDmaOff + pgDmaNum;
    var pgSharNum := PERIPHERAL_ADDR_RANGE_START / PAGE_GRANULE - pgSharOff;
    var pgPeriOff := PERIPHERAL_ADDR_RANGE_START / PAGE_GRANULE;
    var pgPeriNum := (PERIPHERAL_ADDR_RANGE_END - PERIPHERAL_ADDR_RANGE_START) / PAGE_GRANULE;
    var pgLoclOff := LOCAL_PERIPH_ADDR_START / PAGE_GRANULE;
    var pgLoclNum := (LOCAL_PERIPH_ADDR_END - LOCAL_PERIPH_ADDR_START) / PAGE_GRANULE;
    var ranges: seq<MemRange> := [
      IdentityRange(pgNormOff, pgNormNum, MEMATTR_IDX_NORMAL),
      IdentityRange(pgDmaOff, pgDmaNum, MEMATTR_IDX_MMIO),
      IdentityRange(pgSharOff, pgSharNum, MEMATTR_IDX_NORMAL2),
      IdentityRange(pgPeriOff, pgPeriNum, MEMATTR_IDX_DEV_NGNRE),
      IdentityRange(pgLoclOff, pgLoclNum, MEMATTR_IDX_DEV_NGNRE)];
    cfg := PtConfig(base, PAGE_GRANULE, PTES_PER_LEVEL, 0, LOCAL_PERIPH_ADDR_END, ranges);
    InitLayout(cfg);
    InitSupported(cfg, dmaStart / 4096, dmaEnd / 4096);
    panicked := MapLinearRange(mem, cfg);
    forall va | 0 <= va < 0x1_0000_0000_0000
      ensures Walk(mem[..], base, va) == InitMap(dmaStart, dmaEnd, va)
    {
      InitWalk(mem[..], cfg, dmaStart, dmaEnd, va);
    }
    forall page | 0 <= page < LOCAL_PERIPH_ADDR_END / 4096
      ensures CoverCount(ranges, page) == 1
    {
      InitTiles(ranges, dmaStart / 4096, dmaEnd / 4096, page);
    }
  }

  lemma InitWalk(mem: seq<u64>, cfg: PtConfig, dmaStart: nat, dmaEnd: nat, va: nat)
    requires Supported(cfg) && Laid(mem, cfg) && va < 0x1_0000_0000_0000
    requires IsInitRanges(cfg.memRanges, dmaStart / 4096, dmaEnd / 4096)
    ensures Walk(mem, cfg.baseAddress, va) == InitMap(dmaStart, dmaEnd, va)
  {
    WalkTranslates(mem, cfg, va);
    InitTranslate(cfg.memRanges, dmaStart / 4096, dmaEnd / 4096, va);
    hide Walk, Translate, Laid, Supported, IsInitRanges;
    DivIs(dmaStart / 4096 * 4096, 4096, dmaStart / 4096, 0);
    DivIs(dmaEnd / 4096 * 4096, 4096, dmaEnd / 4096, 0);
  }

  lemma InitLayout(cfg: PtConfig)
    requires cfg.paStart == 0 && cfg.paEnd == LOCAL_PERIPH_ADDR_END
    ensures LayoutOf(cfg) == Layout(1, 2, 513, 0x40002)
    ensures LayoutOf(cfg).Size() == 512 * 517
  {
  }

  lemma InitSupported(cfg: PtConfig, d0: nat, d1: nat)
    requires cfg.pageSize == PAGE_GRANULE && cfg.entriesPerPt == PTES_PER_LEVEL
    requires cfg.paStart == 0 && cfg.paEnd == LOCAL_PERIPH_ADDR_END
    requires cfg.baseAddress % 4096 == 0 && cfg.baseAddress / 4096 + 517 <= 0x10_0000_0000
    requires IsInitRanges(cfg.memRanges, d0, d1)
    ensures Supported(cfg)
  {
    InitLayout(cfg);
  }

  /** The five ranges of mmu_init, as page numbers. */
  ghost predicate IsInitRanges(ranges: seq<MemRange>, d0: nat, d1: nat) {
    && d0 <= d1 <= 0x3f000
    && |ranges| == 5
    && ranges[0] == IdentityRange(0, d0, MEMATTR_IDX_NORMAL)
    && ranges[1] == IdentityRange(d0, d1 - d0, MEMATTR_IDX_MMIO)
    && ranges[2] == IdentityRange(d1, 0x3f000 - d1, MEMATTR_IDX_NORMAL2)
    && ranges[3] == IdentityRange(0x3f000, 0x1000, MEMATTR_IDX_DEV_NGNRE)
    && ranges[4] == IdentityRange(0x40000, 2, MEMATTR_IDX_DEV_NGNRE)
  }

  lemma InitPrefixes(ranges: seq<MemRange>)
    requires |ranges| == 5
    ensures ranges[..4][..3] == ranges[..3] && ranges[..3][..2] == ranges[..2]
    ensures ranges[..2][..1] == ranges[..1] && ranges[..1][..0] == []
  {
  }

  lemma InitTranslate(ranges: seq<MemRange>, d0: nat, d1: nat, va: nat)
    requires IsInitRanges(ranges, d0, d1)
    ensures Translate(ranges, va) == InitMap(d0 * 4096, d1 * 4096, va)
  {
    InitPrefixes(ranges);
    var p, rights := va / 4096, Rights(true, 0, false, false, false, false);
    assert va == p * 4096 + va % 4096;
    assert ranges[..1][0] == ranges[0] && Translate(ranges[..1][..0], va) == TranslationFault;
    var t1 := Translate(ranges[..1], va);
    assert t1 == if p < d0 then Page(va, 0, 2, rights) else TranslationFault;
    var t2 := Translate(ranges[..2], va);
    assert t2 == if d0 <= p < d1 then Page(va, 3, 2, rights) else t1;
    var t3 := Translate(ranges[..3], va);
    assert t3 == if d1 <= p < 0x3f000 then Page(va, 2, 2, rights) else t2;
    var t4 := Translate(ranges[..4], va);
    assert t4 == if 0x3f000 <= p < 0x40000 then Page(va, 1, 2, rights) else t3;
  }

  lemma InitTiles(ranges: seq<MemRange>, d0: nat, d1: nat, page: nat)
    requires IsInitRanges(ranges, d0, d1)
    ensures CoverCount(ranges, page) == if page < LOCAL_PERIPH_ADDR_END / 4096 then 1 else 0
  {
    InitPrefixes(ranges);
    assert ranges[..1][0] == ranges[0] && CoverCount(ranges[..1][..0], page) == 0;
    var c1 := CoverCount(ranges[..1], page);
    assert c1 == if page < d0 then 1 else 0;
    var c2 := CoverCount(ranges[..2], page);
    assert c2 == c1 + if d0 <= page < d1 then 1 else 0;
    var c3 := CoverCount(ranges[..3], page);
    assert c3 == c2 + if d1 <= page < 0x3f000 then 1 else 0;
    var c4 := CoverCount(ranges[..4], page);
    assert c4 == c3 + if 0x3f000 <= page < 0x40000 then 1 else 0;
  }

  /** For page-aligned DMA bounds, the shipped map is the identity below 0x40002000, gives the device
      attribute byte exactly to the DMA memory and the peripherals, and lets EL1 read, write and
      execute every mapped page; everything above faults. */
  lemma InitMapAttributes(dmaStart: nat, dmaEnd: nat, va: nat)
    requires dmaStart <= dmaEnd <= 0x3f00_0000
    requires dmaStart % 4096 == 0 && dmaEnd % 4096 == 0
    ensures var o := InitMap(dmaStart, dmaEnd, va);
      if va >= 0x4000_2000 then o == TranslationFault
      else
        && o.Page? && o.pa == va && o.sh == 2 && o.attrIdx < 8
        && MAIR[o.attrIdx] == (if dmaStart <= va < dmaEnd || 0x3f00_0000 <= va then 0x04 else 0xff)
        && o.rights.Writable() && o.rights.Executable() && !o.rights.UserData()
        && o.rights.nonSecure && !o.rights.notGlobal && !o.rights.contiguous
  {
    assert va / 4096 < dmaStart / 4096 <==> va < dmaStart;
    assert va / 4096 < dmaEnd / 4096 <==> va < dmaEnd;
  }
}
