/** One USB endpoint register EPnR (section 30.6.2 of RM0091), twice: as the 16-bit word the
    peripheral model computes on, and as the fields that word means.  The lemmas say that each
    word operation is the field operation, so the rest of the project can work on fields. */
module EndpointRegister {

  const CTR_RX: bv16 := 0x8000
  const DTOG_RX: bv16 := 0x4000
  const STAT_RX: bv16 := 0x3000
  const SETUP: bv16 := 0x0800
  const CTR_TX: bv16 := 0x0080
  const DTOG_TX: bv16 := 0x0040
  const STAT_TX: bv16 := 0x0030
  const TOGGLE_MASK: bv16 := 0x7070
  const W0C_MASK: bv16 := 0x8080
  const RW_MASK: bv16 := 0x070F

  // ----- the word operations -----

  /** A CPU write: toggle fields are XORed, CTR flags can only be cleared, SETUP is kept. */
  function WriteWord(cur: bv16, value: bv16): bv16 {
    ((cur & TOGGLE_MASK) ^ (value & TOGGLE_MASK))
    | ((cur & W0C_MASK) & (value & W0C_MASK))
    | (value & RW_MASK)
    | (cur & SETUP)
  }

  /** A packet arrived: set CTR_RX, set or clear SETUP, leave STAT_RX at NAK. */
  function RaiseRxWord(cur: bv16, setup: bool): bv16 {
    var flagged := cur | CTR_RX;
    var marked := if setup then flagged | SETUP else flagged & !SETUP;
    (marked & !STAT_RX) | 0x2000
  }

  /** A packet was taken: set CTR_TX, leave STAT_TX at NAK. */
  function RaiseTxWord(cur: bv16): bv16 {
    ((cur | CTR_TX) & !STAT_TX) | 0x0020
  }

  // ----- the fields -----

  datatype Stat = Disabled | Stall | Nak | Valid

  datatype Epr = Epr(
    ctrRx: bool, dtogRx: bool, statRx: Stat, setup: bool,
    ctrTx: bool, dtogTx: bool, statTx: Stat, plain: bv16)
  {
    /** The device still owes its interrupt handler a pass on this endpoint. */
    predicate Busy() {
      ctrRx || ctrTx
    }
  }

  const CLEARED := Epr(false, false, Disabled, false, false, false, Disabled, 0)

  function StatOf(high: bool, low: bool): Stat {
    if high then (if low then Valid else Nak) else (if low then Stall else Disabled)
  }

  function High(s: Stat): bool { s.Nak? || s.Valid? }
  function Low(s: Stat): bool { s.Stall? || s.Valid? }

  /** What writing `t` to a toggle field holding `s` leaves there. */
  function Toggled(s: Stat, t: Stat): Stat {
    StatOf(High(s) != High(t), Low(s) != Low(t))
  }

  function Decode(w: bv16): Epr {
    Epr(w & CTR_RX != 0, w & DTOG_RX != 0, StatOf(w & 0x2000 != 0, w & 0x1000 != 0), w & SETUP != 0,
        w & CTR_TX != 0, w & DTOG_TX != 0, StatOf(w & 0x0020 != 0, w & 0x0010 != 0), w & RW_MASK)
  }

  function WriteFields(cur: Epr, value: Epr): Epr {
    Epr(cur.ctrRx && value.ctrRx, cur.dtogRx != value.dtogRx, Toggled(cur.statRx, value.statRx), cur.setup,
        cur.ctrTx && value.ctrTx, cur.dtogTx != value.dtogTx, Toggled(cur.statTx, value.statTx), value.plain)
  }

  function RaiseRx(cur: Epr, setup: bool): Epr {
    cur.(ctrRx := true, setup := setup, statRx := Nak)
  }

  function RaiseTx(cur: Epr): Epr {
    cur.(ctrTx := true, statTx := Nak)
  }

  // ----- the words refine the fields -----

  lemma ToggledBits(h: bool, l: bool, h': bool, l': bool)
    ensures Toggled(StatOf(h, l), StatOf(h', l')) == StatOf(h != h', l != l')
  {
  }

  /** Each toggled bit of a write is the exclusive or of the old bit and the written one. */
  lemma TogglesRx(cur: bv16, v: bv16)
    ensures (WriteWord(cur, v) & 0x2000 != 0) == ((cur & 0x2000 != 0) != (v & 0x2000 != 0))
    ensures (WriteWord(cur, v) & 0x1000 != 0) == ((cur & 0x1000 != 0) != (v & 0x1000 != 0))
  {
  }

  lemma TogglesTx(cur: bv16, v: bv16)
    ensures (WriteWord(cur, v) & 0x0020 != 0) == ((cur & 0x0020 != 0) != (v & 0x0020 != 0))
    ensures (WriteWord(cur, v) & 0x0010 != 0) == ((cur & 0x0010 != 0) != (v & 0x0010 != 0))
  {
  }

  lemma WriteStatRx(cur: bv16, v: bv16)
    ensures Decode(WriteWord(cur, v)).statRx == Toggled(Decode(cur).statRx, Decode(v).statRx)
  {
    TogglesRx(cur, v);
    ToggledBits(cur & 0x2000 != 0, cur & 0x1000 != 0, v & 0x2000 != 0, v & 0x1000 != 0);
  }

  lemma WriteStatTx(cur: bv16, v: bv16)
    ensures Decode(WriteWord(cur, v)).statTx == Toggled(Decode(cur).statTx, Decode(v).statTx)
  {
    TogglesTx(cur, v);
    ToggledBits(cur & 0x0020 != 0, cur & 0x0010 != 0, v & 0x0020 != 0, v & 0x0010 != 0);
  }

  lemma WriteDataToggles(cur: bv16, v: bv16)
    ensures Decode(WriteWord(cur, v)).dtogRx == (Decode(cur).dtogRx != Decode(v).dtogRx)
    ensures Decode(WriteWord(cur, v)).dtogTx == (Decode(cur).dtogTx != Decode(v).dtogTx)
  {
  }

  lemma WriteFlags(cur: bv16, v: bv16)
    ensures Decode(WriteWord(cur, v)).ctrRx == (Decode(cur).ctrRx && Decode(v).ctrRx)
    ensures Decode(WriteWord(cur, v)).ctrTx == (Decode(cur).ctrTx && Decode(v).ctrTx)
  {
  }

  lemma WritePlain(cur: bv16, v: bv16)
    ensures Decode(WriteWord(cur, v)).setup == Decode(cur).setup
    ensures Decode(WriteWord(cur, v)).plain == Decode(v).plain
  {
  }

  /** Fields that agree one by one with those of a write are those of the write. */
  lemma FieldsAgree(r: Epr, cur: Epr, v: Epr)
    requires r.ctrRx == (cur.ctrRx && v.ctrRx) && r.ctrTx == (cur.ctrTx && v.ctrTx)
    requires r.setup == cur.setup && r.plain == v.plain
    requires r.dtogRx == (cur.dtogRx != v.dtogRx) && r.dtogTx == (cur.dtogTx != v.dtogTx)
    requires r.statRx == Toggled(cur.statRx, v.statRx) && r.statTx == Toggled(cur.statTx, v.statTx)
    ensures r == WriteFields(cur, v)
  {
  }

  lemma WriteRefines(cur: bv16, value: bv16)
    ensures Decode(WriteWord(cur, value)) == WriteFields(Decode(cur), Decode(value))
  {
    WriteStatRx(cur, value);
    WriteStatTx(cur, value);
    WriteDataToggles(cur, value);
    WriteFlags(cur, value);
    WritePlain(cur, value);
    FieldsAgree(Decode(WriteWord(cur, value)), Decode(cur), Decode(value));
  }

  lemma RaiseRxSets(cur: bv16, setup: bool)
    ensures RaiseRxWord(cur, setup) & 0x8000 != 0
    ensures RaiseRxWord(cur, setup) & 0x2000 != 0
    ensures RaiseRxWord(cur, setup) & 0x1000 == 0
    ensures RaiseRxWord(cur, setup) & 0x0800 != 0 <==> setup
  {
  }

  lemma RaiseRxKeeps(cur: bv16, setup: bool)
    ensures RaiseRxWord(cur, setup) & 0x47FF == cur & 0x47FF
  {
  }

  lemma RaiseRxRefines(cur: bv16, setup: bool)
    ensures Decode(RaiseRxWord(cur, setup)) == RaiseRx(Decode(cur), setup)
  {
    RaiseRxSets(cur, setup);
    RaiseRxKeeps(cur, setup);
    SameBits(RaiseRxWord(cur, setup), cur);
  }

  /** Words that agree outside CTR_RX, STAT_RX and SETUP have the same remaining fields. */
  lemma SameBits(a: bv16, b: bv16)
    requires a & 0x47FF == b & 0x47FF
    ensures a & 0x4000 == b & 0x4000 && a & 0x0080 == b & 0x0080 && a & 0x0040 == b & 0x0040
    ensures a & 0x0020 == b & 0x0020 && a & 0x0010 == b & 0x0010 && a & 0x070F == b & 0x070F
  {
  }

  lemma RaiseTxRefines(cur: bv16)
    ensures Decode(RaiseTxWord(cur)) == RaiseTx(Decode(cur))
  {
  }

  // ----- what a firmware's writes are for -----

  /** Reading a register, XORing in the toggle fields wanted, and writing 1 to both CTR flags sets
      those fields and the plain ones as wanted, and nothing else. */
  lemma ReadXorWrite(cur: bv16, want: bv16)
    ensures var w := WriteWord(cur, ((cur ^ want) & 0x7070) | (want & 0x070F) | 0x8080);
            w & 0x7070 == want & 0x7070 && w & 0x070F == want & 0x070F && w & 0x8880 == cur & 0x8880
  {
  }

  /** Writing the plain fields back, 0 to one CTR flag, 1 to the other and 0 to every toggle field
      acknowledges that one flag, and nothing else. */
  lemma WriteAcknowledges(cur: bv16)
    ensures WriteWord(cur, (cur & 0x070F) | 0x0080) == cur & 0x7FFF
    ensures WriteWord(cur, (cur & 0x070F) | 0x8000) == cur & 0xFF7F
  {
  }

  /** The fields determine the word. */
  lemma DecodeInjective(a: bv16, b: bv16)
    requires Decode(a) == Decode(b)
    ensures a == b
  {
  }

  /** Only the zero word has all fields cleared. */
  lemma ClearedIsZero(w: bv16)
    ensures Decode(w) == CLEARED <==> w == 0
  {
    assert Decode(0) == CLEARED;
    if Decode(w) == CLEARED { DecodeInjective(w, 0); }
  }

  function StatNumber(s: Stat): bv16 {
    match s case Disabled => 0 case Stall => 1 case Nak => 2 case Valid => 3
  }

  /** The two-bit status the register model reads with a mask and a shift. */
  lemma StatReads(w: bv16, s: Stat)
    ensures Decode(w).statRx == s <==> (w & STAT_RX) >> 12 == StatNumber(s)
    ensures Decode(w).statTx == s <==> (w & STAT_TX) >> 4 == StatNumber(s)
  {
  }
}
