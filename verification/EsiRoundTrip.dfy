/** The ESI reader recovers every well-formed catalog from its canonical document. */
module EsiRoundTrip {
  import opened Machine
  import opened EsiModel
  import opened EsiParser
  import opened EsiInvariant

  /** Texts for the scalar values of a catalog. */
  datatype Encoder = Encoder(
    u8Text: u8 -> string, u16Text: u16 -> string, u32Text: u32 -> string, i16Text: i16 -> string, i32Text: i32 -> string,
    boolText: bool -> string, dataTypeText: DataType -> string, fmmuText: FmmuUsage -> string,
    timeoutText: u64 -> string)

  // ---------------------------------------------------- the canonical document

  function Leaf(tag: Tag, a: Attrs, text: string): seq<Event> { [Start(tag, a), Text(text), End(tag)] }

  function Element(tag: Tag, a: Attrs, body: seq<Event>): seq<Event> { [Start(tag, a)] + body + [End(tag)] }

  function EntryBody(enc: Encoder, e: EsiEntry): seq<Event> {
    Leaf(Index, NO_ATTRS, enc.u16Text(e.index)) + (Leaf(SubIndex, NO_ATTRS, enc.u8Text(e.subindex))
    + (Leaf(BitLen, NO_ATTRS, enc.u8Text(e.bitLength)) + (Leaf(Name, NO_ATTRS, e.name)
    + Leaf(DataTypeTag, NO_ATTRS, enc.dataTypeText(e.dataType)))))
  }

  function EntryDoc(enc: Encoder, e: EsiEntry): seq<Event> { Element(Entry, NO_ATTRS, EntryBody(enc, e)) }

  function EntriesDoc(enc: Encoder, es: seq<EsiEntry>): seq<Event> {
    if es == [] then [] else EntriesDoc(enc, es[..|es| - 1]) + EntryDoc(enc, es[|es| - 1])
  }

  function Attr<T>(text: T -> string, value: Option<T>): Option<string> {
    if value.Some? then Some(text(value.value)) else None
  }

  function PdoTag(d: PdoDirection): Tag { if d == Rx then RxPdo else TxPdo }

  function PdoDoc(enc: Encoder, d: PdoDirection, p: EsiPdo): seq<Event> {
    Element(PdoTag(d), NO_ATTRS.(sm := Attr(enc.u8Text, p.syncManager)),
            Leaf(Index, NO_ATTRS, enc.u16Text(p.index)) + EntriesDoc(enc, p.entries))
  }

  function PdosDoc(enc: Encoder, d: PdoDirection, ps: seq<EsiPdo>): seq<Event> {
    if ps == [] then [] else PdosDoc(enc, d, ps[..|ps| - 1]) + PdoDoc(enc, d, ps[|ps| - 1])
  }

  function ManagerDoc(enc: Encoder, m: EsiSyncManager): seq<Event> {
    Leaf(Sm, NO_ATTRS.(enable := Some(enc.boolText(m.enabled)), opOnly := Some(enc.boolText(m.opOnly)),
                       startAddress := Attr(enc.u16Text, m.startAddress),
                       defaultSize := Attr(enc.u16Text, m.defaultSize),
                       controlByte := Attr(enc.u8Text, m.controlByte)), m.direction)
  }

  function ManagersDoc(enc: Encoder, ms: seq<EsiSyncManager>): seq<Event> {
    if ms == [] then [] else ManagersDoc(enc, ms[..|ms| - 1]) + ManagerDoc(enc, ms[|ms| - 1])
  }

  function FmmusDoc(enc: Encoder, us: seq<FmmuUsage>): seq<Event> {
    if us == [] then []
    else FmmusDoc(enc, us[..|us| - 1]) + Leaf(Fmmu, NO_ATTRS, enc.fmmuText(us[|us| - 1]))
  }

  function DescDoc(d: Option<string>): seq<Event> {
    if d.Some? then Leaf(Desc, NO_ATTRS, d.value) else []
  }

  function Factor(enc: Encoder, f: i16): Attrs { NO_ATTRS.(factor := Some(enc.i16Text(f))) }

  function ModeHead(enc: Encoder, m: EsiDcMode, rest: seq<Event>): seq<Event> {
    Leaf(Name, NO_ATTRS, m.name) + (DescDoc(m.description)
    + (Leaf(AssignActivate, NO_ATTRS, enc.u16Text(m.assignActivate)) + rest))
  }

  function ModeTimes(enc: Encoder, m: EsiDcMode): seq<Event> {
    Leaf(CycleTimeSync0, Factor(enc, m.sync0Factor), enc.u32Text(m.cycleTime0))
    + (Leaf(ShiftTimeSync0, NO_ATTRS, enc.i32Text(m.shiftTime0))
    + (Leaf(CycleTimeSync1, Factor(enc, m.sync1Factor), enc.u32Text(0))
    + Leaf(ShiftTimeSync1, NO_ATTRS, enc.i32Text(m.shiftTime1))))
  }

  function ModeBody(enc: Encoder, m: EsiDcMode): seq<Event> { ModeHead(enc, m, ModeTimes(enc, m)) }

  function ModesDoc(enc: Encoder, ms: seq<EsiDcMode>): seq<Event> {
    if ms == [] then []
    else ModesDoc(enc, ms[..|ms| - 1]) + Element(OpMode, NO_ATTRS, ModeBody(enc, ms[|ms| - 1]))
  }

  /** Only timeouts that differ from the defaults are written. */
  function TimeoutDoc(enc: Encoder, tag: Tag, default: u64, value: u64): seq<Event> {
    if value == default then [] else Leaf(tag, NO_ATTRS, enc.timeoutText(value))
  }

  function TimeoutsBody(enc: Encoder, base: Timeouts, t: Timeouts): seq<Event> {
    TimeoutDoc(enc, PreopTimeout, base.preopNs, t.preopNs)
    + (TimeoutDoc(enc, SafeopOpTimeout, base.safeopToOpNs, t.safeopToOpNs)
    + (TimeoutDoc(enc, BackToInitTimeout, base.backToInitNs, t.backToInitNs)
    + TimeoutDoc(enc, BackToSafeopTimeout, base.backToSafeopNs, t.backToSafeopNs)))
  }

  function InfoBody(dec: Decoder, enc: Encoder, d: EsiDevice): seq<Event> {
    Leaf(IdentificationReg134, NO_ATTRS, enc.boolText(d.requestingId))
    + Element(StateMachine, NO_ATTRS, Element(Timeout, NO_ATTRS, TimeoutsBody(enc, dec.defaultTimeouts, d.timeouts)))
  }

  function CoeDoc(enc: Encoder, d: EsiDevice): seq<Event> {
    if !d.coeSupported then []
    else Element(CoE, NO_ATTRS.(completeAccess := Some(enc.boolText(d.coeCompleteAccess)),
                                sdoInfo := Some(enc.boolText(d.coeSdoInformation))), [])
  }

  function TypeDoc(enc: Encoder, d: EsiDevice): seq<Event> {
    Leaf(Type, NO_ATTRS.(productCode := Some(enc.u32Text(d.productCode)), revisionNo := Some(enc.u32Text(d.revision))),
         d.typeName)
  }

  function IdentityDoc(dec: Decoder, enc: Encoder, d: EsiDevice, rest: seq<Event>): seq<Event> {
    TypeDoc(enc, d) + (Leaf(Name, NO_ATTRS, d.name) + (Element(Info, NO_ATTRS, InfoBody(dec, enc, d)) + rest))
  }

  function ContentsDoc(enc: Encoder, d: EsiDevice): seq<Event> {
    FmmusDoc(enc, d.fmmuUsages) + (ManagersDoc(enc, d.syncManagers)
    + (Element(Mailbox, NO_ATTRS, CoeDoc(enc, d)) + (Element(Dc, NO_ATTRS, ModesDoc(enc, d.dcModes))
    + (PdosDoc(enc, Rx, d.rxPdos) + PdosDoc(enc, Tx, d.txPdos)))))
  }

  function DeviceBody(dec: Decoder, enc: Encoder, d: EsiDevice): seq<Event> {
    IdentityDoc(dec, enc, d, ContentsDoc(enc, d))
  }

  function DevicesDoc(dec: Decoder, enc: Encoder, ds: seq<EsiDevice>): seq<Event> {
    if ds == [] then []
    else DevicesDoc(dec, enc, ds[..|ds| - 1]) + Element(Device, NO_ATTRS, DeviceBody(dec, enc, ds[|ds| - 1]))
  }

  const ROOT := Other("EtherCATInfo")

  function Document(dec: Decoder, enc: Encoder, c: EsiCatalog): seq<Event> {
    Element(ROOT, NO_ATTRS,
            Element(Vendor, NO_ATTRS, Leaf(Id, NO_ATTRS, enc.u32Text(c.vendorId)))
            + DevicesDoc(dec, enc, c.devices))
  }

  // --------------------------------------- values that survive being written

  ghost predicate Says<T(!new)>(dec: Decoder, of: string -> Option<T>, text: T -> string, x: T) {
    dec.trim(text(x)) == text(x) && of(text(x)) == Some(x)
  }

  ghost predicate SaysOpt<T(!new)>(dec: Decoder, of: string -> Option<T>, text: T -> string, x: Option<T>) {
    x.Some? ==> Says(dec, of, text, x.value)
  }

  ghost predicate Trimmed(dec: Decoder, t: string) { dec.trim(t) == t }

  ghost predicate EntrySays(dec: Decoder, enc: Encoder, e: EsiEntry) {
    && Says(dec, dec.u16Of, enc.u16Text, e.index) && Says(dec, dec.u8Of, enc.u8Text, e.subindex)
    && Says(dec, dec.u8Of, enc.u8Text, e.bitLength) && Trimmed(dec, e.name)
    && Says(dec, dec.dataTypeOf, enc.dataTypeText, e.dataType)
  }

  ghost predicate EntriesSay(dec: Decoder, enc: Encoder, es: seq<EsiEntry>) {
    forall i :: 0 <= i < |es| ==> EntrySays(dec, enc, es[i])
  }

  ghost predicate PdoSays(dec: Decoder, enc: Encoder, p: EsiPdo) {
    && Says(dec, dec.u16Of, enc.u16Text, p.index) && SaysOpt(dec, dec.u8Of, enc.u8Text, p.syncManager)
    && EntriesSay(dec, enc, p.entries)
  }

  ghost predicate PdosSay(dec: Decoder, enc: Encoder, ps: seq<EsiPdo>) {
    forall i :: 0 <= i < |ps| ==> PdoSays(dec, enc, ps[i])
  }

  // --------------------------------------------------------- running pieces

  lemma {:induction false} RunConcat(dec: Decoder, s: State, a: seq<Event>, t: State, b: seq<Event>)
    requires RunEvents(dec, s, a) == Ok(t)
    ensures RunEvents(dec, s, a + b) == RunEvents(dec, t, b)
    decreases |a|
  {
    hide OnEvent;
    if a == [] {
      assert a + b == b;
    } else {
      assert (a + b)[1..] == a[1..] + b;
      RunConcat(dec, OnEvent(dec, s, a[0]).value, a[1..], t, b);
    }
  }

  lemma RunOne(dec: Decoder, s: State, e: Event)
    ensures RunEvents(dec, s, [e]) == OnEvent(dec, s, e)
  {
    hide OnEvent;
    if OnEvent(dec, s, e).Ok? { assert RunEvents(dec, OnEvent(dec, s, e).value, []) == OnEvent(dec, s, e); }
  }

  /** The state inside a newly opened element, for tags that only nest. */
  function Inside(s: State, tag: Tag): State { s.(stack := s.stack + [tag], text := "") }

  /** An element whose opening leads to `inner`, whose body leads on to `last` and
      whose end leads to `t`. */
  lemma RunElement(dec: Decoder, s: State, tag: Tag, a: Attrs, body: seq<Event>, inner: State, last: State, t: State)
    requires OnStart(dec, s, tag, a) == Ok(inner) && RunEvents(dec, inner, body) == Ok(last)
    requires OnEnd(dec, last, tag) == Ok(t)
    ensures RunEvents(dec, s, Element(tag, a, body)) == Ok(t)
  {
    hide OnStart, OnEnd;
    RunOne(dec, s, Start(tag, a));
    RunOne(dec, last, End(tag));
    hide RunEvents;
    RunConcat(dec, s, [Start(tag, a)], inner, body);
    RunConcat(dec, s, [Start(tag, a)] + body, last, [End(tag)]);
  }

  /** The state at the end of a leaf, with its text collected. */
  function Said(s: State, tag: Tag, text: string): State { s.(stack := s.stack + [tag], text := text) }

  ghost predicate Between(s: State, t: State) { s.text == "" && t.text == "" && t.stack == s.stack }

  /** A leaf whose opening turns `s` into `mid` and whose end turns that into `t`. */
  lemma RunLeaf(dec: Decoder, s: State, tag: Tag, a: Attrs, text: string, mid: State, t: State)
    requires Between(s, mid) && Between(mid, t) && Trimmed(dec, text)
    requires OnStart(dec, s, tag, a) == Ok(Inside(mid, tag))
    requires Close(dec, Said(mid, tag, text), tag, text) == Ok(Said(t, tag, text))
    ensures RunEvents(dec, s, Leaf(tag, a, text)) == Ok(t)
  {
    hide OnStart, Close;
    var inner := Inside(mid, tag);
    var last := inner.(text := inner.text + text);
    assert last == Said(mid, tag, text);
    RunOne(dec, inner, Text(text));
    assert OnEnd(dec, last, tag) == Ok(t) by { assert Said(t, tag, text).stack[..|t.stack|] == t.stack; }
    RunElement(dec, s, tag, a, [Text(text)], inner, last, t);
    assert Leaf(tag, a, text) == Element(tag, a, [Text(text)]);
  }

  /** An element whose end turns `last`, seen from outside, into `t`. */
  lemma RunNested(dec: Decoder, s: State, tag: Tag, a: Attrs, body: seq<Event>, mid: State, last: State, t: State)
    requires Between(s, mid) && Between(mid, last) && Between(last, t) && Trimmed(dec, "")
    requires OnStart(dec, s, tag, a) == Ok(Inside(mid, tag))
    requires RunEvents(dec, Inside(mid, tag), body) == Ok(Inside(last, tag))
    requires Close(dec, Inside(last, tag), tag, "") == Ok(Inside(t, tag))
    ensures RunEvents(dec, s, Element(tag, a, body)) == Ok(t)
  {
    hide OnStart, Close, RunEvents;
    assert OnEnd(dec, Inside(last, tag), tag) == Ok(t) by { assert Inside(t, tag).stack[..|t.stack|] == t.stack; }
    RunElement(dec, s, tag, a, body, Inside(mid, tag), Inside(last, tag), t);
  }

  // ---------------------------------------------------------------- entries

  /** Between two children of an entry. */
  ghost predicate InEntry(s: State) {
    s.text == "" && s.entry.Some? && s.pdo.Some? && s.device.Some? && s.dcMode.None?
  }

  predicate EntryChild(tag: Tag) { tag == Index || tag == SubIndex || tag == BitLen || tag == Name || tag == DataTypeTag }

  lemma RunEntryChild(dec: Decoder, s: State, tag: Tag, text: string, t: State)
    requires InEntry(s) && Trimmed(dec, text) && EntryChild(tag) && Between(s, t)
    requires EndEntryChild(dec, Said(s, tag, text), s.entry.value, tag, text) == Ok(Said(t, tag, text))
    ensures RunEvents(dec, s, Leaf(tag, NO_ATTRS, text)) == Ok(t)
  {
    hide EndEntryChild, RunEvents;
    RunLeaf(dec, s, tag, NO_ATTRS, text, s, t);
  }

  function EntryAfter(e: EsiEntry): EntryBuilder {
    EntryBuilder(Some(e.index), Some(e.subindex), Some(e.bitLength), Some(e.dataType), Some(e.name))
  }

  ghost function WithEntry(s: State, b: EntryBuilder): State { s.(entry := Some(b)) }

  lemma RunEntryBody(dec: Decoder, enc: Encoder, s: State, e: EsiEntry)
    requires InEntry(s) && s.entry == Some(NEW_ENTRY) && EntrySays(dec, enc, e) && 1 <= e.bitLength <= 64
    ensures RunEvents(dec, s, EntryBody(enc, e)) == Ok(s.(entry := Some(EntryAfter(e))))
  {
    hide RunEvents;
    var b1 := NEW_ENTRY.(index := Some(e.index));
    var b2 := b1.(subindex := Some(e.subindex));
    var b3 := b2.(bitLength := Some(e.bitLength));
    var b4 := b3.(name := Some(e.name));
    var s1, s2, s3, s4 := WithEntry(s, b1), WithEntry(s, b2), WithEntry(s, b3), WithEntry(s, b4);
    var s5 := WithEntry(s, EntryAfter(e));
    RunEntryChild(dec, s, Index, enc.u16Text(e.index), s1);
    RunEntryChild(dec, s1, SubIndex, enc.u8Text(e.subindex), s2);
    RunEntryChild(dec, s2, BitLen, enc.u8Text(e.bitLength), s3);
    RunEntryChild(dec, s3, Name, e.name, s4);
    RunEntryChild(dec, s4, DataTypeTag, enc.dataTypeText(e.dataType), s5);
    hide EndEntryChild, Leaf;
    var l5 := Leaf(DataTypeTag, NO_ATTRS, enc.dataTypeText(e.dataType));
    var l4 := Leaf(Name, NO_ATTRS, e.name);
    var l3 := Leaf(BitLen, NO_ATTRS, enc.u8Text(e.bitLength));
    var l2 := Leaf(SubIndex, NO_ATTRS, enc.u8Text(e.subindex));
    var l1 := Leaf(Index, NO_ATTRS, enc.u16Text(e.index));
    RunConcat(dec, s3, l4, s4, l5);
    RunConcat(dec, s2, l3, s3, l4 + l5);
    RunConcat(dec, s1, l2, s2, l3 + (l4 + l5));
    RunConcat(dec, s, l1, s1, l2 + (l3 + (l4 + l5)));
  }

  // ------------------------------------------------------------------- PDOs

  /** Between two children of a PDO. */
  ghost predicate InPdo(s: State) {
    s.text == "" && s.pdo.Some? && s.entry.None? && s.device.Some? && s.dcMode.None?
  }

  ghost function WithEntries(s: State, es: seq<EsiEntry>): State
    requires s.pdo.Some?
  {
    s.(pdo := Some(s.pdo.value.(entries := es)))
  }

  lemma RunEntry(dec: Decoder, enc: Encoder, s: State, e: EsiEntry)
    requires InPdo(s) && EntrySays(dec, enc, e) && GoodEntries([e]) && Trimmed(dec, "")
    ensures RunEvents(dec, s, EntryDoc(enc, e)) == Ok(WithEntries(s, s.pdo.value.entries + [e]))
  {
    hide RunEvents, EntryBody;
    assert [e][0] == e;
    var mid, last := WithEntry(s, NEW_ENTRY), WithEntry(s, EntryAfter(e));
    RunEntryBody(dec, enc, Inside(mid, Entry), e);
    RunNested(dec, s, Entry, NO_ATTRS, EntryBody(enc, e), mid, last, WithEntries(s, s.pdo.value.entries + [e]));
  }

  lemma {:induction false} RunEntries(dec: Decoder, enc: Encoder, s: State, es: seq<EsiEntry>)
    requires InPdo(s) && s.pdo.value.entries == [] && EntriesSay(dec, enc, es) && GoodEntries(es) && Trimmed(dec, "")
    ensures RunEvents(dec, s, EntriesDoc(enc, es)) == Ok(WithEntries(s, es))
    decreases |es|
  {
    hide OnEvent, EntryDoc, EntrySays;
    if es != [] {
      hide RunEvents;
      var n := |es| - 1;
      RunEntries(dec, enc, s, es[..n]);
      assert es == es[..n] + [es[n]];
      RunEntry(dec, enc, WithEntries(s, es[..n]), es[n]);
      RunConcat(dec, s, EntriesDoc(enc, es[..n]), WithEntries(s, es[..n]), EntryDoc(enc, es[n]));
    }
  }

  /** Between two children of a device. */
  ghost predicate InDevice(s: State) {
    && s.text == "" && s.device.Some? && s.pdo.None? && s.entry.None? && s.syncManager.None? && s.dcMode.None?
    && s.stack != [] && s.stack[|s.stack| - 1] == Device
  }

  ghost function WithDevice(s: State, d: DeviceBuilder): State { s.(device := Some(d)) }

  ghost function WithPdos(d: DeviceBuilder, dir: PdoDirection, ps: seq<EsiPdo>): DeviceBuilder {
    if dir == Rx then d.(rxPdos := ps) else d.(txPdos := ps)
  }

  function PdosOf(d: DeviceBuilder, dir: PdoDirection): seq<EsiPdo> { if dir == Rx then d.rxPdos else d.txPdos }

  ghost function WithPdo(s: State, b: PdoBuilder): State { s.(pdo := Some(b)) }

  lemma RunPdoIndex(dec: Decoder, enc: Encoder, s: State, index: u16)
    requires InPdo(s) && Says(dec, dec.u16Of, enc.u16Text, index)
    ensures RunEvents(dec, s, Leaf(Index, NO_ATTRS, enc.u16Text(index)))
         == Ok(WithPdo(s, s.pdo.value.(index := Some(index))))
  {
    hide RunEvents;
    RunLeaf(dec, s, Index, NO_ATTRS, enc.u16Text(index), s, WithPdo(s, s.pdo.value.(index := Some(index))));
  }

  lemma RunPdoBody(dec: Decoder, enc: Encoder, s: State, p: EsiPdo)
    requires InPdo(s) && s.pdo.value.entries == [] && PdoSays(dec, enc, p) && GoodPdo(p) && Trimmed(dec, "")
    ensures RunEvents(dec, s, Leaf(Index, NO_ATTRS, enc.u16Text(p.index)) + EntriesDoc(enc, p.entries))
         == Ok(WithPdo(s, s.pdo.value.(index := Some(p.index), entries := p.entries)))
  {
    hide RunEvents, Leaf, EntriesDoc, EntriesSay, GoodEntries, WellFormedPdo, Says;
    var s1 := WithPdo(s, s.pdo.value.(index := Some(p.index)));
    RunPdoIndex(dec, enc, s, p.index);
    RunEntries(dec, enc, s1, p.entries);
    RunConcat(dec, s, Leaf(Index, NO_ATTRS, enc.u16Text(p.index)), s1, EntriesDoc(enc, p.entries));
  }

  lemma RunPdo(dec: Decoder, enc: Encoder, s: State, dir: PdoDirection, p: EsiPdo)
    requires InDevice(s) && PdoSays(dec, enc, p) && GoodPdo(p) && Trimmed(dec, "")
    ensures RunEvents(dec, s, PdoDoc(enc, dir, p))
         == Ok(WithDevice(s, WithPdos(s.device.value, dir, PdosOf(s.device.value, dir) + [p])))
  {
    var tag, a := PdoTag(dir), NO_ATTRS.(sm := Attr(enc.u8Text, p.syncManager));
    var mid := WithPdo(s, PdoBuilder(dir, None, p.syncManager, []));
    var last := WithPdo(s, PdoBuilder(dir, Some(p.index), p.syncManager, p.entries));
    var t := WithDevice(s, WithPdos(s.device.value, dir, PdosOf(s.device.value, dir) + [p]));
    var body := Leaf(Index, NO_ATTRS, enc.u16Text(p.index)) + EntriesDoc(enc, p.entries);
    hide RunEvents, Leaf, EntriesDoc, EntriesSay, GoodEntries, EntryBits;
    RunPdoBody(dec, enc, Inside(mid, tag), p);
    assert OnStart(dec, s, tag, a) == Ok(Inside(mid, tag));
    assert Close(dec, Inside(last, tag), tag, "") == Ok(Inside(t, tag));
    hide OnStart, Close;
    RunNested(dec, s, tag, a, body, mid, last, t);
  }

  lemma {:induction false} RunPdos(dec: Decoder, enc: Encoder, s: State, dir: PdoDirection, ps: seq<EsiPdo>)
    requires InDevice(s) && PdosOf(s.device.value, dir) == [] && PdosSay(dec, enc, ps) && GoodPdos(ps) && Trimmed(dec, "")
    ensures RunEvents(dec, s, PdosDoc(enc, dir, ps)) == Ok(WithDevice(s, WithPdos(s.device.value, dir, ps)))
    decreases |ps|
  {
    hide OnEvent, PdoDoc, PdoSays, GoodPdo;
    if ps != [] {
      hide RunEvents;
      var n := |ps| - 1;
      RunPdos(dec, enc, s, dir, ps[..n]);
      assert ps == ps[..n] + [ps[n]];
      var s1 := WithDevice(s, WithPdos(s.device.value, dir, ps[..n]));
      RunPdo(dec, enc, s1, dir, ps[n]);
      RunConcat(dec, s, PdosDoc(enc, dir, ps[..n]), s1, PdoDoc(enc, dir, ps[n]));
    }
  }
}
