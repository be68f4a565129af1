/** Canonical documents of whole devices and catalogs, read back. */
module EsiCatalogs {
  import opened Machine
  import opened EsiModel
  import opened EsiParser
  import opened EsiInvariant
  import opened EsiRoundTrip

  // --------------------------------------- values that survive being written

  ghost predicate ManagerSays(dec: Decoder, enc: Encoder, m: EsiSyncManager) {
    && Trimmed(dec, m.direction)
    && Says(dec, dec.boolOf, enc.boolText, m.enabled) && Says(dec, dec.boolOf, enc.boolText, m.opOnly)
    && SaysOpt(dec, dec.u16Of, enc.u16Text, m.startAddress) && SaysOpt(dec, dec.u16Of, enc.u16Text, m.defaultSize)
    && SaysOpt(dec, dec.u8Of, enc.u8Text, m.controlByte)
  }

  ghost predicate ModeSays(dec: Decoder, enc: Encoder, m: EsiDcMode) {
    && Trimmed(dec, m.name) && (m.description.Some? ==> Trimmed(dec, m.description.value))
    && Says(dec, dec.u16Of, enc.u16Text, m.assignActivate)
    && Says(dec, dec.u32Of, enc.u32Text, m.cycleTime0) && Says(dec, dec.u32Of, enc.u32Text, 0)
    && Says(dec, dec.i32Of, enc.i32Text, m.shiftTime0) && Says(dec, dec.i32Of, enc.i32Text, m.shiftTime1)
    && Says(dec, dec.i16Of, enc.i16Text, m.sync0Factor) && Says(dec, dec.i16Of, enc.i16Text, m.sync1Factor)
  }

  ghost predicate TimeoutSays(dec: Decoder, enc: Encoder, default: u64, value: u64) {
    value != default ==> Says(dec, dec.timeoutOf, enc.timeoutText, value)
  }

  ghost predicate TimeoutsSay(dec: Decoder, enc: Encoder, t: Timeouts) {
    && TimeoutSays(dec, enc, dec.defaultTimeouts.preopNs, t.preopNs)
    && TimeoutSays(dec, enc, dec.defaultTimeouts.safeopToOpNs, t.safeopToOpNs)
    && TimeoutSays(dec, enc, dec.defaultTimeouts.backToInitNs, t.backToInitNs)
    && TimeoutSays(dec, enc, dec.defaultTimeouts.backToSafeopNs, t.backToSafeopNs)
  }

  ghost predicate ManagersSay(dec: Decoder, enc: Encoder, ms: seq<EsiSyncManager>) {
    forall i :: 0 <= i < |ms| ==> ManagerSays(dec, enc, ms[i])
  }

  ghost predicate ModesSay(dec: Decoder, enc: Encoder, ms: seq<EsiDcMode>) {
    forall i :: 0 <= i < |ms| ==> ModeSays(dec, enc, ms[i])
  }

  ghost predicate FmmusSay(dec: Decoder, enc: Encoder, us: seq<FmmuUsage>) {
    forall i :: 0 <= i < |us| ==> Says(dec, dec.fmmuOf, enc.fmmuText, us[i])
  }

  /** The scalar texts of a device are read back as they were written. */
  ghost predicate DeviceSays(dec: Decoder, enc: Encoder, d: EsiDevice) {
    && Trimmed(dec, d.typeName) && Trimmed(dec, d.name)
    && Says(dec, dec.u32Of, enc.u32Text, d.productCode) && Says(dec, dec.u32Of, enc.u32Text, d.revision)
    && Says(dec, dec.boolOf, enc.boolText, d.requestingId)
    && Says(dec, dec.boolOf, enc.boolText, d.coeCompleteAccess)
    && Says(dec, dec.boolOf, enc.boolText, d.coeSdoInformation)
    && TimeoutsSay(dec, enc, d.timeouts) && FmmusSay(dec, enc, d.fmmuUsages)
    && ManagersSay(dec, enc, d.syncManagers) && ModesSay(dec, enc, d.dcModes)
    && PdosSay(dec, enc, d.rxPdos) && PdosSay(dec, enc, d.txPdos)
  }

  ghost predicate CatalogSays(dec: Decoder, enc: Encoder, c: EsiCatalog) {
    && Trimmed(dec, "") && Says(dec, dec.u32Of, enc.u32Text, c.vendorId)
    && forall i :: 0 <= i < |c.devices| ==> DeviceSays(dec, enc, c.devices[i])
  }

  // ------------------------------------------------------------ the open stack

  lemma EndsSnoc(stack: seq<Tag>, suffix: seq<Tag>, tag: Tag)
    requires EndsWith(stack, suffix)
    ensures EndsWith(stack + [tag], suffix + [tag])
  {
  }

  lemma EndsTail(stack: seq<Tag>, suffix: seq<Tag>)
    requires EndsWith(stack, suffix) && suffix != []
    ensures EndsWith(stack, suffix[1..])
  {
  }

  // ----------------------------------------------- sync managers and FMMUs

  lemma RunManager(dec: Decoder, enc: Encoder, s: State, m: EsiSyncManager)
    requires InDevice(s) && ManagerSays(dec, enc, m)
    requires m.direction != "" && m.index == |s.device.value.syncManagers| < MAX_ESC_SYNC_MANAGERS
    requires m.opOnly ==> m.Goes(OUTPUTS)
    ensures RunEvents(dec, s, ManagerDoc(enc, m))
         == Ok(WithDevice(s, s.device.value.(syncManagers := s.device.value.syncManagers + [m])))
  {
    hide RunEvents, EqIgnoreCase;
    var a := ManagerDoc(enc, m)[0].attrs;
    var mid := s.(syncManager := Some(SyncManagerBuilder(m.enabled, m.opOnly, m.startAddress, m.defaultSize, m.controlByte)));
    var t := WithDevice(s, s.device.value.(syncManagers := s.device.value.syncManagers + [m]));
    assert OnStart(dec, s, Sm, a) == Ok(Inside(mid, Sm));
    assert Close(dec, Said(mid, Sm, m.direction), Sm, m.direction) == Ok(Said(t, Sm, m.direction));
    hide OnStart, Close;
    RunLeaf(dec, s, Sm, a, m.direction, mid, t);
  }

  lemma {:induction false} RunManagers(dec: Decoder, enc: Encoder, s: State, ms: seq<EsiSyncManager>)
    requires InDevice(s) && s.device.value.syncManagers == [] && ManagersSay(dec, enc, ms) && GoodManagers(ms)
    ensures RunEvents(dec, s, ManagersDoc(enc, ms)) == Ok(WithDevice(s, s.device.value.(syncManagers := ms)))
    decreases |ms|
  {
    hide OnEvent, ManagerDoc, ManagerSays;
    if ms != [] {
      hide RunEvents;
      var n := |ms| - 1;
      RunManagers(dec, enc, s, ms[..n]);
      assert ms == ms[..n] + [ms[n]];
      var s1 := WithDevice(s, s.device.value.(syncManagers := ms[..n]));
      RunManager(dec, enc, s1, ms[n]);
      RunConcat(dec, s, ManagersDoc(enc, ms[..n]), s1, ManagerDoc(enc, ms[n]));
    }
  }

  lemma RunFmmu(dec: Decoder, enc: Encoder, s: State, u: FmmuUsage)
    requires InDevice(s) && Says(dec, dec.fmmuOf, enc.fmmuText, u)
    ensures RunEvents(dec, s, Leaf(Fmmu, NO_ATTRS, enc.fmmuText(u)))
         == Ok(WithDevice(s, s.device.value.(fmmuUsages := s.device.value.fmmuUsages + [u])))
  {
    hide RunEvents;
    var t := WithDevice(s, s.device.value.(fmmuUsages := s.device.value.fmmuUsages + [u]));
    EndsSnoc(s.stack, [Device], Fmmu);
    assert [Device] + [Fmmu] == [Device, Fmmu];
    hide EndsWith;
    RunLeaf(dec, s, Fmmu, NO_ATTRS, enc.fmmuText(u), s, t);
  }

  lemma {:induction false} RunFmmus(dec: Decoder, enc: Encoder, s: State, us: seq<FmmuUsage>)
    requires InDevice(s) && s.device.value.fmmuUsages == [] && FmmusSay(dec, enc, us)
    ensures RunEvents(dec, s, FmmusDoc(enc, us)) == Ok(WithDevice(s, s.device.value.(fmmuUsages := us)))
    decreases |us|
  {
    hide OnEvent, Leaf, Says;
    if us != [] {
      hide RunEvents;
      var n := |us| - 1;
      RunFmmus(dec, enc, s, us[..n]);
      assert us == us[..n] + [us[n]];
      var s1 := WithDevice(s, s.device.value.(fmmuUsages := us[..n]));
      RunFmmu(dec, enc, s1, us[n]);
      RunConcat(dec, s, FmmusDoc(enc, us[..n]), s1, Leaf(Fmmu, NO_ATTRS, enc.fmmuText(us[n])));
    }
  }

  // ---------------------------------------------------------------- DC modes

  /** Between two children of a DC operation mode. */
  ghost predicate InMode(s: State) {
    && s.text == "" && s.dcMode.Some? && s.device.Some? && s.pdo.None? && s.entry.None? && s.syncManager.None?
    && EndsWith(s.stack, [Device, Dc, OpMode])
  }

  ghost function WithMode(s: State, m: DcModeBuilder): State { s.(dcMode := Some(m)) }

  lemma ModeChildStack(stack: seq<Tag>, tag: Tag)
    requires EndsWith(stack, [Device, Dc, OpMode])
    ensures EndsWith(stack + [tag], [Device, Dc, OpMode, tag]) && EndsWith(stack + [tag], [Dc, OpMode, tag])
  {
    EndsSnoc(stack, [Device, Dc, OpMode], tag);
    assert [Device, Dc, OpMode] + [tag] == [Device, Dc, OpMode, tag];
    EndsTail(stack + [tag], [Device, Dc, OpMode, tag]);
    assert [Device, Dc, OpMode, tag][1..] == [Dc, OpMode, tag];
  }

  predicate PlainModeChild(tag: Tag) {
    tag == Name || tag == Desc || tag == AssignActivate || tag == ShiftTimeSync0 || tag == ShiftTimeSync1
  }

  lemma RunModeChild(dec: Decoder, s: State, tag: Tag, text: string, m: DcModeBuilder)
    requires InMode(s) && Trimmed(dec, text) && PlainModeChild(tag)
    requires EndDcChild(dec, Said(s, tag, text), s.dcMode.value, tag, text) == Ok(Said(WithMode(s, m), tag, text))
    ensures RunEvents(dec, s, Leaf(tag, NO_ATTRS, text)) == Ok(WithMode(s, m))
  {
    hide EndDcChild, RunEvents;
    ModeChildStack(s.stack, tag);
    hide EndsWith;
    RunLeaf(dec, s, tag, NO_ATTRS, text, s, WithMode(s, m));
  }

  ghost function WithFactor(m: DcModeBuilder, tag: Tag, f: i16): DcModeBuilder {
    if tag == CycleTimeSync0 then m.(sync0Factor := f) else m.(sync1Factor := f)
  }

  lemma RunCycleTime(dec: Decoder, enc: Encoder, s: State, tag: Tag, f: i16, text: string, m: DcModeBuilder)
    requires InMode(s) && Trimmed(dec, text) && (tag == CycleTimeSync0 || tag == CycleTimeSync1)
    requires Says(dec, dec.i16Of, enc.i16Text, f)
    requires var mid := WithMode(s, WithFactor(s.dcMode.value, tag, f));
             EndDcChild(dec, Said(mid, tag, text), mid.dcMode.value, tag, text) == Ok(Said(WithMode(s, m), tag, text))
    ensures RunEvents(dec, s, Leaf(tag, Factor(enc, f), text)) == Ok(WithMode(s, m))
  {
    hide EndDcChild, RunEvents;
    ModeChildStack(s.stack, tag);
    hide EndsWith;
    var mid := WithMode(s, WithFactor(s.dcMode.value, tag, f));
    assert OnStart(dec, s, tag, Factor(enc, f)) == Ok(Inside(mid, tag));
    RunLeaf(dec, s, tag, Factor(enc, f), text, mid, WithMode(s, m));
  }

  ghost function Described(m: EsiDcMode): DcModeBuilder {
    NEW_DC_MODE.(name := Some(m.name), description := m.description, assignActivate := Some(m.assignActivate))
  }

  ghost function ModeAfter(m: EsiDcMode): DcModeBuilder {
    DcModeBuilder(Some(m.name), m.description, m.cycleTime0, m.shiftTime0, m.shiftTime1, m.sync1Factor,
                  Some(m.assignActivate), m.sync0Factor)
  }

  lemma RunDesc(dec: Decoder, s: State, m: EsiDcMode)
    requires InMode(s) && (m.description.Some? ==> Trimmed(dec, m.description.value))
    requires s.dcMode.value.description == None
    ensures RunEvents(dec, s, DescDoc(m.description)) == Ok(WithMode(s, s.dcMode.value.(description := m.description)))
  {
    hide OnEvent, EndsWith;
    if m.description.Some? {
      RunModeChild(dec, s, Desc, m.description.value, s.dcMode.value.(description := m.description));
    }
  }

  lemma RunModeHead(dec: Decoder, enc: Encoder, s: State, m: EsiDcMode, rest: seq<Event>)
    requires InMode(s) && s.dcMode == Some(NEW_DC_MODE) && ModeSays(dec, enc, m)
    ensures RunEvents(dec, s, ModeHead(enc, m, rest)) == RunEvents(dec, WithMode(s, Described(m)), rest)
  {
    hide RunEvents, EndsWith;
    var m1 := NEW_DC_MODE.(name := Some(m.name));
    var m2 := m1.(description := m.description);
    var s1, s2, s3 := WithMode(s, m1), WithMode(s, m2), WithMode(s, Described(m));
    RunModeChild(dec, s, Name, m.name, m1);
    RunDesc(dec, s1, m);
    RunModeChild(dec, s2, AssignActivate, enc.u16Text(m.assignActivate), Described(m));
    hide Leaf, DescDoc;
    var l3 := Leaf(AssignActivate, NO_ATTRS, enc.u16Text(m.assignActivate));
    RunConcat(dec, s2, l3, s3, rest);
    RunConcat(dec, s1, DescDoc(m.description), s2, l3 + rest);
    RunConcat(dec, s, Leaf(Name, NO_ATTRS, m.name), s1, DescDoc(m.description) + (l3 + rest));
  }

  lemma RunModeTimes(dec: Decoder, enc: Encoder, s: State, m: EsiDcMode)
    requires InMode(s) && s.dcMode == Some(Described(m)) && ModeSays(dec, enc, m)
    ensures RunEvents(dec, s, ModeTimes(enc, m)) == Ok(WithMode(s, ModeAfter(m)))
  {
    hide RunEvents, EndsWith;
    var m1 := Described(m).(sync0Factor := m.sync0Factor, cycleTime0 := m.cycleTime0);
    var m2 := m1.(shiftTime0 := m.shiftTime0);
    var m3 := m2.(sync1Factor := m.sync1Factor);
    var s1, s2, s3, s4 := WithMode(s, m1), WithMode(s, m2), WithMode(s, m3), WithMode(s, ModeAfter(m));
    RunCycleTime(dec, enc, s, CycleTimeSync0, m.sync0Factor, enc.u32Text(m.cycleTime0), m1);
    RunModeChild(dec, s1, ShiftTimeSync0, enc.i32Text(m.shiftTime0), m2);
    RunCycleTime(dec, enc, s2, CycleTimeSync1, m.sync1Factor, enc.u32Text(0), m3);
    RunModeChild(dec, s3, ShiftTimeSync1, enc.i32Text(m.shiftTime1), ModeAfter(m));
    hide Leaf, Factor, EndDcChild;
    var l4 := Leaf(ShiftTimeSync1, NO_ATTRS, enc.i32Text(m.shiftTime1));
    var l3 := Leaf(CycleTimeSync1, Factor(enc, m.sync1Factor), enc.u32Text(0));
    var l2 := Leaf(ShiftTimeSync0, NO_ATTRS, enc.i32Text(m.shiftTime0));
    RunConcat(dec, s2, l3, s3, l4);
    RunConcat(dec, s1, l2, s2, l3 + l4);
    RunConcat(dec, s, Leaf(CycleTimeSync0, Factor(enc, m.sync0Factor), enc.u32Text(m.cycleTime0)), s1, l2 + (l3 + l4));
  }

  /** Inside the `Dc` element of a device. */
  ghost predicate InDc(s: State) {
    && s.text == "" && s.dcMode.None? && s.device.Some? && s.pdo.None? && s.entry.None? && s.syncManager.None?
    && EndsWith(s.stack, [Device, Dc])
  }

  lemma RunMode(dec: Decoder, enc: Encoder, s: State, m: EsiDcMode)
    requires InDc(s) && ModeSays(dec, enc, m) && GoodModes([m]) && Trimmed(dec, "")
    ensures RunEvents(dec, s, Element(OpMode, NO_ATTRS, ModeBody(enc, m)))
         == Ok(WithDevice(s, s.device.value.(dcModes := s.device.value.dcModes + [m])))
  {
    assert [m][0] == m;
    EndsSnoc(s.stack, [Device, Dc], OpMode);
    assert [Device, Dc] + [OpMode] == [Device, Dc, OpMode];
    hide RunEvents, EndsWith, ModeSays;
    var mid, last := WithMode(s, NEW_DC_MODE), WithMode(s, ModeAfter(m));
    var t := WithDevice(s, s.device.value.(dcModes := s.device.value.dcModes + [m]));
    assert OnStart(dec, s, OpMode, NO_ATTRS) == Ok(Inside(mid, OpMode));
    assert Close(dec, Inside(last, OpMode), OpMode, "") == Ok(Inside(t, OpMode));
    hide OnStart, Close;
    RunModeHead(dec, enc, Inside(mid, OpMode), m, ModeTimes(enc, m));
    RunModeTimes(dec, enc, WithMode(Inside(mid, OpMode), Described(m)), m);
    hide ModeHead, ModeTimes;
    RunNested(dec, s, OpMode, NO_ATTRS, ModeBody(enc, m), mid, last, t);
  }

  lemma {:induction false} RunModes(dec: Decoder, enc: Encoder, s: State, ms: seq<EsiDcMode>)
    requires InDc(s) && s.device.value.dcModes == [] && ModesSay(dec, enc, ms) && GoodModes(ms) && Trimmed(dec, "")
    ensures RunEvents(dec, s, ModesDoc(enc, ms)) == Ok(WithDevice(s, s.device.value.(dcModes := ms)))
    decreases |ms|
  {
    hide OnEvent, ModeBody, Element, ModeSays, EndsWith;
    if ms != [] {
      hide RunEvents;
      var n := |ms| - 1;
      RunModes(dec, enc, s, ms[..n]);
      assert ms == ms[..n] + [ms[n]];
      var s1 := WithDevice(s, s.device.value.(dcModes := ms[..n]));
      RunMode(dec, enc, s1, ms[n]);
      RunConcat(dec, s, ModesDoc(enc, ms[..n]), s1, Element(OpMode, NO_ATTRS, ModeBody(enc, ms[n])));
    }
  }

  // ----------------------------------------------------- information and CoE

  ghost predicate InTimeouts(s: State) {
    && s.text == "" && s.dcMode.None? && s.device.Some? && s.pdo.None? && s.entry.None? && s.syncManager.None?
    && EndsWith(s.stack, [StateMachine, Timeout])
  }

  predicate TimeoutTag(tag: Tag) {
    tag == PreopTimeout || tag == SafeopOpTimeout || tag == BackToInitTimeout || tag == BackToSafeopTimeout
  }

  ghost function WithTimeouts(s: State, t: Timeouts): State
    requires s.device.Some?
  {
    WithDevice(s, s.device.value.(timeouts := t))
  }

  lemma RunTimeout(dec: Decoder, enc: Encoder, s: State, tag: Tag, default: u64, value: u64, t: Timeouts)
    requires InTimeouts(s) && TimeoutTag(tag) && TimeoutSays(dec, enc, default, value)
    requires value == default ==> t == s.device.value.timeouts
    requires t == SetTimeout(s.device.value.timeouts, tag, value)
    ensures RunEvents(dec, s, TimeoutDoc(enc, tag, default, value)) == Ok(WithTimeouts(s, t))
  {
    EndsSnoc(s.stack, [StateMachine, Timeout], tag);
    assert [StateMachine, Timeout] + [tag] == [StateMachine, Timeout, tag];
    hide EndsWith, OnEvent, OnStart, Close, SetTimeout;
    if value != default {
      var text := enc.timeoutText(value);
      assert EndTimeout(dec, Said(s, tag, text), s.device.value, tag, text) == Ok(Said(WithTimeouts(s, t), tag, text));
      RunTimeoutLeaf(dec, s, tag, text, t);
    }
  }

  lemma RunTimeoutLeaf(dec: Decoder, s: State, tag: Tag, text: string, t: Timeouts)
    requires InTimeouts(s) && TimeoutTag(tag) && Trimmed(dec, text)
    requires EndTimeout(dec, Said(s, tag, text), s.device.value, tag, text) == Ok(Said(WithTimeouts(s, t), tag, text))
    ensures RunEvents(dec, s, Leaf(tag, NO_ATTRS, text)) == Ok(WithTimeouts(s, t))
  {
    hide RunEvents, EndTimeout, EndsWith;
    RunLeaf(dec, s, tag, NO_ATTRS, text, s, WithTimeouts(s, t));
  }

  lemma RunTimeouts(dec: Decoder, enc: Encoder, s: State, t: Timeouts)
    requires InTimeouts(s) && s.device.value.timeouts == dec.defaultTimeouts && TimeoutsSay(dec, enc, t)
    ensures RunEvents(dec, s, TimeoutsBody(enc, dec.defaultTimeouts, t)) == Ok(WithTimeouts(s, t))
  {
    hide RunEvents, EndsWith, TimeoutDoc, TimeoutSays;
    var b := dec.defaultTimeouts;
    var t1 := b.(preopNs := t.preopNs);
    var t2 := t1.(safeopToOpNs := t.safeopToOpNs);
    var t3 := t2.(backToInitNs := t.backToInitNs);
    var s1, s2, s3 := WithTimeouts(s, t1), WithTimeouts(s, t2), WithTimeouts(s, t3);
    RunTimeout(dec, enc, s, PreopTimeout, b.preopNs, t.preopNs, t1);
    RunTimeout(dec, enc, s1, SafeopOpTimeout, b.safeopToOpNs, t.safeopToOpNs, t2);
    RunTimeout(dec, enc, s2, BackToInitTimeout, b.backToInitNs, t.backToInitNs, t3);
    RunTimeout(dec, enc, s3, BackToSafeopTimeout, b.backToSafeopNs, t.backToSafeopNs, t);
    var l4 := TimeoutDoc(enc, BackToSafeopTimeout, b.backToSafeopNs, t.backToSafeopNs);
    var l3 := TimeoutDoc(enc, BackToInitTimeout, b.backToInitNs, t.backToInitNs);
    var l2 := TimeoutDoc(enc, SafeopOpTimeout, b.safeopToOpNs, t.safeopToOpNs);
    RunConcat(dec, s2, l3, s3, l4);
    RunConcat(dec, s1, l2, s2, l3 + l4);
    RunConcat(dec, s, TimeoutDoc(enc, PreopTimeout, b.preopNs, t.preopNs), s1, l2 + (l3 + l4));
  }

  /** Elements that only nest. */
  predicate Wrapper(tag: Tag) {
    tag == Info || tag == StateMachine || tag == Timeout || tag == Mailbox || tag == Dc || tag == Vendor || tag == ROOT
  }

  lemma WrapperOpens(dec: Decoder, s: State, tag: Tag)
    requires Wrapper(tag)
    ensures OnStart(dec, s, tag, NO_ATTRS) == Ok(Inside(s, tag))
  {
    hide EndsWith;
  }

  lemma WrapperCloses(dec: Decoder, t: State, tag: Tag)
    requires Wrapper(tag)
    ensures Close(dec, t, tag, "") == Ok(t)
  {
    hide EndsWith, EndSm, EndEntry, EndPdo, EndOpMode, EndDevice, EndDcChild, EndEntryChild, EndTimeout, EndFmmu,
         EndIdentification;
  }

  lemma RunWrapper(dec: Decoder, s: State, tag: Tag, body: seq<Event>, t: State)
    requires Wrapper(tag) && Between(s, t) && Trimmed(dec, "")
    requires RunEvents(dec, Inside(s, tag), body) == Ok(Inside(t, tag))
    ensures RunEvents(dec, s, Element(tag, NO_ATTRS, body)) == Ok(t)
  {
    hide RunEvents, OnStart, Close;
    WrapperOpens(dec, s, tag);
    WrapperCloses(dec, Inside(t, tag), tag);
    RunNested(dec, s, tag, NO_ATTRS, body, s, t, t);
  }

  /** Inside the `Info` element of a device. */
  ghost predicate InInfo(s: State) {
    && s.text == "" && s.dcMode.None? && s.device.Some? && s.pdo.None? && s.entry.None? && s.syncManager.None?
    && EndsWith(s.stack, [Device, Info])
  }

  lemma RunStateMachine(dec: Decoder, enc: Encoder, s: State, t: Timeouts)
    requires InInfo(s) && s.device.value.timeouts == dec.defaultTimeouts && TimeoutsSay(dec, enc, t) && Trimmed(dec, "")
    ensures RunEvents(dec, s, Element(StateMachine, NO_ATTRS, Element(Timeout, NO_ATTRS, TimeoutsBody(enc, dec.defaultTimeouts, t))))
         == Ok(WithTimeouts(s, t))
  {
    var s1 := Inside(s, StateMachine);
    var s2 := Inside(s1, Timeout);
    assert EndsWith(s2.stack, [StateMachine, Timeout]);
    hide RunEvents, EndsWith, TimeoutsSay, TimeoutsBody, Element;
    RunTimeouts(dec, enc, s2, t);
    RunWrapper(dec, s1, Timeout, TimeoutsBody(enc, dec.defaultTimeouts, t), WithTimeouts(s1, t));
    RunWrapper(dec, s, StateMachine, Element(Timeout, NO_ATTRS, TimeoutsBody(enc, dec.defaultTimeouts, t)), WithTimeouts(s, t));
  }

  lemma RunIdentification(dec: Decoder, enc: Encoder, s: State, b: bool)
    requires InInfo(s) && s.device.value.requestingId == None && Says(dec, dec.boolOf, enc.boolText, b)
    ensures RunEvents(dec, s, Leaf(IdentificationReg134, NO_ATTRS, enc.boolText(b)))
         == Ok(WithDevice(s, s.device.value.(requestingId := Some(b))))
  {
    EndsSnoc(s.stack, [Device, Info], IdentificationReg134);
    assert [Device, Info] + [IdentificationReg134] == [Device, Info, IdentificationReg134];
    hide RunEvents, EndsWith;
    RunLeaf(dec, s, IdentificationReg134, NO_ATTRS, enc.boolText(b), s, WithDevice(s, s.device.value.(requestingId := Some(b))));
  }

  lemma RunInfo(dec: Decoder, enc: Encoder, s: State, d: EsiDevice)
    requires InDevice(s) && s.device.value.timeouts == dec.defaultTimeouts && s.device.value.requestingId == None
    requires DeviceSays(dec, enc, d) && Trimmed(dec, "")
    ensures RunEvents(dec, s, Element(Info, NO_ATTRS, InfoBody(dec, enc, d)))
         == Ok(WithDevice(s, s.device.value.(requestingId := Some(d.requestingId), timeouts := d.timeouts)))
  {
    EndsSnoc(s.stack, [Device], Info);
    assert [Device] + [Info] == [Device, Info];
    hide RunEvents, EndsWith, TimeoutsSay, Says, FmmusSay, ManagersSay, ModesSay, PdosSay, Leaf, Element, TimeoutsBody;
    var s0 := Inside(s, Info);
    var s1 := WithDevice(s0, s0.device.value.(requestingId := Some(d.requestingId)));
    RunIdentification(dec, enc, s0, d.requestingId);
    RunStateMachine(dec, enc, s1, d.timeouts);
    RunConcat(dec, s0, Leaf(IdentificationReg134, NO_ATTRS, enc.boolText(d.requestingId)), s1,
              Element(StateMachine, NO_ATTRS, Element(Timeout, NO_ATTRS, TimeoutsBody(enc, dec.defaultTimeouts, d.timeouts))));
    RunWrapper(dec, s, Info, InfoBody(dec, enc, d),
               WithDevice(s, s.device.value.(requestingId := Some(d.requestingId), timeouts := d.timeouts)));
  }

  ghost function WithCoeOf(b: DeviceBuilder, d: EsiDevice): DeviceBuilder {
    b.(coeSupported := d.coeSupported, coeCompleteAccess := d.coeCompleteAccess, coeSdoInformation := d.coeSdoInformation)
  }

  ghost predicate NoCoe(b: DeviceBuilder) { !b.coeSupported && !b.coeCompleteAccess && !b.coeSdoInformation }

  lemma RunCoe(dec: Decoder, enc: Encoder, s: State, d: EsiDevice)
    requires s.text == "" && s.device.Some? && s.pdo.None? && s.dcMode.None? && EndsWith(s.stack, [Mailbox])
    requires NoCoe(s.device.value) && DeviceSays(dec, enc, d) && Trimmed(dec, "")
    requires !d.coeSupported ==> !d.coeCompleteAccess && !d.coeSdoInformation
    ensures RunEvents(dec, s, CoeDoc(enc, d)) == Ok(WithDevice(s, WithCoeOf(s.device.value, d)))
  {
    EndsSnoc(s.stack, [Mailbox], CoE);
    assert [Mailbox] + [CoE] == [Mailbox, CoE];
    hide EndsWith, OnEvent, FmmusSay, ManagersSay, ModesSay, PdosSay, TimeoutsSay;
    if d.coeSupported {
      var a := CoeDoc(enc, d)[0].attrs;
      var mid := WithDevice(s, WithCoeOf(s.device.value, d));
      assert OnStart(dec, s, CoE, a) == Ok(Inside(mid, CoE));
      assert Close(dec, Inside(mid, CoE), CoE, "") == Ok(Inside(mid, CoE));
      hide OnStart, Close;
      RunNested(dec, s, CoE, a, [], mid, mid, mid);
    }
  }

  // ------------------------------------------------------------------ devices

  lemma RunType(dec: Decoder, enc: Encoder, s: State, d: EsiDevice, rest: seq<Event>)
    requires InDevice(s) && DeviceSays(dec, enc, d) && d.typeName != ""
    ensures RunEvents(dec, s, TypeDoc(enc, d) + rest)
         == RunEvents(dec, WithDevice(s, s.device.value.(productCode := Some(d.productCode),
              revision := Some(d.revision), typeName := Some(d.typeName))), rest)
  {
    hide EndsWith, RunEvents, FmmusSay, ManagersSay, ModesSay, PdosSay, TimeoutsSay;
    var a := TypeDoc(enc, d)[0].attrs;
    var b := s.device.value.(productCode := Some(d.productCode), revision := Some(d.revision));
    var mid, t := WithDevice(s, b), WithDevice(s, b.(typeName := Some(d.typeName)));
    assert OnStart(dec, s, Type, a) == Ok(Inside(mid, Type));
    assert Close(dec, Said(mid, Type, d.typeName), Type, d.typeName) == Ok(Said(t, Type, d.typeName));
    hide OnStart, Close;
    RunLeaf(dec, s, Type, a, d.typeName, mid, t);
    RunConcat(dec, s, TypeDoc(enc, d), t, rest);
  }

  lemma RunName(dec: Decoder, s: State, name: string, rest: seq<Event>)
    requires InDevice(s) && s.device.value.name == None && Trimmed(dec, name) && name != ""
    ensures RunEvents(dec, s, Leaf(Name, NO_ATTRS, name) + rest)
         == RunEvents(dec, WithDevice(s, s.device.value.(name := Some(name))), rest)
  {
    hide EndsWith, RunEvents;
    var t := WithDevice(s, s.device.value.(name := Some(name)));
    RunLeaf(dec, s, Name, NO_ATTRS, name, s, t);
    hide OnStart, Close, Leaf;
    RunConcat(dec, s, Leaf(Name, NO_ATTRS, name), t, rest);
  }

  lemma RunMailbox(dec: Decoder, enc: Encoder, s: State, d: EsiDevice, rest: seq<Event>)
    requires InDevice(s) && NoCoe(s.device.value) && DeviceSays(dec, enc, d) && Trimmed(dec, "")
    requires !d.coeSupported ==> !d.coeCompleteAccess && !d.coeSdoInformation
    ensures RunEvents(dec, s, Element(Mailbox, NO_ATTRS, CoeDoc(enc, d)) + rest)
         == RunEvents(dec, WithDevice(s, WithCoeOf(s.device.value, d)), rest)
  {
    hide EndsWith, RunEvents, DeviceSays, CoeDoc;
    assert EndsWith(Inside(s, Mailbox).stack, [Mailbox]) by { EndsLast(s.stack, Mailbox); }
    RunCoe(dec, enc, Inside(s, Mailbox), d);
    var t := WithDevice(s, WithCoeOf(s.device.value, d));
    RunWrapper(dec, s, Mailbox, CoeDoc(enc, d), t);
    RunConcat(dec, s, Element(Mailbox, NO_ATTRS, CoeDoc(enc, d)), t, rest);
  }

  lemma EndsLast(stack: seq<Tag>, tag: Tag)
    ensures EndsWith(stack + [tag], [tag])
  {
  }

  lemma RunDc(dec: Decoder, enc: Encoder, s: State, ms: seq<EsiDcMode>, rest: seq<Event>)
    requires InDevice(s) && s.device.value.dcModes == [] && ModesSay(dec, enc, ms) && GoodModes(ms) && Trimmed(dec, "")
    ensures RunEvents(dec, s, Element(Dc, NO_ATTRS, ModesDoc(enc, ms)) + rest)
         == RunEvents(dec, WithDevice(s, s.device.value.(dcModes := ms)), rest)
  {
    EndsSnoc(s.stack, [Device], Dc);
    assert [Device] + [Dc] == [Device, Dc];
    hide EndsWith, RunEvents, ModesSay, ModesDoc, GoodModes;
    RunModes(dec, enc, Inside(s, Dc), ms);
    var t := WithDevice(s, s.device.value.(dcModes := ms));
    RunWrapper(dec, s, Dc, ModesDoc(enc, ms), t);
    RunConcat(dec, s, Element(Dc, NO_ATTRS, ModesDoc(enc, ms)), t, rest);
  }

  /** The builder after the identity part of a device. */
  ghost function Identified(dec: Decoder, d: EsiDevice): DeviceBuilder {
    NewDevice(dec).(typeName := Some(d.typeName), name := Some(d.name), productCode := Some(d.productCode),
                    revision := Some(d.revision), requestingId := Some(d.requestingId), timeouts := d.timeouts)
  }

  ghost function Complete(dec: Decoder, d: EsiDevice): DeviceBuilder {
    WithCoeOf(Identified(dec, d), d).(fmmuUsages := d.fmmuUsages, syncManagers := d.syncManagers,
                                      dcModes := d.dcModes, rxPdos := d.rxPdos, txPdos := d.txPdos)
  }

  lemma RunIdentity(dec: Decoder, enc: Encoder, s: State, d: EsiDevice, rest: seq<Event>)
    requires InDevice(s) && s.device == Some(NewDevice(dec)) && DeviceSays(dec, enc, d) && Trimmed(dec, "")
    requires d.typeName != "" && d.name != ""
    ensures RunEvents(dec, s, IdentityDoc(dec, enc, d, rest)) == RunEvents(dec, WithDevice(s, Identified(dec, d)), rest)
  {
    hide RunEvents, Leaf, Element, TypeDoc, InfoBody;
    var b1 := NewDevice(dec).(productCode := Some(d.productCode), revision := Some(d.revision), typeName := Some(d.typeName));
    var b2 := b1.(name := Some(d.name));
    var s1, s2 := WithDevice(s, b1), WithDevice(s, b2);
    var info := Element(Info, NO_ATTRS, InfoBody(dec, enc, d));
    RunType(dec, enc, s, d, Leaf(Name, NO_ATTRS, d.name) + (info + rest));
    RunName(dec, s1, d.name, info + rest);
    RunInfo(dec, enc, s2, d);
    RunConcat(dec, s2, info, WithDevice(s, Identified(dec, d)), rest);
  }

  lemma RunContents(dec: Decoder, enc: Encoder, s: State, d: EsiDevice)
    requires InDevice(s) && s.device == Some(Identified(dec, d)) && DeviceSays(dec, enc, d) && Trimmed(dec, "")
    requires WellFormedDevice(dec, d)
    ensures RunEvents(dec, s, ContentsDoc(enc, d)) == Ok(WithDevice(s, Complete(dec, d)))
  {
    hide RunEvents, FmmusDoc, ManagersDoc, Element, PdosDoc, CoeDoc, ModesDoc, MailboxGood, UniqueNames, GoodManagers,
         GoodModes, GoodPdos, FmmusSay, ManagersSay, ModesSay, PdosSay, TimeoutsSay, Says;
    var b1 := Identified(dec, d).(fmmuUsages := d.fmmuUsages);
    var b2 := b1.(syncManagers := d.syncManagers);
    var b3 := WithCoeOf(b2, d);
    var b4 := b3.(dcModes := d.dcModes);
    var b5 := b4.(rxPdos := d.rxPdos);
    var s1, s2, s3, s4, s5 := WithDevice(s, b1), WithDevice(s, b2), WithDevice(s, b3), WithDevice(s, b4), WithDevice(s, b5);
    var rx, tx := PdosDoc(enc, Rx, d.rxPdos), PdosDoc(enc, Tx, d.txPdos);
    var dc := Element(Dc, NO_ATTRS, ModesDoc(enc, d.dcModes));
    var box := Element(Mailbox, NO_ATTRS, CoeDoc(enc, d));
    RunFmmus(dec, enc, s, d.fmmuUsages);
    RunManagers(dec, enc, s1, d.syncManagers);
    RunMailbox(dec, enc, s2, d, dc + (rx + tx));
    RunDc(dec, enc, s3, d.dcModes, rx + tx);
    RunPdos(dec, enc, s4, Rx, d.rxPdos);
    RunPdos(dec, enc, s5, Tx, d.txPdos);
    RunConcat(dec, s4, rx, s5, tx);
    RunConcat(dec, s1, ManagersDoc(enc, d.syncManagers), s2, box + (dc + (rx + tx)));
    RunConcat(dec, s, FmmusDoc(enc, d.fmmuUsages), s1, ManagersDoc(enc, d.syncManagers) + (box + (dc + (rx + tx))));
  }

  lemma CompleteFinishes(dec: Decoder, d: EsiDevice)
    requires WellFormedDevice(dec, d)
    ensures FinishDevice(dec, Complete(dec, d)) == Ok(d)
  {
    hide MailboxOf, MailboxGood, GoodManagers, UniqueNames, GoodModes, GoodPdos;
    MailboxOfIff(dec, d.syncManagers, d.mailbox);
  }

  /** Between two devices. */
  ghost predicate InCatalog(s: State) {
    s.text == "" && s.device.None? && s.pdo.None? && s.entry.None? && s.syncManager.None? && s.dcMode.None?
  }

  ghost function WithDevices(s: State, ds: seq<EsiDevice>): State { s.(devices := ds) }

  lemma RunDevice(dec: Decoder, enc: Encoder, s: State, d: EsiDevice)
    requires InCatalog(s) && WellFormedDevice(dec, d) && DeviceSays(dec, enc, d) && Trimmed(dec, "")
    ensures RunEvents(dec, s, Element(Device, NO_ATTRS, DeviceBody(dec, enc, d))) == Ok(WithDevices(s, s.devices + [d]))
  {
    CompleteFinishes(dec, d);
    hide RunEvents, IdentityDoc, ContentsDoc, EndsWith, FinishDevice, DeviceSays, Complete, Identified, MailboxGood,
         UniqueNames, GoodManagers, GoodModes, GoodPdos;
    var mid, last := WithDevice(s, NewDevice(dec)), WithDevice(s, Complete(dec, d));
    var t := WithDevices(s, s.devices + [d]);
    var inner := Inside(mid, Device);
    RunIdentity(dec, enc, inner, d, ContentsDoc(enc, d));
    RunContents(dec, enc, WithDevice(inner, Identified(dec, d)), d);
    assert OnStart(dec, s, Device, NO_ATTRS) == Ok(inner);
    assert Close(dec, Inside(last, Device), Device, "") == Ok(Inside(t, Device));
    hide OnStart, Close;
    RunNested(dec, s, Device, NO_ATTRS, DeviceBody(dec, enc, d), mid, last, t);
  }

  lemma {:induction false} RunDevices(dec: Decoder, enc: Encoder, s: State, ds: seq<EsiDevice>)
    requires InCatalog(s) && s.devices == [] && WellFormedDevices(dec, ds) && Trimmed(dec, "")
    requires forall i :: 0 <= i < |ds| ==> DeviceSays(dec, enc, ds[i])
    ensures RunEvents(dec, s, DevicesDoc(dec, enc, ds)) == Ok(WithDevices(s, ds))
    decreases |ds|
  {
    hide OnEvent, DeviceBody, Element, DeviceSays, WellFormedDevice;
    if ds != [] {
      hide RunEvents;
      var n := |ds| - 1;
      RunDevices(dec, enc, s, ds[..n]);
      assert ds == ds[..n] + [ds[n]];
      var s1 := WithDevices(s, ds[..n]);
      RunDevice(dec, enc, s1, ds[n]);
      RunConcat(dec, s, DevicesDoc(dec, enc, ds[..n]), s1, Element(Device, NO_ATTRS, DeviceBody(dec, enc, ds[n])));
    }
  }

  lemma RunVendor(dec: Decoder, enc: Encoder, s: State, id: u32)
    requires InCatalog(s) && Says(dec, dec.u32Of, enc.u32Text, id) && Trimmed(dec, "")
    ensures RunEvents(dec, s, Element(Vendor, NO_ATTRS, Leaf(Id, NO_ATTRS, enc.u32Text(id)))) == Ok(s.(vendorId := Some(id)))
  {
    var s1 := Inside(s, Vendor);
    assert EndsWith(s1.stack + [Id], [Vendor, Id]);
    hide RunEvents, EndsWith;
    RunLeaf(dec, s1, Id, NO_ATTRS, enc.u32Text(id), s1, s1.(vendorId := Some(id)));
    hide OnStart, Close;
    RunWrapper(dec, s, Vendor, Leaf(Id, NO_ATTRS, enc.u32Text(id)), s.(vendorId := Some(id)));
  }

  /** Every well-formed catalog whose scalars can be written is read back unchanged
      from its document: the reader's invariant excludes nothing it could deliver. */
  lemma CatalogRoundTrip(dec: Decoder, enc: Encoder, c: EsiCatalog)
    requires WellFormedCatalog(dec, c) && CatalogSays(dec, enc, c)
    ensures Parsed(dec, Document(dec, enc, c)) == Ok(c)
  {
    hide RunEvents, Leaf, Element, DevicesDoc, WellFormedDevices, DeviceSays, Says;
    var vendor := Element(Vendor, NO_ATTRS, Leaf(Id, NO_ATTRS, enc.u32Text(c.vendorId)));
    var s0 := Inside(INITIAL, ROOT);
    var s1 := s0.(vendorId := Some(c.vendorId));
    RunVendor(dec, enc, s0, c.vendorId);
    RunDevices(dec, enc, s1, c.devices);
    RunConcat(dec, s0, vendor, s1, DevicesDoc(dec, enc, c.devices));
    var t := WithDevices(INITIAL.(vendorId := Some(c.vendorId)), c.devices);
    RunWrapper(dec, INITIAL, ROOT, vendor + DevicesDoc(dec, enc, c.devices), t);
  }
}
