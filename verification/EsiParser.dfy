/** The ESI reader: one pass over the events of a device description, with a stack
    of open elements, a text buffer and five builders. */
module EsiParser {
  import opened Machine
  import opened EsiModel

  const MAX_ESC_SYNC_MANAGERS := 16
  const MAX_SII_FMMU_USAGES := 16

  datatype EsiError =
    | NestedElement | MisplacedElement | EmptyElement | InvalidValue | MissingField | BitLenRange
    | NoEntries | NotByteAddressable | TooManyFmmus | TooManySyncManagers | OpOnlyNotOutput
    | MailboxPair | MailboxInvalid | DuplicateName | DuplicateDeclaration | Unbalanced
    | Unterminated | NoDevices

  /** Local element names; only the ones the reader knows are told apart. */
  datatype Tag =
    | Device | Type | RxPdo | TxPdo | Sm | OpMode | CycleTimeSync0 | CycleTimeSync1 | CoE
    | IdentificationReg134 | Entry | Id | Vendor | Fmmu | Name | Desc | AssignActivate
    | ShiftTimeSync0 | ShiftTimeSync1 | Index | SubIndex | BitLen | DataTypeTag | PreopTimeout
    | SafeopOpTimeout | BackToInitTimeout | BackToSafeopTimeout | Dc | Mailbox | Info
    | StateMachine | Timeout | Other(name: string)

  /** The attributes the reader looks at, undecoded. */
  datatype Attrs = Attrs(
    productCode: Option<string>, revisionNo: Option<string>, sm: Option<string>,
    enable: Option<string>, opOnly: Option<string>, startAddress: Option<string>,
    defaultSize: Option<string>, controlByte: Option<string>, factor: Option<string>,
    completeAccess: Option<string>, sdoInfo: Option<string>)

  const NO_ATTRS := Attrs(None, None, None, None, None, None, None, None, None, None, None)

  datatype Event = Start(tag: Tag, attrs: Attrs) | Empty(tag: Tag, attrs: Attrs) | Text(text: string) | End(tag: Tag) | Ignored

  datatype Timeouts = Timeouts(preopNs: u64, safeopToOpNs: u64, backToInitNs: u64, backToSafeopNs: u64)

  /** Scalar decoding, which this model leaves to its caller. */
  datatype Decoder = Decoder(
    trim: string -> string, u8Of: string -> Option<u8>, u16Of: string -> Option<u16>,
    u32Of: string -> Option<u32>, i16Of: string -> Option<i16>, i32Of: string -> Option<i32>, boolOf: string -> Option<bool>,
    dataTypeOf: string -> Option<DataType>, fmmuOf: string -> Option<FmmuUsage>,
    timeoutOf: string -> Option<u64>, mailboxOk: EsiMailbox -> bool, defaultTimeouts: Timeouts)

  // ------------------------------------------------------------ catalog types

  datatype EsiSyncManager = EsiSyncManager(
    index: u8, direction: string, startAddress: Option<u16>, defaultSize: Option<u16>,
    controlByte: Option<u8>, enabled: bool, opOnly: bool)
  {
    predicate Goes(d: string) { EqIgnoreCase(direction, d) }
  }

  datatype EsiMailbox = EsiMailbox(
    sendSyncManager: u8, sendAddress: u16, sendCapacity: u16, sendControlByte: u8,
    receiveSyncManager: u8, receiveAddress: u16, receiveCapacity: u16, receiveControlByte: u8)

  datatype EsiDcMode = EsiDcMode(
    name: string, description: Option<string>, cycleTime0: u32, shiftTime0: i32, shiftTime1: i32,
    sync1Factor: i16, assignActivate: u16, sync0Factor: i16)

  datatype EsiDevice = EsiDevice(
    typeName: string, name: string, productCode: u32, revision: u32, timeouts: Timeouts,
    fmmuUsages: seq<FmmuUsage>, syncManagers: seq<EsiSyncManager>, mailbox: Option<EsiMailbox>,
    coeSupported: bool, coeCompleteAccess: bool, coeSdoInformation: bool, requestingId: bool,
    dcModes: seq<EsiDcMode>, rxPdos: seq<EsiPdo>, txPdos: seq<EsiPdo>)

  datatype EsiCatalog = EsiCatalog(vendorId: u32, devices: seq<EsiDevice>)

  function LowerChar(c: char): char { if 'A' <= c <= 'Z' then c - 'A' + 'a' else c }

  predicate EqIgnoreCase(a: string, b: string) {
    |a| == |b| && forall i :: 0 <= i < |a| ==> LowerChar(a[i]) == LowerChar(b[i])
  }

  const OUTPUTS := "Outputs"
  const MBOX_OUT := "MBoxOut"
  const MBOX_IN := "MBoxIn"

  // ----------------------------------------------------------------- builders

  datatype EntryBuilder = EntryBuilder(
    index: Option<u16>, subindex: Option<u8>, bitLength: Option<u8>, dataType: Option<DataType>,
    name: Option<string>)

  datatype PdoBuilder = PdoBuilder(
    direction: PdoDirection, index: Option<u16>, syncManager: Option<u8>, entries: seq<EsiEntry>)

  datatype SyncManagerBuilder = SyncManagerBuilder(
    enabled: bool, opOnly: bool, startAddress: Option<u16>, defaultSize: Option<u16>, controlByte: Option<u8>)

  datatype DcModeBuilder = DcModeBuilder(
    name: Option<string>, description: Option<string>, cycleTime0: u32, shiftTime0: i32, shiftTime1: i32,
    sync1Factor: i16, assignActivate: Option<u16>, sync0Factor: i16)

  datatype DeviceBuilder = DeviceBuilder(
    typeName: Option<string>, name: Option<string>, productCode: Option<u32>, revision: Option<u32>,
    timeouts: Timeouts, fmmuUsages: seq<FmmuUsage>, syncManagers: seq<EsiSyncManager>,
    coeSupported: bool, coeCompleteAccess: bool, coeSdoInformation: bool, requestingId: Option<bool>,
    dcModes: seq<EsiDcMode>, rxPdos: seq<EsiPdo>, txPdos: seq<EsiPdo>)

  function NewDevice(dec: Decoder): DeviceBuilder {
    DeviceBuilder(None, None, None, None, dec.defaultTimeouts, [], [], false, false, false, None, [], [], [])
  }

  const NEW_ENTRY := EntryBuilder(None, None, None, None, None)
  const NEW_DC_MODE := DcModeBuilder(None, None, 0, 0, 0, 0, None, 0)

  function FinishEntry(b: EntryBuilder): Result<EsiEntry, EsiError> {
    if b.dataType.None? || b.index.None? || b.bitLength.None? then Err(MissingField)
    else Ok(EsiEntry(b.index.value, if b.subindex.Some? then b.subindex.value else 0, b.bitLength.value,
                     b.dataType.value, b.dataType.value.isSigned,
                     if b.name.Some? then b.name.value else ""))
  }

  function FinishPdo(b: PdoBuilder): Result<EsiPdo, EsiError> {
    if b.index.None? then Err(MissingField)
    else if b.entries == [] then Err(NoEntries)
    else if EntryBits(b.entries) % 8 != 0 then Err(NotByteAddressable)
    else Ok(EsiPdo(b.index.value, b.syncManager, b.entries))
  }

  function FinishSyncManager(b: SyncManagerBuilder, index: nat, direction: string): Result<EsiSyncManager, EsiError> {
    if direction == "" then Err(MissingField)
    else if index >= MAX_ESC_SYNC_MANAGERS then Err(TooManySyncManagers)
    else if b.opOnly && !EqIgnoreCase(direction, OUTPUTS) then Err(OpOnlyNotOutput)
    else Ok(EsiSyncManager(index, direction, b.startAddress, b.defaultSize, b.controlByte, b.enabled, b.opOnly))
  }

  function FinishDcMode(b: DcModeBuilder): Result<EsiDcMode, EsiError> {
    if b.name.None? || b.name.value == "" || b.assignActivate.None? then Err(MissingField)
    else Ok(EsiDcMode(b.name.value, if b.description == Some("") then None else b.description, b.cycleTime0,
                      b.shiftTime0, b.shiftTime1, b.sync1Factor, b.assignActivate.value, b.sync0Factor))
  }

  // ---------------------------------------------------------------- mailboxes

  function Going(sms: seq<EsiSyncManager>, d: string): seq<EsiSyncManager> {
    if sms == [] then []
    else
      var n := |sms| - 1;
      Going(sms[..n], d) + if sms[n].Goes(d) then [sms[n]] else []
  }

  function MailboxFrom(dec: Decoder, out: EsiSyncManager, in_: EsiSyncManager): Result<Option<EsiMailbox>, EsiError> {
    if !out.enabled || !in_.enabled then Err(MailboxInvalid)
    else if out.startAddress.None? || out.defaultSize.None? || out.controlByte.None?
            || in_.startAddress.None? || in_.defaultSize.None? || in_.controlByte.None? then Err(MissingField)
    else
      var m := EsiMailbox(out.index, out.startAddress.value, out.defaultSize.value, out.controlByte.value,
                          in_.index, in_.startAddress.value, in_.defaultSize.value, in_.controlByte.value);
      if dec.mailboxOk(m) then Ok(Some(m)) else Err(MailboxInvalid)
  }

  /** Mailbox managers come as exactly one of each kind, or not at all. */
  function MailboxOf(dec: Decoder, sms: seq<EsiSyncManager>): Result<Option<EsiMailbox>, EsiError> {
    var outs, ins := Going(sms, MBOX_OUT), Going(sms, MBOX_IN);
    if |outs| > 1 || |ins| > 1 || |outs| != |ins| then Err(MailboxPair)
    else if outs == [] then Ok(None)
    else MailboxFrom(dec, outs[0], ins[0])
  }

  lemma DirectionsDiffer(sm: EsiSyncManager)
    ensures !(sm.Goes(MBOX_OUT) && sm.Goes(MBOX_IN))
  {
    assert |MBOX_OUT| == 7 && |MBOX_IN| == 6;
  }

  /** One pass with two slots, as the source does it. */
  method MailboxFromSyncManagers(dec: Decoder, sms: seq<EsiSyncManager>) returns (r: Result<Option<EsiMailbox>, EsiError>)
    ensures r == MailboxOf(dec, sms)
  {
    var mailboxOut: Option<EsiSyncManager>, mailboxIn: Option<EsiSyncManager> := None, None;
    assert Going([], MBOX_OUT) == [] && Going([], MBOX_IN) == [];
    hide MailboxFrom, EsiSyncManager.Goes, Going;
    for k := 0 to |sms|
      invariant Going(sms[..k], MBOX_OUT) == if mailboxOut.Some? then [mailboxOut.value] else []
      invariant Going(sms[..k], MBOX_IN) == if mailboxIn.Some? then [mailboxIn.value] else []
    {
      DirectionsDiffer(sms[k]);
      GoingStep(sms, k, MBOX_OUT);
      GoingStep(sms, k, MBOX_IN);
      if sms[k].Goes(MBOX_OUT) {
        if mailboxOut.Some? {
          GoingGrows(sms, k + 1, MBOX_OUT);
          return Err(MailboxPair);
        }
        mailboxOut := Some(sms[k]);
      } else if sms[k].Goes(MBOX_IN) {
        if mailboxIn.Some? {
          GoingGrows(sms, k + 1, MBOX_IN);
          return Err(MailboxPair);
        }
        mailboxIn := Some(sms[k]);
      }
    }
    assert sms[..|sms|] == sms;
    if mailboxOut.None? && mailboxIn.None? { return Ok(None); }
    if mailboxOut.None? || mailboxIn.None? { return Err(MailboxPair); }
    return MailboxFrom(dec, mailboxOut.value, mailboxIn.value);
  }

  lemma GoingStep(sms: seq<EsiSyncManager>, k: nat, d: string)
    requires k < |sms|
    ensures Going(sms[..k + 1], d) == Going(sms[..k], d) + if sms[k].Goes(d) then [sms[k]] else []
  {
    assert sms[..k + 1][..k] == sms[..k];
  }

  lemma {:induction false} GoingGrows(sms: seq<EsiSyncManager>, k: nat, d: string)
    requires k <= |sms|
    ensures |Going(sms[..k], d)| <= |Going(sms, d)|
    decreases |sms|
  {
    if k < |sms| {
      GoingGrows(sms[..|sms| - 1], k, d);
      assert sms[..|sms| - 1][..k] == sms[..k];
    } else {
      assert sms[..k] == sms;
    }
  }

  predicate UniqueNames(ms: seq<EsiDcMode>) {
    forall i, j :: 0 <= i < j < |ms| ==> ms[i].name != ms[j].name
  }

  function FinishDevice(dec: Decoder, b: DeviceBuilder): Result<EsiDevice, EsiError> {
    if |b.fmmuUsages| > MAX_SII_FMMU_USAGES then Err(TooManyFmmus)
    else
      match MailboxOf(dec, b.syncManagers)
      case Err(e) => Err(e)
      case Ok(mailbox) =>
        if !UniqueNames(b.dcModes) then Err(DuplicateName)
        else if b.typeName.None? || b.name.None? || b.productCode.None? || b.revision.None? then Err(MissingField)
        else Ok(EsiDevice(b.typeName.value, b.name.value, b.productCode.value, b.revision.value, b.timeouts,
                          b.fmmuUsages, b.syncManagers, mailbox, b.coeSupported, b.coeCompleteAccess,
                          b.coeSdoInformation, b.requestingId == Some(true), b.dcModes, b.rxPdos, b.txPdos))
  }

  // ------------------------------------------------------------- parser state

  datatype State = State(
    stack: seq<Tag>, text: string, vendorId: Option<u32>, devices: seq<EsiDevice>,
    device: Option<DeviceBuilder>, pdo: Option<PdoBuilder>, entry: Option<EntryBuilder>,
    syncManager: Option<SyncManagerBuilder>, dcMode: Option<DcModeBuilder>)

  const INITIAL := State([], "", None, [], None, None, None, None, None)

  type Step = Result<State, EsiError>

  predicate EndsWith(stack: seq<Tag>, suffix: seq<Tag>) {
    |stack| >= |suffix| && stack[|stack| - |suffix|..] == suffix
  }

  /** An optional attribute: absent, decoded or invalid. */
  function Optional<T>(value: Option<string>, decode: string -> Option<T>): Result<Option<T>, EsiError> {
    if value.None? then Ok(None)
    else
      var v := decode(value.value);
      if v.None? then Err(InvalidValue) else Ok(v)
  }

  function OrElse<T>(value: Option<T>, default: T): T { if value.Some? then value.value else default }

  // ----------------------------------------------------------- opening events

  function StartType(dec: Decoder, s: State, d: DeviceBuilder, a: Attrs): Step {
    if a.productCode.None? || a.revisionNo.None? then Err(MissingField)
    else
      var product, revision := dec.u32Of(a.productCode.value), dec.u32Of(a.revisionNo.value);
      if product.None? || revision.None? then Err(InvalidValue)
      else Ok(s.(device := Some(d.(productCode := product, revision := revision))))
  }

  function StartPdo(dec: Decoder, s: State, direction: PdoDirection, a: Attrs): Step {
    if s.pdo.Some? then Err(NestedElement)
    else
      match Optional(a.sm, dec.u8Of)
      case Err(e) => Err(e)
      case Ok(sm) => Ok(s.(pdo := Some(PdoBuilder(direction, None, sm, []))))
  }

  function StartSm(dec: Decoder, s: State, a: Attrs): Step {
    if s.syncManager.Some? then Err(NestedElement)
    else
      var enable, opOnly := Optional(a.enable, dec.boolOf), Optional(a.opOnly, dec.boolOf);
      var address, size := Optional(a.startAddress, dec.u16Of), Optional(a.defaultSize, dec.u16Of);
      var control := Optional(a.controlByte, dec.u8Of);
      if enable.Err? || opOnly.Err? || address.Err? || size.Err? || control.Err? then Err(InvalidValue)
      else Ok(s.(syncManager := Some(SyncManagerBuilder(
        OrElse(enable.value, true), OrElse(opOnly.value, false), address.value, size.value, control.value))))
  }

  function StartCycleTime(dec: Decoder, s: State, m: DcModeBuilder, tag: Tag, a: Attrs): Step {
    if !EndsWith(s.stack, [Device, Dc, OpMode, tag]) then Err(MisplacedElement)
    else
      match Optional(a.factor, dec.i16Of)
      case Err(e) => Err(e)
      case Ok(f) =>
        var factor := OrElse(f, 0);
        Ok(s.(dcMode := Some(if tag == CycleTimeSync0 then m.(sync0Factor := factor) else m.(sync1Factor := factor))))
  }

  function WithCoe(dec: Decoder, s: State, d: DeviceBuilder, a: Attrs): Step {
    var complete, info := Optional(a.completeAccess, dec.boolOf), Optional(a.sdoInfo, dec.boolOf);
    if complete.Err? || info.Err? then Err(InvalidValue)
    else Ok(s.(device := Some(d.(coeSupported := true, coeCompleteAccess := OrElse(complete.value, false),
                                 coeSdoInformation := OrElse(info.value, false)))))
  }

  function OnStart(dec: Decoder, s0: State, tag: Tag, a: Attrs): Step {
    var s := s0.(stack := s0.stack + [tag], text := "");
    var inDevice := s.device.Some? && s.pdo.None?;
    match tag
    case Device => if s.device.Some? then Err(NestedElement) else Ok(s.(device := Some(NewDevice(dec))))
    case Type => if inDevice then StartType(dec, s, s.device.value, a) else Ok(s)
    case RxPdo => if s.device.Some? then StartPdo(dec, s, Rx, a) else Ok(s)
    case TxPdo => if s.device.Some? then StartPdo(dec, s, Tx, a) else Ok(s)
    case Sm => if inDevice then StartSm(dec, s, a) else Ok(s)
    case OpMode =>
      if s.dcMode.Some? then Err(NestedElement)
      else if !inDevice then Ok(s)
      else if EndsWith(s.stack, [Device, Dc, OpMode]) then Ok(s.(dcMode := Some(NEW_DC_MODE)))
      else Err(MisplacedElement)
    case CycleTimeSync0 => if s.dcMode.Some? then StartCycleTime(dec, s, s.dcMode.value, tag, a) else Ok(s)
    case CycleTimeSync1 => if s.dcMode.Some? then StartCycleTime(dec, s, s.dcMode.value, tag, a) else Ok(s)
    case CoE =>
      if inDevice && EndsWith(s.stack, [Mailbox, CoE]) then WithCoe(dec, s, s.device.value, a) else Ok(s)
    case IdentificationReg134 =>
      if inDevice && EndsWith(s.stack, [Device, Info, IdentificationReg134]) then Ok(s) else Err(MisplacedElement)
    case Entry =>
      if s.pdo.None? then Ok(s)
      else if s.entry.Some? then Err(NestedElement) else Ok(s.(entry := Some(NEW_ENTRY)))
    case _ => Ok(s)
  }

  function OnEmpty(dec: Decoder, s: State, tag: Tag, a: Attrs): Step {
    if tag == CoE && s.pdo.None? && s.device.Some? && EndsWith(s.stack, [Device, Mailbox])
    then WithCoe(dec, s, s.device.value, a)
    else if tag == IdentificationReg134 || tag == Device || tag == Fmmu || tag == RxPdo || tag == TxPdo
            || tag == Entry || tag == Sm || tag == OpMode then Err(EmptyElement)
    else Ok(s)
  }

  // ----------------------------------------------------------- closing events

  predicate IsDcChild(tag: Tag) {
    tag == Name || tag == Desc || tag == AssignActivate || tag == CycleTimeSync0 || tag == ShiftTimeSync0
    || tag == CycleTimeSync1 || tag == ShiftTimeSync1
  }

  /** Text of a direct child of a DC operation mode. */
  function EndDcChild(dec: Decoder, s: State, m: DcModeBuilder, tag: Tag, value: string): Step {
    match tag
    case Name => Ok(s.(dcMode := Some(m.(name := Some(value)))))
    case Desc => Ok(s.(dcMode := Some(m.(description := Some(value)))))
    case AssignActivate =>
      var v := dec.u16Of(value);
      if v.None? then Err(InvalidValue) else Ok(s.(dcMode := Some(m.(assignActivate := v))))
    case CycleTimeSync0 =>
      var v := dec.u32Of(value);
      if v.None? then Err(InvalidValue) else Ok(s.(dcMode := Some(m.(cycleTime0 := v.value))))
    case CycleTimeSync1 =>
      if dec.u32Of(value) == Some(0) then Ok(s) else Err(InvalidValue)
    case _ =>
      var v := dec.i32Of(value);
      if v.None? then Err(InvalidValue)
      else Ok(s.(dcMode := Some(if tag == ShiftTimeSync0 then m.(shiftTime0 := v.value) else m.(shiftTime1 := v.value))))
  }

  /** Text of a child of a PDO entry. */
  function EndEntryChild(dec: Decoder, s: State, e: EntryBuilder, tag: Tag, value: string): Step {
    match tag
    case Name => Ok(s.(entry := Some(e.(name := Some(value)))))
    case Index =>
      var v := dec.u16Of(value);
      if v.None? then Err(InvalidValue) else Ok(s.(entry := Some(e.(index := v))))
    case SubIndex =>
      var v := dec.u8Of(value);
      if v.None? then Err(InvalidValue) else Ok(s.(entry := Some(e.(subindex := v))))
    case BitLen =>
      var v := dec.u8Of(value);
      if v.None? then Err(InvalidValue)
      else if !(1 <= v.value <= 64) then Err(BitLenRange)
      else Ok(s.(entry := Some(e.(bitLength := v))))
    case DataTypeTag =>
      var v := dec.dataTypeOf(value);
      if v.None? then Err(InvalidValue) else Ok(s.(entry := Some(e.(dataType := v))))
    case _ => Ok(s)
  }

  function SetTimeout(t: Timeouts, tag: Tag, ns: u64): Timeouts {
    match tag
    case PreopTimeout => t.(preopNs := ns)
    case SafeopOpTimeout => t.(safeopToOpNs := ns)
    case BackToInitTimeout => t.(backToInitNs := ns)
    case _ => t.(backToSafeopNs := ns)
  }

  function EndTimeout(dec: Decoder, s: State, d: DeviceBuilder, tag: Tag, value: string): Step {
    if !EndsWith(s.stack, [StateMachine, Timeout, tag]) then Ok(s)
    else
      var v := dec.timeoutOf(value);
      if v.None? then Err(InvalidValue)
      else Ok(s.(device := Some(d.(timeouts := SetTimeout(d.timeouts, tag, v.value)))))
  }

  function EndSm(s: State, b: SyncManagerBuilder, value: string): Step {
    if s.device.None? then Err(MisplacedElement)
    else
      var d := s.device.value;
      match FinishSyncManager(b, |d.syncManagers|, value)
      case Err(e) => Err(e)
      case Ok(sm) => Ok(s.(syncManager := None, device := Some(d.(syncManagers := d.syncManagers + [sm]))))
  }

  function EndEntry(s: State): Step {
    if s.entry.None? then Err(Unbalanced)
    else
      match FinishEntry(s.entry.value)
      case Err(e) => Err(e)
      case Ok(entry) =>
        if s.pdo.None? then Err(MisplacedElement)
        else Ok(s.(entry := None, pdo := Some(s.pdo.value.(entries := s.pdo.value.entries + [entry]))))
  }

  function EndPdo(s: State): Step {
    if s.pdo.None? then Err(Unbalanced)
    else
      match FinishPdo(s.pdo.value)
      case Err(e) => Err(e)
      case Ok(pdo) =>
        if s.device.None? then Err(MisplacedElement)
        else
          var d := s.device.value;
          Ok(s.(pdo := None,
                device := Some(if s.pdo.value.direction == Rx then d.(rxPdos := d.rxPdos + [pdo])
                               else d.(txPdos := d.txPdos + [pdo]))))
  }

  function EndOpMode(s: State, m: DcModeBuilder): Step {
    if !EndsWith(s.stack, [Device, Dc, OpMode]) then Ok(s)
    else
      match FinishDcMode(m)
      case Err(e) => Err(e)
      case Ok(mode) =>
        if s.device.None? then Err(MisplacedElement)
        else Ok(s.(dcMode := None, device := Some(s.device.value.(dcModes := s.device.value.dcModes + [mode]))))
  }

  function EndDevice(dec: Decoder, s: State): Step {
    if s.device.None? then Err(Unbalanced)
    else
      match FinishDevice(dec, s.device.value)
      case Err(e) => Err(e)
      case Ok(device) => Ok(s.(device := None, devices := s.devices + [device]))
  }

  function EndFmmu(dec: Decoder, s: State, d: DeviceBuilder, value: string): Step {
    if !EndsWith(s.stack, [Device, Fmmu]) then Err(MisplacedElement)
    else
      var v := dec.fmmuOf(value);
      if v.None? then Err(InvalidValue)
      else Ok(s.(device := Some(d.(fmmuUsages := d.fmmuUsages + [v.value]))))
  }

  function EndIdentification(dec: Decoder, s: State, value: string): Step {
    if s.device.None? || s.pdo.Some? || !EndsWith(s.stack, [Device, Info, IdentificationReg134])
    then Err(MisplacedElement)
    else
      var v := dec.boolOf(value);
      if v.None? then Err(InvalidValue)
      else if s.device.value.requestingId.Some? then Err(DuplicateDeclaration)
      else Ok(s.(device := Some(s.device.value.(requestingId := v))))
  }

  /** Effect of a closing tag, before the element is taken off the stack. */
  function Close(dec: Decoder, s: State, tag: Tag, value: string): Step {
    var inDevice := s.device.Some? && s.pdo.None?;
    if s.dcMode.Some? && IsDcChild(tag) then
      (if EndsWith(s.stack, [Dc, OpMode, tag]) then EndDcChild(dec, s, s.dcMode.value, tag, value)
       else Err(MisplacedElement))
    else
      match tag
      case Id =>
        if s.device.None? && EndsWith(s.stack, [Vendor, Id]) then
          var v := dec.u32Of(value);
          if v.None? then Err(InvalidValue) else Ok(s.(vendorId := v))
        else Ok(s)
      case Type =>
        if !inDevice then Ok(s)
        else if value == "" then Err(MissingField)
        else Ok(s.(device := Some(s.device.value.(typeName := Some(value)))))
      case Fmmu => if inDevice then EndFmmu(dec, s, s.device.value, value) else Ok(s)
      case IdentificationReg134 => EndIdentification(dec, s, value)
      case Name =>
        if s.entry.Some? then EndEntryChild(dec, s, s.entry.value, tag, value)
        else if inDevice && s.device.value.name.None? && value != ""
        then Ok(s.(device := Some(s.device.value.(name := Some(value)))))
        else Ok(s)
      case Index =>
        if s.entry.Some? then EndEntryChild(dec, s, s.entry.value, tag, value)
        else if s.pdo.Some? then
          var v := dec.u16Of(value);
          if v.None? then Err(InvalidValue) else Ok(s.(pdo := Some(s.pdo.value.(index := v))))
        else Ok(s)
      case SubIndex => if s.entry.Some? then EndEntryChild(dec, s, s.entry.value, tag, value) else Ok(s)
      case BitLen => if s.entry.Some? then EndEntryChild(dec, s, s.entry.value, tag, value) else Ok(s)
      case DataTypeTag => if s.entry.Some? then EndEntryChild(dec, s, s.entry.value, tag, value) else Ok(s)
      case PreopTimeout => if s.device.Some? then EndTimeout(dec, s, s.device.value, tag, value) else Ok(s)
      case SafeopOpTimeout => if s.device.Some? then EndTimeout(dec, s, s.device.value, tag, value) else Ok(s)
      case BackToInitTimeout => if s.device.Some? then EndTimeout(dec, s, s.device.value, tag, value) else Ok(s)
      case BackToSafeopTimeout => if s.device.Some? then EndTimeout(dec, s, s.device.value, tag, value) else Ok(s)
      case Sm => if s.syncManager.Some? then EndSm(s, s.syncManager.value, value) else Ok(s)
      case Entry => EndEntry(s)
      case RxPdo => EndPdo(s)
      case TxPdo => EndPdo(s)
      case OpMode => if s.dcMode.Some? then EndOpMode(s, s.dcMode.value) else Ok(s)
      case Device => EndDevice(dec, s)
      case _ => Ok(s)
  }

  function OnEnd(dec: Decoder, s: State, tag: Tag): Step {
    match Close(dec, s, tag, dec.trim(s.text))
    case Err(e) => Err(e)
    case Ok(t) =>
      if t.stack == [] || t.stack[|t.stack| - 1] != tag then Err(Unbalanced)
      else Ok(t.(stack := t.stack[..|t.stack| - 1], text := ""))
  }

  function OnEvent(dec: Decoder, s: State, e: Event): Step {
    match e
    case Start(tag, attrs) => OnStart(dec, s, tag, attrs)
    case Empty(tag, attrs) => OnEmpty(dec, s, tag, attrs)
    case Text(text) => Ok(s.(text := s.text + text))
    case End(tag) => OnEnd(dec, s, tag)
    case Ignored => Ok(s)
  }

  function Finish(s: State): Result<EsiCatalog, EsiError> {
    if s.device.Some? || s.pdo.Some? || s.entry.Some? || s.syncManager.Some? || s.dcMode.Some? || s.stack != []
    then Err(Unterminated)
    else if s.devices == [] then Err(NoDevices)
    else if s.vendorId.None? then Err(MissingField)
    else Ok(EsiCatalog(s.vendorId.value, s.devices))
  }
}
