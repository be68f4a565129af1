/** What the ESI reader guarantees about every catalog it accepts, whatever the
    nesting of the document. */
module EsiInvariant {
  import opened Machine
  import opened EsiModel
  import opened EsiParser

  // -------------------------------------------------- what a catalog promises

  ghost predicate GoodEntries(es: seq<EsiEntry>) {
    forall i :: 0 <= i < |es| ==> 1 <= es[i].bitLength <= 64 && es[i].signed == es[i].dataType.isSigned
  }

  ghost predicate GoodPdo(p: EsiPdo) { WellFormedPdo(p) && GoodEntries(p.entries) }

  ghost predicate GoodPdos(ps: seq<EsiPdo>) { forall i :: 0 <= i < |ps| ==> GoodPdo(ps[i]) }

  /** Managers are numbered in document order and only outputs are OpOnly. */
  ghost predicate GoodManagers(sms: seq<EsiSyncManager>) {
    && |sms| <= MAX_ESC_SYNC_MANAGERS
    && forall i :: 0 <= i < |sms| ==>
         sms[i].index == i && sms[i].direction != "" && (sms[i].opOnly ==> sms[i].Goes(OUTPUTS))
  }

  ghost predicate GoodModes(ms: seq<EsiDcMode>) {
    forall i :: 0 <= i < |ms| ==> ms[i].name != "" && ms[i].description != Some("")
  }

  ghost predicate OnlyOne(sms: seq<EsiSyncManager>, d: string, i: nat) {
    && i < |sms| && sms[i].Goes(d)
    && forall j :: 0 <= j < |sms| && j != i ==> !sms[j].Goes(d)
  }

  ghost predicate NoneGoes(sms: seq<EsiSyncManager>, d: string) {
    forall i :: 0 <= i < |sms| ==> !sms[i].Goes(d)
  }

  /** The two ends of a mailbox are the only managers of their kind, both enabled,
      and their registers are the mailbox's. */
  ghost predicate MailboxMatches(sms: seq<EsiSyncManager>, m: EsiMailbox) {
    && OnlyOne(sms, MBOX_OUT, m.sendSyncManager) && OnlyOne(sms, MBOX_IN, m.receiveSyncManager)
    && var o, i := sms[m.sendSyncManager], sms[m.receiveSyncManager];
    && o.enabled && o.startAddress == Some(m.sendAddress)
    && o.defaultSize == Some(m.sendCapacity) && o.controlByte == Some(m.sendControlByte)
    && i.enabled && i.startAddress == Some(m.receiveAddress)
    && i.defaultSize == Some(m.receiveCapacity) && i.controlByte == Some(m.receiveControlByte)
  }

  ghost predicate MailboxGood(dec: Decoder, sms: seq<EsiSyncManager>, m: Option<EsiMailbox>) {
    match m
    case None => NoneGoes(sms, MBOX_OUT) && NoneGoes(sms, MBOX_IN)
    case Some(box) => MailboxMatches(sms, box) && dec.mailboxOk(box)
  }

  ghost predicate WellFormedDevice(dec: Decoder, d: EsiDevice) {
    && d.typeName != "" && d.name != "" && |d.fmmuUsages| <= MAX_SII_FMMU_USAGES
    && (!d.coeSupported ==> !d.coeCompleteAccess && !d.coeSdoInformation)
    && GoodManagers(d.syncManagers) && MailboxGood(dec, d.syncManagers, d.mailbox)
    && GoodModes(d.dcModes) && UniqueNames(d.dcModes)
    && GoodPdos(d.rxPdos) && GoodPdos(d.txPdos)
  }

  ghost predicate WellFormedDevices(dec: Decoder, ds: seq<EsiDevice>) {
    forall i :: 0 <= i < |ds| ==> WellFormedDevice(dec, ds[i])
  }

  ghost predicate WellFormedCatalog(dec: Decoder, c: EsiCatalog) {
    c.devices != [] && WellFormedDevices(dec, c.devices)
  }

  // -------------------------------------------------------- mailbox selection

  lemma {:induction false} NoneGoing(sms: seq<EsiSyncManager>, d: string)
    ensures Going(sms, d) == [] <==> NoneGoes(sms, d)
    decreases |sms|
  {
    if sms != [] {
      var n := |sms| - 1;
      hide EsiSyncManager.Goes;
      NoneGoing(sms[..n], d);
      assert NoneGoes(sms, d) <==> NoneGoes(sms[..n], d) && !sms[n].Goes(d) by {
        assert forall i :: 0 <= i < n ==> sms[..n][i] == sms[i];
      }
    }
  }

  lemma {:induction false} OneGoing(sms: seq<EsiSyncManager>, d: string, i: nat)
    requires OnlyOne(sms, d, i)
    ensures Going(sms, d) == [sms[i]]
    decreases |sms|
  {
    hide EsiSyncManager.Goes;
    var n := |sms| - 1;
    if i < n { OneGoing(sms[..n], d, i); } else { NoneGoing(sms[..n], d); }
  }

  lemma {:induction false} GoingOne(sms: seq<EsiSyncManager>, d: string) returns (i: nat)
    requires |Going(sms, d)| == 1
    ensures OnlyOne(sms, d, i) && Going(sms, d) == [sms[i]]
    decreases |sms|
  {
    hide EsiSyncManager.Goes;
    var n := |sms| - 1;
    if sms[n].Goes(d) {
      NoneGoing(sms[..n], d);
      assert forall j :: 0 <= j < n ==> !sms[..n][j].Goes(d);
      i := n;
    } else {
      i := GoingOne(sms[..n], d);
      assert forall j :: 0 <= j < n ==> sms[..n][j] == sms[j];
    }
  }

  /** The mailbox is accepted exactly when the managers hold a complete pair or no
      mailbox manager at all. */
  lemma MailboxOfIff(dec: Decoder, sms: seq<EsiSyncManager>, m: Option<EsiMailbox>)
    requires GoodManagers(sms)
    ensures MailboxOf(dec, sms) == Ok(m) <==> MailboxGood(dec, sms, m)
  {
    hide EsiSyncManager.Goes, Going;
    NoneGoing(sms, MBOX_OUT);
    NoneGoing(sms, MBOX_IN);
    if MailboxOf(dec, sms) == Ok(m) && m.Some? {
      var o := GoingOne(sms, MBOX_OUT);
      var i := GoingOne(sms, MBOX_IN);
    }
    if MailboxGood(dec, sms, m) && m.Some? {
      OneGoing(sms, MBOX_OUT, m.value.sendSyncManager);
      OneGoing(sms, MBOX_IN, m.value.receiveSyncManager);
    }
  }

  // ------------------------------------------------------ the loop invariant

  ghost predicate SoundBuilder(d: DeviceBuilder) {
    && d.typeName != Some("") && d.name != Some("")
    && (!d.coeSupported ==> !d.coeCompleteAccess && !d.coeSdoInformation)
    && GoodManagers(d.syncManagers) && GoodModes(d.dcModes)
    && GoodPdos(d.rxPdos) && GoodPdos(d.txPdos)
  }

  ghost predicate SoundEntry(e: EntryBuilder) { e.bitLength.Some? ==> 1 <= e.bitLength.value <= 64 }

  /** Holds between any two events. It says nothing about how the builders relate to
      the open elements, since unusual nesting separates the two. */
  ghost predicate Sound(dec: Decoder, s: State) {
    && WellFormedDevices(dec, s.devices)
    && (s.device.Some? ==> SoundBuilder(s.device.value))
    && (s.pdo.Some? ==> GoodEntries(s.pdo.value.entries))
    && (s.entry.Some? ==> SoundEntry(s.entry.value))
  }

  ghost predicate SoundStep(dec: Decoder, r: Step) { r.Ok? ==> Sound(dec, r.value) }

  lemma StartKeepsSound(dec: Decoder, s: State, tag: Tag, a: Attrs)
    requires Sound(dec, s)
    ensures SoundStep(dec, OnStart(dec, s, tag, a))
  {
    assert SoundBuilder(NewDevice(dec)) && GoodEntries([]);
    hide NewDevice, WellFormedDevices, GoodManagers, GoodModes, GoodPdos, GoodEntries, EndsWith, Optional;
  }

  lemma EmptyKeepsSound(dec: Decoder, s: State, tag: Tag, a: Attrs)
    requires Sound(dec, s)
    ensures SoundStep(dec, OnEmpty(dec, s, tag, a))
  {
    hide WellFormedDevices, GoodManagers, GoodModes, GoodPdos, GoodEntries, EndsWith, Optional;
  }

  lemma EndSmKeepsSound(dec: Decoder, s: State, b: SyncManagerBuilder, value: string)
    requires Sound(dec, s)
    ensures SoundStep(dec, EndSm(s, b, value))
  {
    hide WellFormedDevices, GoodModes, GoodPdos, GoodEntries;
  }

  lemma EndEntryKeepsSound(dec: Decoder, s: State)
    requires Sound(dec, s)
    ensures SoundStep(dec, EndEntry(s))
  {
    hide WellFormedDevices, SoundBuilder;
  }

  lemma EndPdoKeepsSound(dec: Decoder, s: State)
    requires Sound(dec, s)
    ensures SoundStep(dec, EndPdo(s))
  {
    hide WellFormedDevices, GoodModes, GoodManagers, EntryBits;
  }

  lemma EndOpModeKeepsSound(dec: Decoder, s: State, m: DcModeBuilder)
    requires Sound(dec, s)
    ensures SoundStep(dec, EndOpMode(s, m))
  {
    hide WellFormedDevices, GoodPdos, GoodManagers, GoodEntries, EndsWith;
  }

  lemma FinishedIsWellFormed(dec: Decoder, b: DeviceBuilder)
    requires SoundBuilder(b)
    ensures FinishDevice(dec, b).Ok? ==> WellFormedDevice(dec, FinishDevice(dec, b).value)
  {
    hide GoodPdos, GoodModes, GoodManagers, UniqueNames, MailboxOf, MailboxGood;
    if MailboxOf(dec, b.syncManagers).Ok? { MailboxOfIff(dec, b.syncManagers, MailboxOf(dec, b.syncManagers).value); }
  }

  lemma EndDeviceKeepsSound(dec: Decoder, s: State)
    requires Sound(dec, s)
    ensures SoundStep(dec, EndDevice(dec, s))
  {
    hide FinishDevice, WellFormedDevice, SoundBuilder, GoodEntries;
    if s.device.Some? { FinishedIsWellFormed(dec, s.device.value); }
  }

  /** Children of modes and entries touch neither the device nor what is finished. */
  lemma ChildKeepsSound(dec: Decoder, s: State, tag: Tag, value: string)
    requires Sound(dec, s)
    ensures s.dcMode.Some? ==> SoundStep(dec, EndDcChild(dec, s, s.dcMode.value, tag, value))
    ensures s.entry.Some? ==> SoundStep(dec, EndEntryChild(dec, s, s.entry.value, tag, value))
  {
    hide WellFormedDevices, SoundBuilder, GoodEntries;
  }

  lemma FieldKeepsSound(dec: Decoder, s: State, tag: Tag, value: string)
    requires Sound(dec, s)
    ensures s.device.Some? ==> SoundStep(dec, EndTimeout(dec, s, s.device.value, tag, value))
    ensures s.device.Some? ==> SoundStep(dec, EndFmmu(dec, s, s.device.value, value))
    ensures SoundStep(dec, EndIdentification(dec, s, value))
  {
    hide WellFormedDevices, GoodManagers, GoodModes, GoodPdos, GoodEntries, EndsWith;
  }

  lemma BuilderEndKeepsSound(dec: Decoder, s: State, value: string)
    requires Sound(dec, s)
    ensures s.syncManager.Some? ==> SoundStep(dec, EndSm(s, s.syncManager.value, value))
    ensures SoundStep(dec, EndEntry(s)) && SoundStep(dec, EndPdo(s)) && SoundStep(dec, EndDevice(dec, s))
    ensures s.dcMode.Some? ==> SoundStep(dec, EndOpMode(s, s.dcMode.value))
  {
    hide Sound, EndSm, EndEntry, EndPdo, EndOpMode, EndDevice;
    if s.syncManager.Some? { EndSmKeepsSound(dec, s, s.syncManager.value, value); }
    EndEntryKeepsSound(dec, s);
    EndPdoKeepsSound(dec, s);
    if s.dcMode.Some? { EndOpModeKeepsSound(dec, s, s.dcMode.value); }
    EndDeviceKeepsSound(dec, s);
  }

  lemma CloseKeepsSound(dec: Decoder, s: State, tag: Tag, value: string)
    requires Sound(dec, s)
    ensures SoundStep(dec, Close(dec, s, tag, value))
  {
    ChildKeepsSound(dec, s, tag, value);
    FieldKeepsSound(dec, s, tag, value);
    BuilderEndKeepsSound(dec, s, value);
    hide WellFormedDevices, GoodManagers, GoodModes, GoodPdos, GoodEntries, EndsWith, SoundEntry, IsDcChild,
         EndSm, EndEntry, EndPdo, EndOpMode, EndDevice, EndDcChild, EndEntryChild, EndTimeout, EndFmmu,
         EndIdentification;
  }

  /** Every event keeps the invariant. */
  lemma EventKeepsSound(dec: Decoder, s: State, e: Event)
    requires Sound(dec, s)
    ensures SoundStep(dec, OnEvent(dec, s, e))
  {
    hide OnStart, OnEmpty, Close, WellFormedDevices, SoundBuilder, GoodEntries, SoundEntry;
    match e
    case Start(tag, a) => StartKeepsSound(dec, s, tag, a);
    case Empty(tag, a) => EmptyKeepsSound(dec, s, tag, a);
    case End(tag) => CloseKeepsSound(dec, s, tag, dec.trim(s.text));
    case _ =>
  }

  // ------------------------------------------------------------ whole documents

  /** The reader's state after a list of events. */
  ghost function RunEvents(dec: Decoder, s: State, es: seq<Event>): Step
    decreases |es|
  {
    if es == [] then Ok(s)
    else
      match OnEvent(dec, s, es[0])
      case Err(e) => Err(e)
      case Ok(t) => RunEvents(dec, t, es[1..])
  }

  /** The meaning of a document. */
  ghost function Parsed(dec: Decoder, es: seq<Event>): Result<EsiCatalog, EsiError> {
    match RunEvents(dec, INITIAL, es)
    case Err(e) => Err(e)
    case Ok(s) => Finish(s)
  }

  lemma {:induction false} RunKeepsSound(dec: Decoder, s: State, es: seq<Event>)
    requires Sound(dec, s)
    ensures SoundStep(dec, RunEvents(dec, s, es))
    decreases |es|
  {
    hide OnEvent, Sound;
    if es != [] {
      EventKeepsSound(dec, s, es[0]);
      if OnEvent(dec, s, es[0]).Ok? { RunKeepsSound(dec, OnEvent(dec, s, es[0]).value, es[1..]); }
    }
  }

  /** Whatever the document, an accepted catalog is well formed. */
  lemma ParsedIsWellFormed(dec: Decoder, es: seq<Event>)
    ensures Parsed(dec, es).Ok? ==> WellFormedCatalog(dec, Parsed(dec, es).value)
  {
    hide RunEvents, SoundBuilder;
    RunKeepsSound(dec, INITIAL, es);
  }

  /** Reads a document event by event. Every accepted catalog has byte-filling PDOs
      with entries of 1 to 64 bits, numbered managers, OpOnly on outputs only, whole
      mailboxes and unique DC mode names. */
  method ParseText(dec: Decoder, es: seq<Event>) returns (r: Result<EsiCatalog, EsiError>)
    ensures r == Parsed(dec, es)
    ensures r.Ok? ==> WellFormedCatalog(dec, r.value)
  {
    var s := INITIAL;
    for k := 0 to |es|
      invariant Sound(dec, s)
      invariant RunEvents(dec, INITIAL, es) == RunEvents(dec, s, es[k..])
    {
      hide OnEvent, Sound, Finish;
      EventKeepsSound(dec, s, es[k]);
      match OnEvent(dec, s, es[k]) {
        case Err(e) => return Err(e);
        case Ok(t) => s := t;
      }
      assert es[k..][1..] == es[k + 1..];
    }
    hide WellFormedDevices, SoundBuilder;
    return Finish(s);
  }
}
