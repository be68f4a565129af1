/** Device descriptions as the ESI reader delivers them. */
module EsiModel {
  import opened Machine

  datatype DataType = DataType(raw: u16, isSigned: bool)

  datatype EsiEntry = EsiEntry(
    index: u16, subindex: u8, bitLength: u8, dataType: DataType, signed: bool, name: string)

  datatype EsiPdo = EsiPdo(index: u16, syncManager: Option<u8>, entries: seq<EsiEntry>)

  datatype FmmuUsage = Unused | Outputs | Inputs | SyncManagerStatus | Unspecified

  datatype PdoDirection = Rx | Tx

  function EntryBits(entries: seq<EsiEntry>): nat {
    if entries == [] then 0
    else EntryBits(entries[..|entries| - 1]) + entries[|entries| - 1].bitLength
  }

  /** A PDO that has entries, each of 1 to 64 bits, which fill whole bytes. */
  ghost predicate WellFormedPdo(p: EsiPdo) {
    && p.entries != []
    && (forall i :: 0 <= i < |p.entries| ==> 1 <= p.entries[i].bitLength <= 64)
    && EntryBits(p.entries) % 8 == 0
  }
}
