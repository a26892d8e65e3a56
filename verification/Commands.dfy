/** The DRAM and PIM command alphabet: what a channel can be asked to do, and the
    classification predicates the queues and the channel dispatch on. */
module Commands {
  /** `Size` is the "no command" value of the original enumeration. */
  datatype CommandType =
    | Read | Write | Activate | Precharge | Refresh
    | Gwrite | GAct | PimPrecharge | PHeader | CompsReadres
    | Size

  /** -1 in a field stands for "not addressed". */
  datatype Address = Address(channel: int, rank: int, bankgroup: int, bank: int, row: int, column: int)

  const NO_ADDRESS := Address(-1, -1, -1, -1, -1, -1)

  datatype Command = Command(kind: CommandType, addr: Address, hexAddr: int, isLastComps: bool, numComps: int) {
    predicate IsValid() { kind != Size }
    predicate IsRefresh() { kind == Refresh }
    predicate IsRead() { kind == Read }
    predicate IsWrite() { kind == Write }
    predicate IsReadWrite() { IsRead() || IsWrite() }
    predicate IsRankCmd() { kind == Refresh }
    predicate IsChannelCmd() { kind == CompsReadres }
    predicate IsPimHeader() { kind == PHeader }
    predicate IsGwrite() { kind == Gwrite }
    predicate IsPimCommand() { kind == Gwrite || kind == CompsReadres }
    predicate PimQCommand() { kind == Gwrite || kind == PHeader || kind == CompsReadres }
    predicate IsNormalBufferCommand() {
      kind == Read || kind == Write || kind == Activate || kind == Precharge || kind == Refresh || kind == Gwrite
    }
    predicate IsPimBufferCommand() {
      kind == GAct || kind == PimPrecharge || kind == PHeader || kind == CompsReadres
    }
    function Row(): int { addr.row }
    function Rank(): int { addr.rank }
  }

  const NO_COMMAND := Command(Size, NO_ADDRESS, 0, false, 0)

  function RefreshCommand(rank: int): Command {
    Command(Refresh, Address(-1, rank, -1, -1, -1, -1), -1, false, 0)
  }

  /** The answer of a readiness query: the simulator exits, nothing can issue yet, or this command can issue now. */
  datatype Answer = Abort | NotReady | Ready(cmd: Command)
}
