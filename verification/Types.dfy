/** Entities shared by the chain, validation and mining models.

    A hash is an injective identifier, so it is carried by the header it names and two headers
    with the same hash are the same header. `ZERO_HASH` is Go's zero value, which the database
    helpers return for "nothing stored here". */
module Types {
  type Hash = nat
  type Address = nat

  const ZERO_HASH: Hash := 0

  datatype Option<+T> = None | Some(value: T)

  datatype Header = Header(
    hash: Hash,
    parentHash: Hash,
    number: nat,
    difficulty: nat,
    time: nat,
    gasLimit: nat,
    gasUsed: nat,
    coinbase: Address,
    extraSize: nat,
    hasUncles: bool)

  datatype Block = Block(header: Header, txs: seq<Hash>, uncles: seq<Header>)

  type BlockDb = map<Hash, Block>

  datatype WriteStatus = NonStat | CanonStat | SideStat
}
