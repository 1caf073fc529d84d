/** Chain data shared by every component: block headers, CIDs and tipsets. */
module Chain {

  datatype Option<+T> = None | Some(value: T)

  type Address = string

  /** `abi.ChainEpoch`; heights stay far from the int64 limits, so no wrap-around is modelled. */
  type Epoch = int

  /** The VRF proof carried by a ticket. */
  type Ticket = string

  /** A block header. `rest` stands for every field the miner code never inspects. */
  datatype Header = Header(
    miner: Address, height: Epoch, parents: TipSetKey, ticket: Option<Ticket>, rest: string)

  /** A CID names exactly one header: two headers with the same CID are the same header. */
  datatype Cid = CidOf(header: Header)

  /** The ordered CIDs of a tipset; the byte and string forms of a key are injective on it. */
  type TipSetKey = seq<Cid>

  /** A tipset is determined by its content, so `TipSet.Equals` is `==`. */
  datatype TipSet = TipSet(
    key: TipSetKey, height: Epoch, parents: TipSetKey, minTimestamp: int, minTicket: Ticket)
}

/** What the slash filter records, what it answers, and the consensus faults it is there to prevent. */
module Faults {
  import opened Chain

  datatype StateMining = Mining | Success | Timeout | ChainForked | Error

  datatype Verdict = Clear | OffsetFault(other: Cid) | GrindingFault(expected: Cid) | StoreError

  /** What a filter looks up: the own block at an epoch, or the own block on some parents.
      A call is given the accesses that fail in it. */
  datatype Access = ByEpoch | ByParents

  lemma AllAccessesWork(bad: set<Access>)
    requires ByEpoch !in bad && ByParents !in bad
    ensures bad == {}
  {
    assert bad <= {ByEpoch, ByParents} by {
      forall a | a in bad
        ensures a in {ByEpoch, ByParents}
      {
        match a
        case ByEpoch =>
        case ByParents =>
      }
    }
  }

  /** A block that some node accepted, with the height of the base it was built on. */
  datatype Submission = Submission(bh: Header, baseHeight: Epoch)

  predicate SameMiner(a: Submission, b: Submission) {
    a.bh.miner == b.bh.miner
  }

  /** Double-fork mining: two different blocks at one height. */
  predicate DoubleFork(a: Submission, b: Submission) {
    SameMiner(a, b) && a.bh != b.bh && a.bh.height == b.bh.height
  }

  /** Time-offset mining: two different blocks on the same parents. */
  predicate TimeOffset(a: Submission, b: Submission) {
    SameMiner(a, b) && a.bh != b.bh && a.bh.parents == b.bh.parents
  }

  /** Parent grinding: `b` is built on the height of the own block `a` and leaves `a` out. */
  predicate ParentGrinding(a: Submission, b: Submission) {
    SameMiner(a, b) && a.bh.height == b.baseHeight && CidOf(a.bh) !in b.bh.parents
  }
}
