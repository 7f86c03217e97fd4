/** Headers of the bridged chain. Hashing is ideal: a hash determines the header it was computed from, so it is
    injective and a header's ancestry is finite. */
module BridgedChain {
  import opened Wrappers

  type AuthorityId = nat

  datatype Authority = Authority(id: AuthorityId, weight: nat)

  datatype ScheduledChange = ScheduledChange(nextAuthorities: seq<Authority>, delay: nat)

  /** A consensus digest item: a change scheduled by GRANDPA, a forced one, or anything else. */
  datatype DigestItem = Scheduled(change: ScheduledChange) | Forced(delay: nat, change: ScheduledChange) | OtherItem

  datatype Header = Header(number: nat, parentHash: Hash, digest: seq<DigestItem>, encodedSize: nat)

  datatype Hash = NoHash | HashOf(header: Header)

  /** Number of known ancestors behind a hash. */
  function Depth(h: Hash): nat {
    match h
    case NoHash => 0
    case HashOf(header) => 1 + Depth(header.parentHash)
  }
}
