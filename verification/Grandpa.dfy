/** The pallet that imports finalized headers of the bridged chain (modules/grandpa/src/lib.rs). */
module Grandpa {
  import opened Wrappers
  import opened BridgedChain
  import Ancestry
  import opened Justification
  import opened RingStore

  datatype Config = Config(headersToKeep: nat, maxRequests: nat, maxAuthorities: nat, maxHeaderSize: nat)

  datatype AuthoritySet = AuthoritySet(authorities: seq<Authority>, setId: nat)

  datatype InitializationData = InitializationData(header: Header, authorities: seq<Authority>, setId: nat)

  datatype State = State(
    best: Option<(nat, Hash)>, ring: Ring<Hash, Header>, authoritySet: AuthoritySet, requestCount: nat)

  datatype ImportError =
    | TooManyRequests
    | NotInitialized
    | OldHeader
    | InvalidAuthoritySet
    | InvalidJustification
    | UnsupportedScheduledChange
    | TooManyAuthoritiesInSet
    | TooLargeHeader
    | AlreadyInitialized

  const EMPTY: State := State(None, Ring(map[], 0, map[]), AuthoritySet([], 0), 0)

  // ---------------------------------------------------------------- voter sets

  /** Add a stored authority to a voter set under construction: no weight is no vote, and weights of one id add up. */
  function WithAuthority(voters: seq<Authority>, a: Authority): seq<Authority> {
    if a.weight == 0 then voters
    else if voters == [] then [a]
    else if voters[0].id == a.id then [Authority(a.id, voters[0].weight + a.weight)] + voters[1..]
    else [voters[0]] + WithAuthority(voters[1..], a)
  }

  function Merged(authorities: seq<Authority>): seq<Authority> {
    if authorities == [] then []
    else WithAuthority(Merged(authorities[..|authorities| - 1]), authorities[|authorities| - 1])
  }

  /** The voter set of a stored authority list, unless it is empty or too heavy for 64 bits. */
  function VotersOf(authorities: seq<Authority>): Option<VoterSet> {
    MergedIsDistinct(authorities);
    var voters := Merged(authorities);
    if voters == [] || TotalWeight(voters) > U64_MAX then None else Some(voters)
  }

  ghost predicate PositiveAndDistinct(voters: seq<Authority>) {
    DistinctIds(voters) && forall i | 0 <= i < |voters| :: voters[i].weight > 0
  }

  lemma {:induction false} WithAuthorityIsDistinct(voters: seq<Authority>, a: Authority)
    requires PositiveAndDistinct(voters)
    ensures PositiveAndDistinct(WithAuthority(voters, a))
    ensures forall i | 0 <= i < |WithAuthority(voters, a)| ::
              WithAuthority(voters, a)[i].id == a.id || exists k :: 0 <= k < |voters| && voters[k].id == WithAuthority(voters, a)[i].id
  {
    if a.weight > 0 && voters != [] && voters[0].id != a.id {
      WithAuthorityIsDistinct(voters[1..], a);
      var rest := WithAuthority(voters[1..], a);
      forall i | 0 <= i < |rest| ensures rest[i].id != voters[0].id {
        if rest[i].id != a.id {
          var k :| 0 <= k < |voters[1..]| && voters[1..][k].id == rest[i].id;
          assert voters[k + 1].id == rest[i].id;
        }
      }
      forall i | 0 <= i < |WithAuthority(voters, a)| && WithAuthority(voters, a)[i].id != a.id
        ensures exists k :: 0 <= k < |voters| && voters[k].id == WithAuthority(voters, a)[i].id
      {
        if i > 0 {
          var k :| 0 <= k < |voters[1..]| && voters[1..][k].id == rest[i - 1].id;
          assert voters[k + 1].id == rest[i - 1].id;
        }
      }
    }
  }

  lemma {:induction false} MergedIsDistinct(authorities: seq<Authority>)
    ensures PositiveAndDistinct(Merged(authorities))
  {
    if authorities != [] {
      MergedIsDistinct(authorities[..|authorities| - 1]);
      WithAuthorityIsDistinct(Merged(authorities[..|authorities| - 1]), authorities[|authorities| - 1]);
    }
  }

  /** Summed weight of the entries of one id in a stored authority list. */
  function ListedWeight(authorities: seq<Authority>, id: AuthorityId): nat {
    if authorities == [] then 0
    else ListedWeight(authorities[..|authorities| - 1], id)
         + if authorities[|authorities| - 1].id == id then authorities[|authorities| - 1].weight else 0
  }

  function ListedTotal(authorities: seq<Authority>): nat {
    if authorities == [] then 0
    else ListedTotal(authorities[..|authorities| - 1]) + authorities[|authorities| - 1].weight
  }

  lemma {:induction false} WithAuthorityWeighs(voters: seq<Authority>, a: Authority, id: AuthorityId)
    ensures WeightOfVoter(WithAuthority(voters, a), id) == WeightOfVoter(voters, id) + if a.id == id then a.weight else 0
    ensures TotalWeight(WithAuthority(voters, a)) == TotalWeight(voters) + a.weight
  {
    if voters != [] {
      WithAuthorityWeighs(voters[1..], a, id);
      assert WithAuthority(voters, a) == voters || WithAuthority(voters, a)[1..] == WithAuthority(voters[1..], a)
             || WithAuthority(voters, a)[1..] == voters[1..];
    }
  }

  lemma {:induction false} MergedWeighs(authorities: seq<Authority>, id: AuthorityId)
    ensures WeightOfVoter(Merged(authorities), id) == ListedWeight(authorities, id)
    ensures TotalWeight(Merged(authorities)) == ListedTotal(authorities)
  {
    if authorities != [] {
      MergedWeighs(authorities[..|authorities| - 1], id);
      WithAuthorityWeighs(Merged(authorities[..|authorities| - 1]), authorities[|authorities| - 1], id);
    }
  }

  lemma {:induction false} VoterWeighs(voters: seq<Authority>, id: AuthorityId)
    requires forall i | 0 <= i < |voters| :: voters[i].weight > 0
    ensures IsVoter(voters, id) <==> WeightOfVoter(voters, id) > 0
  {
    if voters != [] && voters[0].id != id {
      VoterWeighs(voters[1..], id);
      if IsVoter(voters, id) {
        var i :| 0 <= i < |voters| && voters[i].id == id;
        assert voters[1..][i - 1].id == id;
      }
      if IsVoter(voters[1..], id) {
        var i :| 0 <= i < |voters[1..]| && voters[1..][i].id == id;
        assert voters[i + 1].id == id;
      }
    }
  }

  /** A stored list is a voter set exactly when its weights sum to a positive 64-bit number; then the voters are the
      ids listed with some weight, each with all of its listed weight. */
  lemma VotersAreListed(authorities: seq<Authority>, id: AuthorityId)
    ensures VotersOf(authorities).Some? <==> 0 < ListedTotal(authorities) <= U64_MAX
    ensures VotersOf(authorities).Some? ==>
              && WeightOfVoter(VotersOf(authorities).value, id) == ListedWeight(authorities, id)
              && (IsVoter(VotersOf(authorities).value, id) <==> ListedWeight(authorities, id) > 0)
  {
    MergedIsDistinct(authorities);
    MergedWeighs(authorities, id);
    VoterWeighs(Merged(authorities), id);
  }

  // ---------------------------------------------------------------- authority changes

  /** Item `i` is the first scheduled change of the digest. */
  predicate FirstScheduledAt(digest: seq<DigestItem>, i: nat) {
    i < |digest| && digest[i].Scheduled? && forall h | 0 <= h < i :: !digest[h].Scheduled?
  }

  predicate FirstForcedAt(digest: seq<DigestItem>, i: nat) {
    i < |digest| && digest[i].Forced? && forall h | 0 <= h < i :: !digest[h].Forced?
  }

  predicate Schedules(digest: seq<DigestItem>) {
    exists i :: 0 <= i < |digest| && digest[i].Scheduled?
  }

  predicate Forces(digest: seq<DigestItem>) {
    exists i :: 0 <= i < |digest| && digest[i].Forced?
  }

  function FindScheduledChange(digest: seq<DigestItem>): Option<ScheduledChange> {
    if digest == [] then None
    else if digest[0].Scheduled? then Some(digest[0].change)
    else FindScheduledChange(digest[1..])
  }

  function FindForcedChange(digest: seq<DigestItem>): Option<(nat, ScheduledChange)> {
    if digest == [] then None
    else if digest[0].Forced? then Some((digest[0].delay, digest[0].change))
    else FindForcedChange(digest[1..])
  }

  lemma {:induction false} ScheduledFound(digest: seq<DigestItem>) returns (i: nat)
    ensures if Schedules(digest)
            then FirstScheduledAt(digest, i) && FindScheduledChange(digest) == Some(digest[i].change)
            else FindScheduledChange(digest) == None
  {
    i := 0;
    if digest != [] && !digest[0].Scheduled? {
      var k := ScheduledFound(digest[1..]);
      assert digest == [digest[0]] + digest[1..];
      i := k + 1;
    }
  }

  lemma FirstExists(digest: seq<DigestItem>)
    requires Schedules(digest)
    ensures exists i: nat :: FirstScheduledAt(digest, i)
  {
    var i := ScheduledFound(digest);
  }

  /** The search looks through the whole digest: it returns the first scheduled change, and nothing exactly when there
      is none. */
  lemma ScheduledChangeIsFirst(digest: seq<DigestItem>)
    ensures FindScheduledChange(digest).None? <==> !Schedules(digest)
    ensures forall c :: FindScheduledChange(digest) == Some(c) <==> exists i: nat :: FirstScheduledAt(digest, i) && digest[i].change == c
  {
    var first := ScheduledFound(digest);
    forall i: nat | FirstScheduledAt(digest, i) ensures i == first {
      assert Schedules(digest) && digest[i].Scheduled? && digest[first].Scheduled?;
    }
  }

  lemma {:induction false} ForcedFound(digest: seq<DigestItem>) returns (i: nat)
    ensures if Forces(digest)
            then FirstForcedAt(digest, i) && FindForcedChange(digest) == Some((digest[i].delay, digest[i].change))
            else FindForcedChange(digest) == None
  {
    i := 0;
    if digest != [] && !digest[0].Forced? {
      var k := ForcedFound(digest[1..]);
      assert digest == [digest[0]] + digest[1..];
      i := k + 1;
    }
  }

  /** The same for forced changes. */
  lemma ForcedChangeIsFirst(digest: seq<DigestItem>)
    ensures FindForcedChange(digest).None? <==> !Forces(digest)
    ensures forall d: nat, c :: FindForcedChange(digest) == Some((d, c))
                           <==> exists i: nat :: FirstForcedAt(digest, i) && digest[i] == Forced(d, c)
  {
    var first := ForcedFound(digest);
    forall i: nat | FirstForcedAt(digest, i) ensures i == first {
      assert Forces(digest) && digest[i].Forced? && digest[first].Forced?;
    }
  }

  /** No item forces a change, and the first scheduled change, if any, is immediate and not too large. */
  ghost predicate Supported(config: Config, digest: seq<DigestItem>) {
    && !Forces(digest)
    && forall i: nat | FirstScheduledAt(digest, i) ::
         digest[i].change.delay == 0 && |digest[i].change.nextAuthorities| <= config.maxAuthorities
  }

  /** The authority set after a header, or the reason why its changes are not supported. */
  function Enacted(config: Config, current: AuthoritySet, header: Header): Result<AuthoritySet, ImportError> {
    if FindForcedChange(header.digest).Some? then Err(UnsupportedScheduledChange)
    else
      match FindScheduledChange(header.digest)
      case None => Ok(current)
      case Some(change) =>
        if change.delay != 0 then Err(UnsupportedScheduledChange)
        else if |change.nextAuthorities| > config.maxAuthorities then Err(TooManyAuthoritiesInSet)
        else Ok(AuthoritySet(change.nextAuthorities, current.setId + 1))
  }

  /** In terms of the digest: only supported changes are enacted, the first scheduled one under the next set id, and
      forced or delayed ones are refused as such. */
  lemma EnactedIs(config: Config, current: AuthoritySet, header: Header)
    ensures Enacted(config, current, header).Ok? <==> Supported(config, header.digest)
    ensures Enacted(config, current, header).Ok? ==>
              var next := Enacted(config, current, header).value;
              && (!Schedules(header.digest) ==> next == current)
              && forall i: nat | FirstScheduledAt(header.digest, i) ::
                   next == AuthoritySet(header.digest[i].change.nextAuthorities, current.setId + 1)
    ensures Enacted(config, current, header) == Err(UnsupportedScheduledChange)
            <==> Forces(header.digest) || exists i: nat :: FirstScheduledAt(header.digest, i) && header.digest[i].change.delay != 0
  {
    var digest := header.digest;
    var first := ScheduledFound(digest);
    var _ := ForcedFound(digest);
    forall i: nat | FirstScheduledAt(digest, i) ensures i == first {
      assert Schedules(digest) && digest[i].Scheduled? && digest[first].Scheduled?;
    }
  }

  // ---------------------------------------------------------------- imports

  function WithHeader(config: Config, s: State, header: Header): State
    requires config.headersToKeep > 0
  {
    s.(best := Some((header.number, HashOf(header))),
       ring := Inserted(s.ring, config.headersToKeep, HashOf(header), header))
  }

  function Submitted(config: Config, check: SignatureCheck, s: State, header: Header, j: GrandpaJustification)
    : Result<State, ImportError>
    requires config.headersToKeep > 0
  {
    if s.requestCount >= config.maxRequests then Err(TooManyRequests)
    else if s.best.None? || s.best.value.1 !in s.ring.items then Err(NotInitialized)
    else if s.ring.items[s.best.value.1].number >= header.number then Err(OldHeader)
    else
      match VotersOf(s.authoritySet.authorities)
      case None => Err(InvalidAuthoritySet)
      case Some(voters) =>
        if Verify((HashOf(header), header.number), check, s.authoritySet.setId, voters, j).Err? then Err(InvalidJustification)
        else
          match Enacted(config, s.authoritySet, header)
          case Err(e) => Err(e)
          case Ok(next) =>
            if header.encodedSize > config.maxHeaderSize then Err(TooLargeHeader)
            else Ok(WithHeader(config, s.(authoritySet := next, requestCount := s.requestCount + 1), header))
  }

  function Initialized(config: Config, s: State, init: InitializationData): Result<State, ImportError>
    requires config.headersToKeep > 0
  {
    if s.best.Some? then Err(AlreadyInitialized)
    else if |init.authorities| > config.maxAuthorities then Err(TooManyAuthoritiesInSet)
    else if init.header.encodedSize > config.maxHeaderSize then Err(TooLargeHeader)
    else Ok(WithHeader(config, s.(ring := s.ring.(pointer := 0), authoritySet := AuthoritySet(init.authorities, init.setId)),
                       init.header))
  }

  // ---------------------------------------------------------------- runs

  datatype Call =
    | Submit(header: Header, justification: GrandpaJustification)
    | Initialize(init: InitializationData)
    | NextBlock

  /** The pallet and the justified headers it has imported after its initial one, oldest first. */
  datatype Chain = Chain(state: State, imports: seq<(Header, GrandpaJustification)>)

  function Called(config: Config, check: SignatureCheck, c: Chain, call: Call): Chain
    requires config.headersToKeep > 0
  {
    match call
    case Submit(header, j) =>
      (match Submitted(config, check, c.state, header, j)
       case Ok(s) => Chain(s, c.imports + [(header, j)])
       case Err(_) => c)
    case Initialize(init) =>
      (match Initialized(config, c.state, init)
       case Ok(s) => Chain(s, [])
       case Err(_) => c)
    case NextBlock => c.(state := c.state.(requestCount := Max(0, c.state.requestCount - 1)))
  }

  /** Any calls after a successful initialisation. */
  ghost function Run(config: Config, check: SignatureCheck, init: InitializationData, calls: seq<Call>): (c: Chain)
    requires config.headersToKeep > 0 && Initialized(config, EMPTY, init).Ok?
    ensures Inv(config, check, init, c)
  {
    if calls == [] then
      InitializedHolds(config, check, init);
      Chain(Initialized(config, EMPTY, init).value, [])
    else
      var before := Run(config, check, init, calls[..|calls| - 1]);
      CallKeepsInv(config, check, init, before, calls[|calls| - 1]);
      Called(config, check, before, calls[|calls| - 1])
  }

  /** All headers in the order of their import, the initial one first. */
  function HeadersOf(init: InitializationData, imports: seq<(Header, GrandpaJustification)>): (headers: seq<Header>)
    ensures |headers| == |imports| + 1
    ensures headers[0] == init.header && forall k | 0 <= k < |imports| :: headers[k + 1] == imports[k].0
  {
    [init.header] + seq(|imports|, k requires 0 <= k < |imports| => imports[k].0)
  }

  function Keyed(headers: seq<Header>): (history: History<Hash, Header>)
    ensures |history| == |headers| && forall k | 0 <= k < |headers| :: history[k] == (HashOf(headers[k]), headers[k])
  {
    seq(|headers|, k requires 0 <= k < |headers| => (HashOf(headers[k]), headers[k]))
  }

  /** Number of imported headers with a scheduled change in their digest. */
  function ChangesIn(imports: seq<(Header, GrandpaJustification)>): nat {
    if imports == [] then 0
    else ChangesIn(imports[..|imports| - 1]) + if Schedules(imports[|imports| - 1].0.digest) then 1 else 0
  }

  /** Authorities in force after the imported headers: those of the first scheduled change in the digest of the last
      header that has one, else the initial ones. */
  ghost function AuthoritiesAfter(init: InitializationData, imports: seq<(Header, GrandpaJustification)>): seq<Authority> {
    if imports == [] then init.authorities
    else
      var digest := imports[|imports| - 1].0.digest;
      if Schedules(digest) then NextAuthorities(digest) else AuthoritiesAfter(init, imports[..|imports| - 1])
  }

  ghost function NextAuthorities(digest: seq<DigestItem>): seq<Authority>
    requires Schedules(digest)
  {
    FirstExists(digest);
    var i: nat :| FirstScheduledAt(digest, i);
    digest[i].change.nextAuthorities
  }

  /** Import `k` was justified by the authority set in force just before it, under that set's id. */
  ghost predicate JustifiedInTurn(
    check: SignatureCheck, init: InitializationData, imports: seq<(Header, GrandpaJustification)>, k: nat)
    requires k < |imports|
  {
    var voters := VotersOf(AuthoritiesAfter(init, imports[..k]));
    && voters.Some?
    && Verify((HashOf(imports[k].0), imports[k].0.number), check, init.setId + ChangesIn(imports[..k]), voters.value,
              imports[k].1).Ok?
  }

  ghost predicate Increasing(headers: seq<Header>) {
    forall i, j | 0 <= i < j < |headers| :: headers[i].number < headers[j].number
  }

  ghost predicate Inv(config: Config, check: SignatureCheck, init: InitializationData, c: Chain)
    requires config.headersToKeep > 0
  {
    var headers := HeadersOf(init, c.imports);
    var last := headers[|headers| - 1];
    && Holds(c.state.ring, config.headersToKeep, Keyed(headers))
    && c.state.best == Some((last.number, HashOf(last)))
    && Increasing(headers)
    && c.state.authoritySet == AuthoritySet(AuthoritiesAfter(init, c.imports), init.setId + ChangesIn(c.imports))
    && (forall k | 0 <= k < |c.imports| :: JustifiedInTurn(check, init, c.imports, k))
    && (forall k | 0 <= k < |c.imports| :: Supported(config, c.imports[k].0.digest))
    && c.state.requestCount <= config.maxRequests
  }

  lemma InitializedHolds(config: Config, check: SignatureCheck, init: InitializationData)
    requires config.headersToKeep > 0 && Initialized(config, EMPTY, init).Ok?
    ensures Inv(config, check, init, Chain(Initialized(config, EMPTY, init).value, []))
  {
    EmptyHolds<Hash, Header>(config.headersToKeep);
    var history: History<Hash, Header> := [];
    InsertionKeepsWindow(EMPTY.ring, config.headersToKeep, history, HashOf(init.header), init.header);
    assert Keyed(HeadersOf(init, [])) == history + [(HashOf(init.header), init.header)];
  }

  /** In any reachable state the best header is stored and is the newest one. */
  lemma BestIsStored(config: Config, check: SignatureCheck, init: InitializationData, c: Chain)
    requires config.headersToKeep > 0 && Inv(config, check, init, c)
    ensures c.state.best.Some? && c.state.best.value.1 in c.state.ring.items
    ensures var headers := HeadersOf(init, c.imports);
            c.state.ring.items[c.state.best.value.1] == headers[|headers| - 1]
  {
    var headers := HeadersOf(init, c.imports);
    assert SlotHolds(c.state.ring, config.headersToKeep, Keyed(headers), |headers| - 1);
  }

  lemma CallKeepsInv(config: Config, check: SignatureCheck, init: InitializationData, c: Chain, call: Call)
    requires config.headersToKeep > 0 && Inv(config, check, init, c)
    ensures Inv(config, check, init, Called(config, check, c, call))
  {
    hide Submitted, Holds, Increasing, JustifiedInTurn, AuthoritiesAfter, ChangesIn, Supported, WithHeader;
    if call.Submit? && Submitted(config, check, c.state, call.header, call.justification).Ok? {
      ImportKeepsInv(config, check, init, c, call.header, call.justification);
    }
  }

  /** A header above every imported one has a hash that is not stored, and joins the ring. */
  lemma ImportKeepsRing(keep: nat, ring: Ring<Hash, Header>, headers: seq<Header>, header: Header)
    requires keep > 0 && headers != [] && Increasing(headers) && Holds(ring, keep, Keyed(headers))
    requires headers[|headers| - 1].number < header.number
    ensures Increasing(headers + [header])
    ensures Holds(Inserted(ring, keep, HashOf(header), header), keep, Keyed(headers + [header]))
  {
    forall i | 0 <= i < |headers| ensures headers[i].number < header.number {
      assert headers[i].number <= headers[|headers| - 1].number;
    }
    InsertionKeepsWindow(ring, keep, Keyed(headers), HashOf(header), header);
    assert Keyed(headers + [header]) == Keyed(headers) + [(HashOf(header), header)];
  }

  /** An accepted header was justified by the set in force. */
  lemma ImportIsJustified(
    config: Config, check: SignatureCheck, init: InitializationData, c: Chain, header: Header, j: GrandpaJustification)
    requires config.headersToKeep > 0 && Submitted(config, check, c.state, header, j).Ok?
    requires c.state.authoritySet == AuthoritySet(AuthoritiesAfter(init, c.imports), init.setId + ChangesIn(c.imports))
    requires forall k | 0 <= k < |c.imports| :: JustifiedInTurn(check, init, c.imports, k)
    ensures var imports := c.imports + [(header, j)];
            && (forall k | 0 <= k < |imports| :: JustifiedInTurn(check, init, imports, k))
            && Supported(config, header.digest)
            && Submitted(config, check, c.state, header, j).value.authoritySet
               == AuthoritySet(AuthoritiesAfter(init, imports), init.setId + ChangesIn(imports))
  {
    hide Verify, VotersOf, Enacted, Supported, FirstScheduledAt;
    var imports := c.imports + [(header, j)];
    EnactedIs(config, c.state.authoritySet, header);
    assert imports[..|c.imports|] == c.imports;
    forall k | 0 <= k < |imports| ensures JustifiedInTurn(check, init, imports, k) {
      if k < |c.imports| {
        assert JustifiedInTurn(check, init, c.imports, k);
        assert imports[..k] == c.imports[..k];
      }
    }
  }

  lemma ImportKeepsInv(
    config: Config, check: SignatureCheck, init: InitializationData, c: Chain, header: Header, j: GrandpaJustification)
    requires config.headersToKeep > 0 && Inv(config, check, init, c)
    requires Submitted(config, check, c.state, header, j).Ok?
    ensures Inv(config, check, init, Called(config, check, c, Submit(header, j)))
  {
    hide Verify, VotersOf, Holds, Increasing, JustifiedInTurn, AuthoritiesAfter, ChangesIn, Supported, Enacted;
    BestIsStored(config, check, init, c);
    var headers := HeadersOf(init, c.imports);
    assert HeadersOf(init, c.imports + [(header, j)]) == headers + [header];
    ImportKeepsRing(config.headersToKeep, c.state.ring, headers, header);
    ImportIsJustified(config, check, init, c, header, j);
  }

  /** `h` is one of the last `keep` headers. */
  ghost predicate AmongLast(headers: seq<Header>, keep: nat, h: Header) {
    exists k :: WindowStart(|headers|, keep) <= k < |headers| && headers[k] == h
  }

  lemma RingHoldsLast(keep: nat, ring: Ring<Hash, Header>, headers: seq<Header>, h: Header)
    requires keep > 0 && Holds(ring, keep, Keyed(headers))
    ensures HashOf(h) in ring.items <==> AmongLast(headers, keep, h)
    ensures HashOf(h) in ring.items ==> ring.items[HashOf(h)] == h
  {
    HoldsExactlyWindow(ring, keep, Keyed(headers));
    if HashOf(h) in ring.items {
      var k :| WindowStart(|headers|, keep) <= k < |headers| && Keyed(headers)[k].0 == HashOf(h);
      assert headers[k] == h;
    }
    if AmongLast(headers, keep, h) {
      var k :| WindowStart(|headers|, keep) <= k < |headers| && headers[k] == h;
      assert Keyed(headers)[k].0 == HashOf(h);
    }
  }

  /** Stored headers are the last `min(n, K)` imported, the best of them is the newest and is never pruned, numbers
      strictly increase, and no submission is ever refused as if the pallet were not initialised. */
  lemma RunsKeepLastHeaders(
    config: Config, check: SignatureCheck, init: InitializationData, calls: seq<Call>, header: Header, j: GrandpaJustification)
    requires config.headersToKeep > 0 && Initialized(config, EMPTY, init).Ok?
    ensures var c := Run(config, check, init, calls);
            var headers := HeadersOf(init, c.imports);
            var last := headers[|headers| - 1];
            && (forall h: Header :: HashOf(h) in c.state.ring.items <==> AmongLast(headers, config.headersToKeep, h))
            && (forall h: Header | HashOf(h) in c.state.ring.items :: c.state.ring.items[HashOf(h)] == h)
            && Increasing(headers)
            && c.state.best == Some((last.number, HashOf(last)))
            && HashOf(last) in c.state.ring.items
            && Submitted(config, check, c.state, header, j) != Err(NotInitialized)
  {
    hide Run, Holds, AmongLast, Increasing, JustifiedInTurn, Verify, VotersOf, Enacted;
    var c := Run(config, check, init, calls);
    BestIsStored(config, check, init, c);
    forall h: Header
      ensures HashOf(h) in c.state.ring.items <==> AmongLast(HeadersOf(init, c.imports), config.headersToKeep, h)
      ensures HashOf(h) in c.state.ring.items ==> c.state.ring.items[HashOf(h)] == h
    {
      RingHoldsLast(config.headersToKeep, c.state.ring, HeadersOf(init, c.imports), h);
    }
    EnactedIsInitialized(config, c.state.authoritySet, header);
  }

  lemma EnactedIsInitialized(config: Config, current: AuthoritySet, header: Header)
    ensures Enacted(config, current, header) != Err(NotInitialized)
  {}

  /** Authority hand-offs, read off the digests of the imported headers: the current set is the first scheduled change of
      the last header that has one, its id counts such headers, no imported header forces or delays a change, and every
      import was justified by the set in force when it came. */
  lemma RunsHandOverAuthorities(config: Config, check: SignatureCheck, init: InitializationData, calls: seq<Call>)
    requires config.headersToKeep > 0 && Initialized(config, EMPTY, init).Ok?
    ensures var c := Run(config, check, init, calls);
            && c.state.authoritySet.setId == init.setId + ChangesIn(c.imports)
            && c.state.authoritySet.authorities == AuthoritiesAfter(init, c.imports)
            && forall k | 0 <= k < |c.imports| :: JustifiedInTurn(check, init, c.imports, k) && Supported(config, c.imports[k].0.digest)
  {
    hide Run;
    var c := Run(config, check, init, calls);
    assert Inv(config, check, init, c);
  }

  /** When a header is imported, in terms of its digest, the stored authority list and plain walks. */
  lemma SubmissionAcceptedIff(config: Config, check: SignatureCheck, s: State, header: Header, j: GrandpaJustification)
    requires config.headersToKeep > 0
    ensures Submitted(config, check, s, header, j).Ok?
            <==> && s.requestCount < config.maxRequests
                 && s.best.Some? && s.best.value.1 in s.ring.items && s.ring.items[s.best.value.1].number < header.number
                 && VotersOf(s.authoritySet.authorities).Some?
                 && Justifies((HashOf(header), header.number), check, s.authoritySet.setId,
                              VotersOf(s.authoritySet.authorities).value, j, Ancestry.ParentLinks(j.votesAncestries))
                 && Supported(config, header.digest)
                 && header.encodedSize <= config.maxHeaderSize
    ensures Submitted(config, check, s, header, j).Ok? ==>
              Submitted(config, check, s, header, j).value.requestCount == s.requestCount + 1
  {
    hide Verdict, VotersOf, Enacted, Supported, Justifies;
    EnactedIs(config, s.authoritySet, header);
    if VotersOf(s.authoritySet.authorities).Some? {
      AcceptedIff((HashOf(header), header.number), check, s.authoritySet.setId, VotersOf(s.authoritySet.authorities).value, j,
                  Ancestry.ParentLinks(j.votesAncestries));
    }
  }

  /** When the pallet is initialised: only once, with a list and a header of allowed size. */
  lemma InitializedIff(config: Config, s: State, init: InitializationData)
    requires config.headersToKeep > 0
    ensures Initialized(config, s, init).Ok?
            <==> s.best.None? && |init.authorities| <= config.maxAuthorities && init.header.encodedSize <= config.maxHeaderSize
  {}

  function BlocksIn(calls: seq<Call>): nat {
    if calls == [] then 0 else BlocksIn(calls[..|calls| - 1]) + if calls[|calls| - 1].NextBlock? then 1 else 0
  }

  /** The request counter: imports are refused exactly while `maxRequests` of them are counted, each block takes one off,
      so no run imports more headers than `maxRequests` plus one per block. */
  lemma {:induction false} RunsLimitImports(config: Config, check: SignatureCheck, init: InitializationData, calls: seq<Call>)
    requires config.headersToKeep > 0 && Initialized(config, EMPTY, init).Ok?
    ensures var c := Run(config, check, init, calls);
            && c.state.requestCount <= |c.imports| <= c.state.requestCount + BlocksIn(calls)
            && |c.imports| <= config.maxRequests + BlocksIn(calls)
            && Called(config, check, c, NextBlock).state.requestCount == Max(0, c.state.requestCount - 1)
            && forall header, j :: Submitted(config, check, c.state, header, j) == Err(TooManyRequests)
                                   <==> c.state.requestCount == config.maxRequests
  {
    hide Called, Submitted, Initialized, Inv;
    if calls == [] {
      StartsUncounted(config, init);
    } else {
      RunsLimitImports(config, check, init, calls[..|calls| - 1]);
      CallCounts(config, check, init, Run(config, check, init, calls[..|calls| - 1]), calls[|calls| - 1]);
    }
    var c := Run(config, check, init, calls);
    RequestsAreCounted(config, check, init, c);
  }

  lemma StartsUncounted(config: Config, init: InitializationData)
    requires config.headersToKeep > 0 && Initialized(config, EMPTY, init).Ok?
    ensures Initialized(config, EMPTY, init).value.requestCount == 0
  {}

  /** Each import counts one request, each block takes one off. */
  lemma CallCounts(config: Config, check: SignatureCheck, init: InitializationData, c: Chain, call: Call)
    requires config.headersToKeep > 0 && Inv(config, check, init, c)
    ensures var next := Called(config, check, c, call);
            if call.NextBlock?
            then |next.imports| == |c.imports| && next.state.requestCount == Max(0, c.state.requestCount - 1)
            else 0 <= next.state.requestCount - c.state.requestCount == |next.imports| - |c.imports| <= 1
  {
    hide Verify, VotersOf, Enacted, Holds, JustifiedInTurn, AuthoritiesAfter, Inserted;
  }

  lemma RequestsAreCounted(config: Config, check: SignatureCheck, init: InitializationData, c: Chain)
    requires config.headersToKeep > 0 && Inv(config, check, init, c)
    ensures c.state.requestCount <= config.maxRequests
    ensures Called(config, check, c, NextBlock).state.requestCount == Max(0, c.state.requestCount - 1)
    ensures forall header, j :: Submitted(config, check, c.state, header, j) == Err(TooManyRequests)
                                <==> c.state.requestCount == config.maxRequests
  {
    hide Verify, VotersOf, Enacted, Holds, JustifiedInTurn, AuthoritiesAfter, Inserted;
    forall header, j
      ensures Submitted(config, check, c.state, header, j) == Err(TooManyRequests) <==> c.state.requestCount == config.maxRequests
    {
      EnactedErrors(config, c.state.authoritySet, header);
    }
  }

  lemma EnactedErrors(config: Config, current: AuthoritySet, header: Header)
    ensures Enacted(config, current, header) != Err(TooManyRequests)
  {}

  // ---------------------------------------------------------------- the pallet

  class Pallet {
    const config: Config
    const check: SignatureCheck
    var bestFinalized: Option<(nat, Hash)>
    var importedHashes: map<nat, Hash>
    var importedHashesPointer: nat
    var importedHeaders: map<Hash, Header>
    var currentAuthoritySet: AuthoritySet
    var requestCount: nat

    function View(): State
      reads this
    {
      State(bestFinalized, Ring(importedHashes, importedHashesPointer, importedHeaders), currentAuthoritySet, requestCount)
    }

    constructor (config: Config, check: SignatureCheck)
      ensures View() == EMPTY && this.config == config && this.check == check
    {
      this.config, this.check := config, check;
      bestFinalized, importedHashes, importedHashesPointer := None, map[], 0;
      importedHeaders, currentAuthoritySet, requestCount := map[], AuthoritySet([], 0), 0;
    }

    method InsertHeader(header: Header)
      requires config.headersToKeep > 0
      modifies this`bestFinalized, this`importedHashes, this`importedHashesPointer, this`importedHeaders
      ensures View() == WithHeader(config, old(View()), header)
    {
      var hash := HashOf(header);
      var index: nat := importedHashesPointer;
      var pruning := if index in importedHashes then Some(importedHashes[index]) else None;
      bestFinalized := Some((header.number, hash));
      importedHeaders := importedHeaders[hash := header];
      importedHashes := importedHashes[index := hash];
      importedHashesPointer := (index + 1) % config.headersToKeep;
      if pruning.Some? {
        importedHeaders := importedHeaders - {pruning.value};
      }
    }

    /** Writes the new authority set at once; the caller's transaction undoes it when a later check fails. */
    method TryEnactAuthorityChange(header: Header) returns (result: Result<bool, ImportError>)
      modifies this`currentAuthoritySet
      ensures match Enacted(config, old(currentAuthoritySet), header)
              case Err(e) => result == Err(e) && currentAuthoritySet == old(currentAuthoritySet)
              case Ok(next) => result == Ok(Schedules(header.digest)) && currentAuthoritySet == next
    {
      ScheduledChangeIsFirst(header.digest);
      if FindForcedChange(header.digest).Some? {
        return Err(UnsupportedScheduledChange);
      }
      match FindScheduledChange(header.digest) {
        case None => return Ok(false);
        case Some(change) =>
          if change.delay != 0 {
            return Err(UnsupportedScheduledChange);
          }
          if |change.nextAuthorities| > config.maxAuthorities {
            return Err(TooManyAuthoritiesInSet);
          }
          currentAuthoritySet := AuthoritySet(change.nextAuthorities, currentAuthoritySet.setId + 1);
          return Ok(true);
      }
    }

    /** Imports a justified header, or leaves the pallet exactly as it was. The answer tells whether the header was
        mandatory, that is, changed the authorities. */
    method SubmitFinalityProof(header: Header, j: GrandpaJustification) returns (result: Result<bool, ImportError>)
      requires config.headersToKeep > 0
      modifies this
      ensures match Submitted(config, check, old(View()), header, j)
              case Err(e) => result == Err(e) && View() == old(View())
              case Ok(next) => result == Ok(Schedules(header.digest)) && View() == next
    {
      if requestCount >= config.maxRequests {
        return Err(TooManyRequests);
      }
      if bestFinalized.None? || bestFinalized.value.1 !in importedHeaders {
        return Err(NotInitialized);
      }
      if importedHeaders[bestFinalized.value.1].number >= header.number {
        return Err(OldHeader);
      }
      var voters := VotersOf(currentAuthoritySet.authorities);
      if voters.None? {
        return Err(InvalidAuthoritySet);
      }
      var verdict := VerifyJustification(
        (HashOf(header), header.number), check, currentAuthoritySet.setId, voters.value, j);
      if verdict.Err? {
        return Err(InvalidJustification);
      }
      var stored := currentAuthoritySet;
      var enacted := TryEnactAuthorityChange(header);
      if enacted.Err? {
        return enacted;
      }
      if header.encodedSize > config.maxHeaderSize {
        currentAuthoritySet := stored; // the failed transaction is rolled back
        return Err(TooLargeHeader);
      }
      requestCount := requestCount + 1;
      InsertHeader(header);
      result := enacted;
    }

    method InitializeBridge(init: InitializationData) returns (result: Result<(), ImportError>)
      requires config.headersToKeep > 0
      modifies this
      ensures match Initialized(config, old(View()), init)
              case Err(e) => result == Err(e) && View() == old(View())
              case Ok(next) => result == Ok(()) && View() == next
    {
      if bestFinalized.Some? {
        return Err(AlreadyInitialized);
      }
      if |init.authorities| > config.maxAuthorities {
        return Err(TooManyAuthoritiesInSet);
      }
      if init.header.encodedSize > config.maxHeaderSize {
        return Err(TooLargeHeader);
      }
      importedHashesPointer := 0;
      InsertHeader(init.header);
      currentAuthoritySet := AuthoritySet(init.authorities, init.setId);
      result := Ok(());
    }

    method OnInitialize()
      modifies this`requestCount
      ensures requestCount == Max(0, old(requestCount) - 1)
    {
      requestCount := if requestCount == 0 then 0 else requestCount - 1;
    }
  }
}
