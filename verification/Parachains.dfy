/** The pallet that imports heads of bridged parachains (modules/parachains/src/lib.rs). Head hashes are ideal. */
module Parachains {
  import opened Wrappers
  import opened BridgedChain
  import opened RingStore

  type ParaId = nat

  datatype ParaHead = ParaHead(bytes: seq<nat>)

  datatype ParaHash = ParaHashOf(head: ParaHead)

  datatype ParaInfo = ParaInfo(atRelayNumber: nat, headHash: ParaHash, nextPosition: nat)

  datatype Config = Config(tracked: set<ParaId>, headsToKeep: nat, maxHeadSize: nat)

  /** Storage of the pallet; hashes and heads are keyed by parachain first. */
  datatype State = State(
    infos: map<ParaId, ParaInfo>,
    hashes: map<ParaId, map<nat, ParaHash>>,
    heads: map<ParaId, map<ParaHash, ParaHead>>)

  const EMPTY: State := State(map[], map[], map[])

  datatype UpdateError = ObsoleteHead | LargeHead

  /** What became of one submitted head. */
  datatype Outcome = Untracked | Missing | IncorrectHash | Refused(error: UpdateError) | Stored(pruned: bool)

  datatype SubmissionError = UnknownRelayChainBlock | InvalidRelayChainBlockNumber | InvalidStorageProof

  /** A submission at a relay block: `proven` is what the storage proof makes readable at that block (`None` for bytes
      that do not decode), and is absent when the proof itself is invalid. */
  datatype Submission = Submission(
    relayNumber: nat, relayHash: Hash, parachains: seq<(ParaId, ParaHash)>,
    proven: Option<map<ParaId, Option<ParaHead>>>)

  function Get<K, V>(m: map<ParaId, map<K, V>>, para: ParaId): map<K, V> {
    if para in m then m[para] else map[]
  }

  function Position(s: State, para: ParaId): nat {
    if para in s.infos then s.infos[para].nextPosition else 0
  }

  /** One parachain's ring. */
  function RingOf(s: State, para: ParaId): Ring<ParaHash, ParaHead> {
    Ring(Get(s.hashes, para), Position(s, para), Get(s.heads, para))
  }

  /** A head is new when it was read at a later relay block and differs from the best head. */
  predicate ValidUpdate(info: Option<ParaInfo>, relayNumber: nat, hash: ParaHash) {
    info.Some? ==> info.value.atRelayNumber < relayNumber && info.value.headHash != hash
  }

  function InfoOf(s: State, para: ParaId): Option<ParaInfo> {
    if para in s.infos then Some(s.infos[para]) else None
  }

  function Updated(config: Config, s: State, para: ParaId, relayNumber: nat, head: ParaHead): Result<State, UpdateError>
    requires config.headsToKeep > 0
  {
    if !ValidUpdate(InfoOf(s, para), relayNumber, ParaHashOf(head)) then Err(ObsoleteHead)
    else if |head.bytes| > config.maxHeadSize then Err(LargeHead)
    else
      var ring := Inserted(RingOf(s, para), config.headsToKeep, ParaHashOf(head), head);
      Ok(State(s.infos[para := ParaInfo(relayNumber, ParaHashOf(head), ring.pointer)],
               s.hashes[para := ring.slots],
               s.heads[para := ring.items]))
  }

  /** The head a submitted item brings in, or why it brings none. */
  function Readable(config: Config, proven: map<ParaId, Option<ParaHead>>, item: (ParaId, ParaHash)): Result<ParaHead, Outcome> {
    if item.0 !in config.tracked then Err(Untracked)
    else if item.0 !in proven || proven[item.0].None? then Err(Missing)
    else if ParaHashOf(proven[item.0].value) != item.1 then Err(IncorrectHash)
    else Ok(proven[item.0].value)
  }

  function ItemDone(
    config: Config, proven: map<ParaId, Option<ParaHead>>, relayNumber: nat, s: State, item: (ParaId, ParaHash)): (State, Outcome)
    requires config.headsToKeep > 0
  {
    match Readable(config, proven, item)
    case Err(outcome) => (s, outcome)
    case Ok(head) =>
      match Updated(config, s, item.0, relayNumber, head)
      case Err(e) => (s, Refused(e))
      case Ok(next) => (next, Stored(Pruned(RingOf(s, item.0)).Some?))
  }

  function ItemsDone(
    config: Config, proven: map<ParaId, Option<ParaHead>>, relayNumber: nat, s: State, items: seq<(ParaId, ParaHash)>)
    : (State, seq<Outcome>)
    requires config.headsToKeep > 0
  {
    if items == [] then (s, [])
    else
      var last := |items| - 1;
      var (before, outcomes) := ItemsDone(config, proven, relayNumber, s, items[..last]);
      var (after, outcome) := ItemDone(config, proven, relayNumber, before, items[last]);
      (after, outcomes + [outcome])
  }

  function RefusalOf(relayHeaders: map<Hash, Header>, sub: Submission): Option<SubmissionError> {
    if sub.relayHash !in relayHeaders then Some(UnknownRelayChainBlock)
    else if relayHeaders[sub.relayHash].number != sub.relayNumber then Some(InvalidRelayChainBlockNumber)
    else if sub.proven.None? then Some(InvalidStorageProof)
    else None
  }

  // ---------------------------------------------------------------- runs

  datatype Import = Import(relayNumber: nat, head: ParaHead)

  /** The pallet and every head it has imported, per parachain, oldest first. */
  datatype Tracked = Tracked(state: State, imports: map<ParaId, seq<Import>>)

  function ImportsOf(t: Tracked, para: ParaId): seq<Import> {
    if para in t.imports then t.imports[para] else []
  }

  function Keyed(imports: seq<Import>): (history: History<ParaHash, ParaHead>)
    ensures |history| == |imports|
    ensures forall k | 0 <= k < |imports| :: history[k] == (ParaHashOf(imports[k].head), imports[k].head)
  {
    seq(|imports|, k requires 0 <= k < |imports| => (ParaHashOf(imports[k].head), imports[k].head))
  }

  function ItemTracked(
    config: Config, proven: map<ParaId, Option<ParaHead>>, relayNumber: nat, t: Tracked, item: (ParaId, ParaHash)): Tracked
    requires config.headsToKeep > 0
  {
    var (after, outcome) := ItemDone(config, proven, relayNumber, t.state, item);
    if outcome.Stored?
    then Tracked(after, t.imports[item.0 := ImportsOf(t, item.0) + [Import(relayNumber, proven[item.0].value)]])
    else Tracked(after, t.imports)
  }

  function ItemsTracked(
    config: Config, proven: map<ParaId, Option<ParaHead>>, relayNumber: nat, t: Tracked, items: seq<(ParaId, ParaHash)>): (r: Tracked)
    requires config.headsToKeep > 0
    ensures r.state == ItemsDone(config, proven, relayNumber, t.state, items).0
    decreases |items|
  {
    if items == [] then t
    else
      var last := |items| - 1;
      ItemTracked(config, proven, relayNumber, ItemsTracked(config, proven, relayNumber, t, items[..last]), items[last])
  }

  /** Any submissions, each with whatever relay headers are known when it arrives. */
  ghost function Run(config: Config, calls: seq<(map<Hash, Header>, Submission)>): (t: Tracked)
    requires config.headsToKeep > 0
    ensures Inv(config, t)
  {
    if calls == [] then
      EmptyInv(config);
      Tracked(EMPTY, map[])
    else
      var before := Run(config, calls[..|calls| - 1]);
      var (relayHeaders, sub) := calls[|calls| - 1];
      if RefusalOf(relayHeaders, sub).Some? then before
      else
        ItemsKeepInv(config, sub.proven.value, sub.relayNumber, before, sub.parachains);
        ItemsTracked(config, sub.proven.value, sub.relayNumber, before, sub.parachains)
  }

  /** No head comes back while an equal one is among the `keep` imported before it. A parachain that only grows never
      repeats a head. */
  ghost predicate NoNearRepeats(imports: seq<Import>, keep: nat) {
    forall i, k | 0 <= i < k < |imports| && k <= i + keep :: imports[i].head != imports[k].head
  }

  ghost predicate LaterAndLater(imports: seq<Import>) {
    forall i, k | 0 <= i < k < |imports| :: imports[i].relayNumber < imports[k].relayNumber
  }

  ghost predicate ParaInv(config: Config, s: State, para: ParaId, imports: seq<Import>)
    requires config.headsToKeep > 0
  {
    && (para in s.infos <==> imports != [])
    && LaterAndLater(imports)
    && (imports != [] ==>
          var last := imports[|imports| - 1];
          s.infos[para] == ParaInfo(last.relayNumber, ParaHashOf(last.head), s.infos[para].nextPosition))
    && (NoNearRepeats(imports, config.headsToKeep) ==> Holds(RingOf(s, para), config.headsToKeep, Keyed(imports)))
  }

  ghost predicate Inv(config: Config, t: Tracked)
    requires config.headsToKeep > 0
  {
    forall para: ParaId :: ParaInv(config, t.state, para, ImportsOf(t, para))
  }

  lemma EmptyInv(config: Config)
    requires config.headsToKeep > 0
    ensures Inv(config, Tracked(EMPTY, map[]))
  {
    EmptyHolds<ParaHash, ParaHead>(config.headsToKeep);
    forall para: ParaId ensures ParaInv(config, EMPTY, para, []) {
      assert Keyed([]) == [];
    }
  }

  /** An update changes its own parachain only. */
  lemma UpdateTouchesOneParachain(config: Config, s: State, para: ParaId, relayNumber: nat, head: ParaHead, other: ParaId)
    requires config.headsToKeep > 0 && Updated(config, s, para, relayNumber, head).Ok? && other != para
    ensures var after := Updated(config, s, para, relayNumber, head).value;
            RingOf(after, other) == RingOf(s, other) && InfoOf(after, other) == InfoOf(s, other)
  {}

  /** Exactly which items are stored: those of a tracked parachain whose proven head has the claimed hash, was read later
      than the best head and differs from it, and is not too large. Other items change nothing. */
  lemma ItemStoredIff(config: Config, proven: map<ParaId, Option<ParaHead>>, relayNumber: nat, s: State, item: (ParaId, ParaHash))
    requires config.headsToKeep > 0
    ensures var (after, outcome) := ItemDone(config, proven, relayNumber, s, item);
            && (outcome.Stored?
                <==> && item.0 in config.tracked
                     && item.0 in proven && proven[item.0].Some? && ParaHashOf(proven[item.0].value) == item.1
                     && (item.0 in s.infos ==> s.infos[item.0].atRelayNumber < relayNumber && s.infos[item.0].headHash != item.1)
                     && |proven[item.0].value.bytes| <= config.maxHeadSize)
            && (!outcome.Stored? ==> after == s)
            && (outcome.Stored? ==> item.0 in after.infos && after.infos[item.0].headHash == item.1
                                    && after.infos[item.0].atRelayNumber == relayNumber)
            && (outcome == Untracked <==> item.0 !in config.tracked)
  {
    hide Inserted;
  }

  /** `i` is the proven head of `para`, submitted under its own hash, at the relay number of a known relay header. */
  ghost predicate ClaimedBy(relayHeaders: map<Hash, Header>, sub: Submission, para: ParaId, i: Import) {
    && sub.relayHash in relayHeaders && relayHeaders[sub.relayHash].number == sub.relayNumber == i.relayNumber
    && sub.proven.Some? && para in sub.proven.value && sub.proven.value[para] == Some(i.head)
    && (para, ParaHashOf(i.head)) in sub.parachains
  }

  lemma {:induction false} ItemsImportClaims(
    config: Config, proven: map<ParaId, Option<ParaHead>>, relayNumber: nat, t: Tracked, items: seq<(ParaId, ParaHash)>,
    para: ParaId, i: Import)
    requires config.headsToKeep > 0 && i in ImportsOf(ItemsTracked(config, proven, relayNumber, t, items), para)
    ensures i in ImportsOf(t, para)
            || (&& para in config.tracked && para in proven && proven[para] == Some(i.head) && i.relayNumber == relayNumber
                && (para, ParaHashOf(i.head)) in items)
    decreases |items|
  {
    hide ItemDone;
    if items != [] {
      var last := |items| - 1;
      var before := ItemsTracked(config, proven, relayNumber, t, items[..last]);
      ItemStoredIff(config, proven, relayNumber, before.state, items[last]);
      if i in ImportsOf(before, para) {
        ItemsImportClaims(config, proven, relayNumber, t, items[..last], para, i);
      } else {
        assert items[last] == (para, ParaHashOf(i.head));
      }
    }
  }

  /** In every run, each stored head belongs to a tracked parachain and was the proven head of some submission that
      claimed exactly its hash, at a relay block known with that number. */
  lemma {:induction false} RunsStoreOnlyClaims(config: Config, calls: seq<(map<Hash, Header>, Submission)>, para: ParaId, i: Import)
    requires config.headsToKeep > 0 && i in ImportsOf(Run(config, calls), para)
    ensures para in config.tracked
    ensures exists c :: 0 <= c < |calls| && ClaimedBy(calls[c].0, calls[c].1, para, i)
    decreases |calls|
  {
    hide Inv;
    if calls != [] {
      var last := |calls| - 1;
      var before := Run(config, calls[..last]);
      var (relayHeaders, sub) := calls[last];
      if i in ImportsOf(before, para) {
        RunsStoreOnlyClaims(config, calls[..last], para, i);
        var c :| 0 <= c < last && ClaimedBy(calls[..last][c].0, calls[..last][c].1, para, i);
        assert ClaimedBy(calls[c].0, calls[c].1, para, i);
      } else {
        ItemsImportClaims(config, sub.proven.value, sub.relayNumber, before, sub.parachains, para, i);
        assert ClaimedBy(calls[last].0, calls[last].1, para, i);
      }
    }
  }

  /** A submission is looked at exactly when its relay block is known under the claimed number and its proof is valid. */
  lemma SubmissionAcceptedIff(relayHeaders: map<Hash, Header>, sub: Submission)
    ensures RefusalOf(relayHeaders, sub).None?
            <==> sub.relayHash in relayHeaders && relayHeaders[sub.relayHash].number == sub.relayNumber && sub.proven.Some?
  {}

  /** Within a ring that holds the last heads, a head that is not a near repeat is not stored yet. */
  lemma FreshHeadIsNotStored(keep: nat, ring: Ring<ParaHash, ParaHead>, imports: seq<Import>, i: Import)
    requires keep > 0 && Holds(ring, keep, Keyed(imports)) && NoNearRepeats(imports + [i], keep)
    ensures ParaHashOf(i.head) !in ring.items
  {
    forall k | WindowStart(|imports|, keep) <= k < |imports| ensures Keyed(imports)[k].0 != ParaHashOf(i.head) {
      assert (imports + [i])[k].head != (imports + [i])[|imports|].head;
    }
  }

  lemma PrefixHasNoNearRepeats(imports: seq<Import>, i: Import, keep: nat)
    requires NoNearRepeats(imports + [i], keep)
    ensures NoNearRepeats(imports, keep)
  {
    forall a, b | 0 <= a < b < |imports| && b <= a + keep ensures imports[a].head != imports[b].head {
      assert (imports + [i])[a].head != (imports + [i])[b].head;
    }
  }

  lemma UpdateKeepsParaInv(config: Config, s: State, para: ParaId, imports: seq<Import>, relayNumber: nat, head: ParaHead)
    requires config.headsToKeep > 0 && Updated(config, s, para, relayNumber, head).Ok?
    requires ParaInv(config, s, para, imports)
    ensures ParaInv(config, Updated(config, s, para, relayNumber, head).value, para, imports + [Import(relayNumber, head)])
  {
    hide Holds, NoNearRepeats;
    var i := Import(relayNumber, head);
    var after := Updated(config, s, para, relayNumber, head).value;
    forall k | 0 <= k < |imports| ensures imports[k].relayNumber < relayNumber {
      assert imports[k].relayNumber <= imports[|imports| - 1].relayNumber;
    }
    assert RingOf(after, para) == Inserted(RingOf(s, para), config.headsToKeep, ParaHashOf(head), head);
    if NoNearRepeats(imports + [i], config.headsToKeep) {
      PrefixHasNoNearRepeats(imports, i, config.headsToKeep);
      FreshHeadIsNotStored(config.headsToKeep, RingOf(s, para), imports, i);
      InsertionKeepsWindow(RingOf(s, para), config.headsToKeep, Keyed(imports), ParaHashOf(head), head);
      assert Keyed(imports + [i]) == Keyed(imports) + [(ParaHashOf(head), head)];
    }
  }

  lemma ItemKeepsInv(config: Config, proven: map<ParaId, Option<ParaHead>>, relayNumber: nat, t: Tracked, item: (ParaId, ParaHash))
    requires config.headsToKeep > 0 && Inv(config, t)
    ensures Inv(config, ItemTracked(config, proven, relayNumber, t, item))
  {
    hide ParaInv, Holds;
    var next := ItemTracked(config, proven, relayNumber, t, item);
    if ItemDone(config, proven, relayNumber, t.state, item).1.Stored? {
      var head := proven[item.0].value;
      forall para: ParaId ensures ParaInv(config, next.state, para, ImportsOf(next, para)) {
        assert ParaInv(config, t.state, para, ImportsOf(t, para));
        if para == item.0 {
          UpdateKeepsParaInv(config, t.state, para, ImportsOf(t, para), relayNumber, head);
        } else {
          UpdateTouchesOneParachain(config, t.state, item.0, relayNumber, head, para);
          SameParaInv(config, t.state, next.state, para, ImportsOf(t, para));
        }
      }
    }
  }

  lemma SameParaInv(config: Config, s: State, after: State, para: ParaId, imports: seq<Import>)
    requires config.headsToKeep > 0 && ParaInv(config, s, para, imports)
    requires RingOf(after, para) == RingOf(s, para) && InfoOf(after, para) == InfoOf(s, para)
    ensures ParaInv(config, after, para, imports)
  {}

  lemma {:induction false} ItemsKeepInv(
    config: Config, proven: map<ParaId, Option<ParaHead>>, relayNumber: nat, t: Tracked, items: seq<(ParaId, ParaHash)>)
    requires config.headsToKeep > 0 && Inv(config, t)
    ensures Inv(config, ItemsTracked(config, proven, relayNumber, t, items))
    decreases |items|
  {
    if items != [] {
      var last := |items| - 1;
      ItemsKeepInv(config, proven, relayNumber, t, items[..last]);
      ItemKeepsInv(config, proven, relayNumber, ItemsTracked(config, proven, relayNumber, t, items[..last]), items[last]);
    }
  }

  /** `head` is one of the last `keep` imports. */
  ghost predicate AmongLast(imports: seq<Import>, keep: nat, head: ParaHead) {
    exists k :: WindowStart(|imports|, keep) <= k < |imports| && imports[k].head == head
  }

  /** In every run, relay numbers of a parachain's imports strictly increase and its best head is the last import;
      if no import nearly repeats, its stored heads are exactly its last `min(n, K)`, the best one among them. */
  lemma RunsKeepLastHeads(config: Config, calls: seq<(map<Hash, Header>, Submission)>, para: ParaId)
    requires config.headsToKeep > 0
    ensures var t := Run(config, calls);
            var imports := ImportsOf(t, para);
            && LaterAndLater(imports)
            && (para in t.state.infos <==> imports != [])
            && (imports != [] ==> t.state.infos[para].headHash == ParaHashOf(imports[|imports| - 1].head))
            && (NoNearRepeats(imports, config.headsToKeep) ==>
                  && (forall head :: ParaHashOf(head) in Get(t.state.heads, para) <==> AmongLast(imports, config.headsToKeep, head))
                  && (imports != [] ==> t.state.infos[para].headHash in Get(t.state.heads, para)))
  {
    hide Run, Holds, NoNearRepeats, AmongLast, LaterAndLater;
    var t := Run(config, calls);
    var imports := ImportsOf(t, para);
    assert ParaInv(config, t.state, para, imports);
    if NoNearRepeats(imports, config.headsToKeep) {
      forall head ensures ParaHashOf(head) in Get(t.state.heads, para) <==> AmongLast(imports, config.headsToKeep, head) {
        RingHoldsLast(config.headsToKeep, RingOf(t.state, para), imports, head);
      }
      if imports != [] {
        NewestIsAmongLast(imports, config.headsToKeep);
      }
    }
  }

  lemma NewestIsAmongLast(imports: seq<Import>, keep: nat)
    requires keep > 0 && imports != []
    ensures AmongLast(imports, keep, imports[|imports| - 1].head)
  {}

  lemma RingHoldsLast(keep: nat, ring: Ring<ParaHash, ParaHead>, imports: seq<Import>, head: ParaHead)
    requires keep > 0 && Holds(ring, keep, Keyed(imports))
    ensures ParaHashOf(head) in ring.items <==> AmongLast(imports, keep, head)
  {
    HoldsExactlyWindow(ring, keep, Keyed(imports));
    if ParaHashOf(head) in ring.items {
      var k :| WindowStart(|imports|, keep) <= k < |imports| && Keyed(imports)[k].0 == ParaHashOf(head);
      assert imports[k].head == head;
    }
    if AmongLast(imports, keep, head) {
      var k :| WindowStart(|imports|, keep) <= k < |imports| && imports[k].head == head;
      assert Keyed(imports)[k].0 == ParaHashOf(head);
    }
  }

  /** When the new best head is stored after an update: exactly when it is not the oldest head of a full ring. */
  lemma BestIsStoredIff(config: Config, s: State, para: ParaId, imports: seq<Import>, relayNumber: nat, head: ParaHead)
    requires config.headsToKeep > 0 && Updated(config, s, para, relayNumber, head).Ok?
    requires Holds(RingOf(s, para), config.headsToKeep, Keyed(imports))
    ensures var after := Updated(config, s, para, relayNumber, head).value;
            after.infos[para].headHash in Get(after.heads, para)
            <==> (|imports| < config.headsToKeep || head != imports[|imports| - config.headsToKeep].head)
  {
    PrunesOldest(RingOf(s, para), config.headsToKeep, Keyed(imports));
    InsertedIsFoundIff(RingOf(s, para), config.headsToKeep, ParaHashOf(head), head);
  }

  /** With two heads kept, a parachain that returns to its previous head loses its best head. */
  lemma ReturningHeadIsLost() returns (config: Config, s: State, head: ParaHead)
    ensures config.headsToKeep == 2
    ensures Updated(config, s, 7, 3, head).Ok?
    ensures var after := Updated(config, s, 7, 3, head).value;
            after.infos[7].headHash == ParaHashOf(head) && ParaHashOf(head) !in Get(after.heads, 7)
  {
    config, head := Config({7}, 2, 10), ParaHead([1]);
    var first := Updated(config, EMPTY, 7, 1, head).value;
    s := Updated(config, first, 7, 2, ParaHead([2])).value;
  }

  // ---------------------------------------------------------------- the pallet

  class Pallet {
    const config: Config
    var infos: map<ParaId, ParaInfo>
    var hashes: map<ParaId, map<nat, ParaHash>>
    var heads: map<ParaId, map<ParaHash, ParaHead>>

    function View(): State
      reads this
    {
      State(infos, hashes, heads)
    }

    constructor (config: Config)
      ensures View() == EMPTY && this.config == config
    {
      this.config := config;
      infos, hashes, heads := map[], map[], map[];
    }

    method UpdateParachainHead(para: ParaId, relayNumber: nat, head: ParaHead) returns (result: Result<bool, UpdateError>)
      requires config.headsToKeep > 0
      modifies this
      ensures match Updated(config, old(View()), para, relayNumber, head)
              case Err(e) => result == Err(e) && View() == old(View())
              case Ok(next) => result == Ok(Pruned(RingOf(old(View()), para)).Some?) && View() == next
    {
      var hash := ParaHashOf(head);
      if para in infos {
        if infos[para].atRelayNumber >= relayNumber {
          return Err(ObsoleteHead);
        }
        if infos[para].headHash == hash {
          return Err(ObsoleteHead);
        }
      }
      if |head.bytes| > config.maxHeadSize {
        return Err(LargeHead);
      }
      var position: nat := if para in infos then infos[para].nextPosition else 0;
      var slots: map<nat, ParaHash> := Get(hashes, para);
      var toPrune := if position in slots then Some(slots[position]) else None;
      infos := infos[para := ParaInfo(relayNumber, hash, (position + 1) % config.headsToKeep)];
      hashes := hashes[para := slots[position := hash]];
      var kept := Get(heads, para)[hash := head];
      heads := heads[para := kept];
      if toPrune.Some? {
        kept := kept - {toPrune.value};
        heads := heads[para := kept];
      }
      assert heads == old(heads)[para := kept];
      result := Ok(toPrune.Some?);
    }

    method SubmitParachainHeads(relayHeaders: map<Hash, Header>, sub: Submission)
      returns (result: Result<seq<Outcome>, SubmissionError>)
      requires config.headsToKeep > 0
      modifies this
      ensures match RefusalOf(relayHeaders, sub)
              case Some(e) => result == Err(e) && View() == old(View())
              case None =>
                var (after, outcomes) := ItemsDone(config, sub.proven.value, sub.relayNumber, old(View()), sub.parachains);
                result == Ok(outcomes) && View() == after
    {
      if sub.relayHash !in relayHeaders {
        return Err(UnknownRelayChainBlock);
      }
      if relayHeaders[sub.relayHash].number != sub.relayNumber {
        return Err(InvalidRelayChainBlockNumber);
      }
      if sub.proven.None? {
        return Err(InvalidStorageProof);
      }
      var proven := sub.proven.value;
      var outcomes: seq<Outcome> := [];
      for k := 0 to |sub.parachains|
        invariant (View(), outcomes)
                  == ItemsDone(config, proven, sub.relayNumber, old(View()), sub.parachains[..k])
      {
        assert sub.parachains[..k + 1][..k] == sub.parachains[..k];
        var (para, claimed) := sub.parachains[k];
        if para !in config.tracked {
          outcomes := outcomes + [Untracked];
          continue;
        }
        if para !in proven || proven[para].None? {
          outcomes := outcomes + [Missing];
          continue;
        }
        var head := proven[para].value;
        if claimed != ParaHashOf(head) {
          outcomes := outcomes + [IncorrectHash];
          continue;
        }
        var updated := UpdateParachainHead(para, sub.relayNumber, head);
        match updated {
          case Ok(pruned) => outcomes := outcomes + [Stored(pruned)];
          case Err(e) => outcomes := outcomes + [Refused(e)];
        }
      }
      assert sub.parachains[..|sub.parachains|] == sub.parachains;
      result := Ok(outcomes);
    }
  }
}
