/** The votes' ancestry chain and its early-stopping descent check (primitives/header-chain/src/justification.rs). */
module Ancestry {
  import opened Wrappers
  import opened BridgedChain

  type Parents = map<Hash, Hash>

  // ---------------------------------------------------------------- the plain walk

  datatype Walk = Reached | Lost | Walking

  /** Follow parent links from `from` for at most `steps` steps, stopping at `target`. */
  function WalkFrom(parents: Parents, target: Hash, from: Hash, steps: nat): Walk
    decreases steps
  {
    if from == target then Reached
    else if from !in parents then Lost
    else if steps == 0 then Walking
    else WalkFrom(parents, target, parents[from], steps - 1)
  }

  /** The walk from `from` arrives at `target`. */
  ghost predicate Descends(parents: Parents, target: Hash, from: Hash) {
    exists n: nat :: WalkFrom(parents, target, from, n) == Reached
  }

  /** The walk from `from` leaves the known headers without meeting `target`. */
  ghost predicate GetsLost(parents: Parents, target: Hash, from: Hash) {
    exists n: nat :: WalkFrom(parents, target, from, n) == Lost
  }

  /** After `n` steps the walk from `from` stands at the known header `h`, before `target`. */
  predicate VisitsAt(parents: Parents, target: Hash, from: Hash, h: Hash, n: nat)
    decreases n
  {
    from != target && from in parents
    && if n == 0 then from == h else VisitsAt(parents, target, parents[from], h, n - 1)
  }

  ghost predicate Visits(parents: Parents, target: Hash, from: Hash, h: Hash) {
    exists n: nat :: VisitsAt(parents, target, from, h, n)
  }

  /** `n` parent links lead from `from` to `to`. */
  predicate LinksTo(parents: Parents, from: Hash, to: Hash, n: nat)
    decreases n
  {
    if n == 0 then from == to else from in parents && LinksTo(parents, parents[from], to, n - 1)
  }

  ghost predicate ProperlyLinksTo(parents: Parents, from: Hash, to: Hash) {
    exists n: nat :: n > 0 && LinksTo(parents, from, to, n)
  }

  /** No header is its own proper ancestor. */
  ghost predicate Acyclic(parents: Parents) {
    forall h, n: nat | n > 0 :: !LinksTo(parents, h, h, n)
  }

  lemma {:induction false} WalkIsStable(parents: Parents, target: Hash, from: Hash, n: nat, m: nat)
    requires WalkFrom(parents, target, from, n) != Walking && n <= m
    ensures WalkFrom(parents, target, from, m) == WalkFrom(parents, target, from, n)
    decreases n
  {
    if from != target && from in parents {
      WalkIsStable(parents, target, parents[from], n - 1, m - 1);
    }
  }

  /** A walk cannot both arrive and get lost. */
  lemma DescentIsNotLost(parents: Parents, target: Hash, from: Hash)
    requires Descends(parents, target, from)
    ensures !GetsLost(parents, target, from)
  {
    var n: nat :| WalkFrom(parents, target, from, n) == Reached;
    forall m: nat ensures WalkFrom(parents, target, from, m) != Lost {
      if n <= m {
        WalkIsStable(parents, target, from, n, m);
      } else if WalkFrom(parents, target, from, m) != Walking {
        WalkIsStable(parents, target, from, m, n);
      }
    }
  }

  lemma {:induction false} LinkAppended(parents: Parents, from: Hash, to: Hash, n: nat)
    requires LinksTo(parents, from, to, n) && to in parents
    ensures LinksTo(parents, from, parents[to], n + 1)
    decreases n
  {
    if n > 0 {
      LinkAppended(parents, parents[from], to, n - 1);
    }
  }

  /** Without cycles every walk ends: it can never come back to a header it has `seen`. */
  lemma {:induction false} AcyclicWalkEnds(parents: Parents, target: Hash, from: Hash, seen: set<Hash>) returns (n: nat)
    requires Acyclic(parents)
    requires forall h | h in seen :: ProperlyLinksTo(parents, h, from)
    ensures WalkFrom(parents, target, from, n) != Walking
    decreases parents.Keys - seen
  {
    if from == target || from !in parents {
      n := 0;
    } else {
      assert from !in seen;
      forall h | h in seen + {from} ensures ProperlyLinksTo(parents, h, parents[from]) {
        if h in seen {
          var k: nat :| k > 0 && LinksTo(parents, h, from, k);
          LinkAppended(parents, h, from, k);
          assert LinksTo(parents, h, parents[from], k + 1);
        } else {
          assert LinksTo(parents, parents[from], parents[from], 0);
          assert LinksTo(parents, h, parents[from], 1);
        }
      }
      var m := AcyclicWalkEnds(parents, target, parents[from], seen + {from});
      n := m + 1;
    }
  }

  /** On acyclic ancestries, not getting lost and descending are the same. */
  lemma AcyclicDescentIff(parents: Parents, target: Hash, from: Hash)
    requires Acyclic(parents)
    ensures Descends(parents, target, from) <==> !GetsLost(parents, target, from)
  {
    var n := AcyclicWalkEnds(parents, target, from, {});
    if Descends(parents, target, from) {
      DescentIsNotLost(parents, target, from);
    }
  }

  // ---------------------------------------------------------------- the early-stopping walk

  datatype Descent = Descent(ok: bool, unvisited: set<Hash>, turns: nat)

  /** The walk that marks headers as visited and stops with success at a header visited before. */
  function Ensured(parents: Parents, unvisited: set<Hash>, target: Hash, from: Hash): (r: Descent)
    ensures r.unvisited <= unvisited
    ensures r.turns <= |unvisited| + 1
    decreases |unvisited|
  {
    if from == target then Descent(true, unvisited, 1)
    else if from !in parents then Descent(false, unvisited - {from}, 1)
    else if from !in unvisited then Descent(true, unvisited, 1)
    else
      assert |unvisited - {from}| == |unvisited| - 1;
      var rest := Ensured(parents, unvisited - {from}, target, parents[from]);
      rest.(turns := rest.turns + 1)
  }

  /** Each visited header's parent is `target`, is visited too, or is where the walk now stands. */
  ghost predicate ClosedUpTo(parents: Parents, unvisited: set<Hash>, target: Hash, pending: Hash) {
    forall h | h in parents && h !in unvisited ::
      h != target
      && (parents[h] == target || parents[h] == pending || (parents[h] in parents && parents[h] !in unvisited))
  }

  /** What successful checks leave behind: visited headers only lead to visited headers or to `target`. */
  ghost predicate Closed(parents: Parents, unvisited: set<Hash>, target: Hash) {
    ClosedUpTo(parents, unvisited, target, target)
  }

  /** A walk that starts in a closed set of visited headers stays there until it meets `target`. */
  lemma {:induction false} ClosedWalk(parents: Parents, unvisited: set<Hash>, target: Hash, from: Hash, n: nat)
    requires Closed(parents, unvisited, target)
    requires from == target || (from in parents && from !in unvisited)
    ensures WalkFrom(parents, target, from, n) != Lost
    ensures forall h | VisitsAt(parents, target, from, h, n) :: h !in unvisited
    decreases n
  {
    if from != target && n > 0 {
      ClosedWalk(parents, unvisited, target, parents[from], n - 1);
    }
  }

  lemma {:induction false} EnsuredCloses(parents: Parents, unvisited: set<Hash>, target: Hash, from: Hash)
    requires ClosedUpTo(parents, unvisited, target, from)
    ensures var r := Ensured(parents, unvisited, target, from);
            && (r.ok ==> Closed(parents, r.unvisited, target)
                         && (from == target || (from in parents && from !in r.unvisited)))
            && (!r.ok ==> GetsLost(parents, target, from))
    decreases |unvisited|
  {
    if from == target {
    } else if from !in parents {
      assert WalkFrom(parents, target, from, 0) == Lost;
    } else if from in unvisited {
      assert |unvisited - {from}| == |unvisited| - 1;
      EnsuredCloses(parents, unvisited - {from}, target, parents[from]);
      if !Ensured(parents, unvisited, target, from).ok {
        var n: nat :| WalkFrom(parents, target, parents[from], n) == Lost;
        assert WalkFrom(parents, target, from, n + 1) == Lost;
      }
    }
  }

  lemma {:induction false} EnsuredMarksOnlyPath(parents: Parents, unvisited: set<Hash>, target: Hash, from: Hash, h: Hash)
    requires h in unvisited && h !in Ensured(parents, unvisited, target, from).unvisited
    requires Ensured(parents, unvisited, target, from).ok
    ensures Visits(parents, target, from, h)
    decreases |unvisited|
  {
    if h == from {
      assert VisitsAt(parents, target, from, h, 0);
    } else {
      assert |unvisited - {from}| == |unvisited| - 1;
      EnsuredMarksOnlyPath(parents, unvisited - {from}, target, parents[from], h);
      var n: nat :| VisitsAt(parents, target, parents[from], h, n);
      assert VisitsAt(parents, target, from, h, n + 1);
    }
  }

  /** After any successful checks with the same target, on any parent map: the check succeeds exactly when the full
      walk does not get lost, and then it has marked exactly the headers that the full walk visits. */
  lemma EnsuredIsExact(parents: Parents, unvisited: set<Hash>, target: Hash, from: Hash)
    requires Closed(parents, unvisited, target)
    ensures var r := Ensured(parents, unvisited, target, from);
            && (r.ok <==> !GetsLost(parents, target, from))
            && (r.ok ==> Closed(parents, r.unvisited, target))
            && (r.ok ==> forall h | h in unvisited :: h !in r.unvisited <==> Visits(parents, target, from, h))
  {
    EnsuredCloses(parents, unvisited, target, from);
    var r := Ensured(parents, unvisited, target, from);
    if r.ok {
      forall n: nat ensures WalkFrom(parents, target, from, n) != Lost {
        ClosedWalk(parents, r.unvisited, target, from, n);
      }
      forall h | h in unvisited ensures h !in r.unvisited <==> Visits(parents, target, from, h) {
        if h !in r.unvisited {
          EnsuredMarksOnlyPath(parents, unvisited, target, from, h);
        }
        if Visits(parents, target, from, h) {
          var n: nat :| VisitsAt(parents, target, from, h, n);
          ClosedWalk(parents, r.unvisited, target, from, n);
        }
      }
    }
  }

  /** On an acyclic ancestry the early stop answers exactly as a full walk to the target does. */
  lemma EarlyStopIsSound(parents: Parents, unvisited: set<Hash>, target: Hash, from: Hash)
    requires Acyclic(parents) && Closed(parents, unvisited, target)
    ensures Ensured(parents, unvisited, target, from).ok <==> Descends(parents, target, from)
  {
    EnsuredIsExact(parents, unvisited, target, from);
    AcyclicDescentIff(parents, target, from);
  }

  /** On a cyclic map the check can accept a header that never leads to the target. */
  lemma CyclicMapIsAccepted() returns (parents: Parents, target: Hash, from: Hash)
    ensures Ensured(parents, parents.Keys, target, from).ok && !Descends(parents, target, from)
  {
    var a := HashOf(Header(1, NoHash, [], 0));
    from := HashOf(Header(2, NoHash, [], 0));
    target := NoHash;
    parents := map[a := from, from := a];
    EnsuredIsExact(parents, parents.Keys, target, from);
    forall n: nat ensures WalkFrom(parents, target, from, n) == Walking {
      TwoCycleWalks(parents, target, a, from, n);
    }
  }

  lemma {:induction false} TwoCycleWalks(parents: Parents, target: Hash, a: Hash, b: Hash, n: nat)
    requires a in parents && b in parents && parents[a] == b && parents[b] == a && target != a && target != b
    ensures WalkFrom(parents, target, b, n) == Walking
    decreases n
  {
    if n > 0 {
      TwoCycleWalks(parents, target, b, a, n - 1);
    }
  }

  // ---------------------------------------------------------------- ancestries built from headers

  /** The parent links of a list of headers. */
  function ParentLinks(headers: seq<Header>): Parents {
    map header | header in headers :: HashOf(header) := header.parentHash
  }

  lemma NoLinks(headers: seq<Header>)
    ensures ParentLinks(headers[..0]) == map[]
  {}

  lemma OneMoreLink(headers: seq<Header>, k: nat)
    requires k < |headers|
    ensures ParentLinks(headers[..k + 1]) == ParentLinks(headers[..k])[HashOf(headers[k]) := headers[k].parentHash]
  {
    assert headers[..k + 1] == headers[..k] + [headers[k]];
  }

  lemma {:induction false} LinksGoUp(parents: Parents, from: Hash, to: Hash, n: nat)
    requires forall h | h in parents :: h.HashOf? && parents[h] == h.header.parentHash
    requires LinksTo(parents, from, to, n)
    ensures Depth(to) + n <= Depth(from)
    decreases n
  {
    if n > 0 {
      LinksGoUp(parents, parents[from], to, n - 1);
    }
  }

  /** Parent links taken from headers never form a cycle. */
  lemma HeadersAreAcyclic(headers: seq<Header>)
    ensures Acyclic(ParentLinks(headers))
  {
    var parents := ParentLinks(headers);
    forall h, n: nat | n > 0 ensures !LinksTo(parents, h, h, n) {
      if LinksTo(parents, h, h, n) { LinksGoUp(parents, h, h, n); }
    }
  }

  class AncestryChain {
    const parents: Parents
    var unvisited: set<Hash>

    constructor (ancestry: seq<Header>)
      ensures parents == ParentLinks(ancestry) && unvisited == parents.Keys
    {
      hide ParentLinks;
      var links: Parents, hashes: set<Hash> := map[], {};
      NoLinks(ancestry);
      for k := 0 to |ancestry|
        invariant links == ParentLinks(ancestry[..k]) && hashes == links.Keys
      {
        var hash := HashOf(ancestry[k]);
        links := links[hash := ancestry[k].parentHash];
        hashes := hashes + {hash};
        OneMoreLink(ancestry, k);
      }
      assert ancestry[..|ancestry|] == ancestry;
      parents, unvisited := links, hashes;
    }

    /** Succeeds and marks headers exactly as `Ensured` says, on any parent map, in at most `|unvisited| + 1` turns. */
    method EnsureDescendant(commitTarget: Hash, precommitTarget: Hash) returns (ok: bool, ghost turns: nat)
      modifies this`unvisited
      ensures Descent(ok, unvisited, turns) == Ensured(parents, old(unvisited), commitTarget, precommitTarget)
      ensures turns <= old(|unvisited|) + 1
    {
      var current := precommitTarget;
      turns := 1;
      while current != commitTarget
        invariant turns >= 1
        invariant Ensured(parents, old(unvisited), commitTarget, precommitTarget)
                  == Ensured(parents, unvisited, commitTarget, current)
                     .(turns := Ensured(parents, unvisited, commitTarget, current).turns + turns - 1)
        decreases |unvisited|
      {
        var visitedBefore := current !in unvisited;
        assert current in unvisited ==> |unvisited - {current}| == |unvisited| - 1;
        unvisited := unvisited - {current};
        if current !in parents {
          return false, turns;
        }
        if visitedBefore {
          return true, turns;
        }
        current := parents[current];
        turns := turns + 1;
      }
      ok := true;
    }
  }
}
