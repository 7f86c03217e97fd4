/** A ring of hashes over a hash-keyed store, as both the header and the parachain-head pallets keep one
    (`insert_header`, modules/grandpa/src/lib.rs; `update_parachain_head`, modules/parachains/src/lib.rs). */
module RingStore {
  import opened Wrappers

  datatype Ring<H, V> = Ring(slots: map<nat, H>, pointer: nat, items: map<H, V>)

  /** What has been inserted, oldest first. */
  type History<H, V> = seq<(H, V)>

  /** The hash that the next insertion removes. */
  function Pruned<H, V>(r: Ring<H, V>): Option<H> {
    if r.pointer in r.slots then Some(r.slots[r.pointer]) else None
  }

  function WithoutItem<H, V>(items: map<H, V>, pruned: Option<H>): map<H, V> {
    if pruned.Some? then items - {pruned.value} else items
  }

  /** Insert first, then remove what the slot held before. */
  function Inserted<H, V>(r: Ring<H, V>, keep: nat, hash: H, item: V): Ring<H, V>
    requires keep > 0
  {
    Ring(r.slots[r.pointer := hash], (r.pointer + 1) % keep, WithoutItem(r.items[hash := item], Pruned(r)))
  }

  /** First index of the last `keep` entries. */
  function WindowStart(length: nat, keep: nat): nat {
    Max(0, length - keep)
  }

  /** The ring holds exactly the last `keep` entries of the history, one slot and one item each. */
  ghost predicate Holds<H, V>(r: Ring<H, V>, keep: nat, history: History<H, V>)
    requires keep > 0
  {
    var start := WindowStart(|history|, keep);
    && r.pointer == |history| % keep
    && (forall i :: i in r.slots <==> 0 <= i < |history| && i < keep)
    && (forall j | start <= j < |history| :: SlotHolds(r, keep, history, j))
    && (forall j, k | start <= j < k < |history| :: history[j].0 != history[k].0)
    && (forall h | h in r.items :: exists j :: start <= j < |history| && history[j].0 == h)
  }

  ghost predicate SlotHolds<H, V>(r: Ring<H, V>, keep: nat, history: History<H, V>, j: nat)
    requires keep > 0 && j < |history|
  {
    && j % keep in r.slots
    && r.slots[j % keep] == history[j].0
    && history[j].0 in r.items
    && r.items[history[j].0] == history[j].1
  }

  lemma ModStep(n: nat, keep: nat)
    requires keep > 0
    ensures (n % keep + 1) % keep == (n + 1) % keep
  {
    var q, r := n / keep, n % keep;
    Divided(n, keep);
    if r + 1 < keep {
      ModUnique(r + 1, keep, 0, r + 1);
      ModUnique(n + 1, keep, q, r + 1);
    } else {
      OneMore(keep, q);
      ModUnique(keep, keep, 1, 0);
      ModUnique(n + 1, keep, q + 1, 0);
    }
  }

  lemma Divided(n: nat, keep: nat)
    requires keep > 0
    ensures n == keep * (n / keep) + n % keep && n % keep < keep
  {}

  lemma OneMore(keep: nat, q: nat)
    ensures keep * (q + 1) == keep * q + keep
  {}

  lemma ModUnique(n: nat, keep: nat, q: nat, r: nat)
    requires keep > 0 && r < keep && n == keep * q + r
    ensures n % keep == r
  {
    var d := n / keep - q;
    Divided(n, keep);
    assert keep * d == r - n % keep;
    Scaled(keep, d);
    assert d == 0;
  }

  lemma Scaled(keep: nat, d: int)
    requires keep > 0
    ensures d >= 1 ==> keep * d >= keep
    ensures d <= -1 ==> keep * d <= -(keep as int)
  {
    if d >= 1 { assert keep * (d - 1) >= 0; }
    if d <= -1 { assert keep * (d + 1) <= 0; }
  }

  /** Indices closer than `keep` use different slots, and indices `keep` apart use the same one. */
  lemma SlotsCycle(j: nat, n: nat, keep: nat)
    requires keep > 0 && j < n <= j + keep
    ensures n % keep == j % keep <==> n == j + keep
  {
    var q, s := j / keep, j % keep;
    Divided(j, keep);
    OneMore(keep, q);
    if n == j + keep {
      ModUnique(n, keep, q + 1, s);
    } else if s + (n - j) < keep {
      ModUnique(n, keep, q, s + (n - j));
    } else {
      ModUnique(n, keep, q + 1, s + (n - j) - keep);
    }
  }

  /** The hash pruned by the next insertion is the oldest one held, and only when the ring is full. */
  lemma PrunesOldest<H, V>(r: Ring<H, V>, keep: nat, history: History<H, V>)
    requires keep > 0 && Holds(r, keep, history)
    ensures Pruned(r) == if |history| < keep then None else Some(history[|history| - keep].0)
  {
    if |history| < keep {
      ModUnique(|history|, keep, 0, |history|);
    } else {
      assert SlotHolds(r, keep, history, |history| - keep);
      SlotsCycle(|history| - keep, |history|, keep);
    }
  }

  /** Inserting a hash that is not held moves the window by one entry. */
  lemma InsertionKeepsWindow<H, V>(r: Ring<H, V>, keep: nat, history: History<H, V>, hash: H, item: V)
    requires keep > 0 && Holds(r, keep, history) && hash !in r.items
    ensures Holds(Inserted(r, keep, hash, item), keep, history + [(hash, item)])
  {
    var after, longer := Inserted(r, keep, hash, item), history + [(hash, item)];
    var n, start := |history|, WindowStart(|history| + 1, keep);
    PrunesOldest(r, keep, history);
    ModStep(n, keep);
    if n >= keep { assert SlotHolds(r, keep, history, n - keep); }
    if n < keep { ModUnique(n, keep, 0, n); }
    forall j | start <= j < |longer| ensures SlotHolds(after, keep, longer, j) {
      if j < n {
        assert SlotHolds(r, keep, history, j);
        SlotsCycle(j, n, keep);
        assert n >= keep ==> history[n - keep].0 != history[j].0;
      }
    }
    forall j | start <= j < n ensures longer[j].0 != hash {
      assert SlotHolds(r, keep, history, j);
    }
    forall h | h in after.items ensures exists j :: start <= j < |longer| && longer[j].0 == h {
      if h == hash {
        assert longer[n].0 == h;
      } else {
        var j :| WindowStart(n, keep) <= j < n && history[j].0 == h;
        assert longer[j].0 == h;
      }
    }
  }

  /** The store seen as a map: the last `keep` entries and nothing else. */
  lemma HoldsExactlyWindow<H, V>(r: Ring<H, V>, keep: nat, history: History<H, V>)
    requires keep > 0 && Holds(r, keep, history)
    ensures forall h :: h in r.items <==> exists j :: WindowStart(|history|, keep) <= j < |history| && history[j].0 == h
    ensures forall j | WindowStart(|history|, keep) <= j < |history| ::
              history[j].0 in r.items && r.items[history[j].0] == history[j].1
  {
    forall j | WindowStart(|history|, keep) <= j < |history|
      ensures history[j].0 in r.items && r.items[history[j].0] == history[j].1
    {
      assert SlotHolds(r, keep, history, j);
    }
  }

  /** A just inserted entry is found again exactly when its hash is not the one being pruned. */
  lemma InsertedIsFoundIff<H, V>(r: Ring<H, V>, keep: nat, hash: H, item: V)
    requires keep > 0
    ensures hash in Inserted(r, keep, hash, item).items <==> Pruned(r) != Some(hash)
  {}

  lemma EmptyHolds<H, V>(keep: nat)
    requires keep > 0
    ensures Holds<H, V>(Ring(map[], 0, map[]), keep, [])
  {
    ModUnique(0, keep, 0, 0);
  }
}
