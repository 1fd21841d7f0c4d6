/** Slot arithmetic shared by the ring buffers: a sequence number lives in slot seq % size. */
module Ring {
  import opened Config

  /** Two numbers less than one lap apart never share a slot, in any of the ring sizes the code uses. */
  lemma SlotsDiffer(a: nat, b: nat, size: nat)
    requires size == 16 || size == 32 || size == 128
    requires a < b < a + size
    ensures a % size != b % size
  {
    if size == 16 {
      assert a % 16 != b % 16;
    } else if size == 32 {
      assert a % 32 != b % 32;
    } else {
      assert a % 128 != b % 128;
    }
  }

  // ----- History rings of 128 slots -----

  datatype Entry<T> = Entry(s: nat, value: T, valid: bool)

  /** The slot of a sequence number. */
  function Slot(s: nat): (k: nat)
    ensures k < HISTORY_SIZE
  {
    s % HISTORY_SIZE
  }

  /** Within one lap no two sequences share a slot; one lap on the slots repeat. */
  lemma SlotsOfALap(lo: nat, s: nat)
    requires lo < s <= lo + HISTORY_SIZE + 1
    ensures forall t: nat | lo < t < s && s - t < HISTORY_SIZE :: Slot(t) != Slot(s)
    ensures s == lo + HISTORY_SIZE + 1 ==> Slot(lo + 1) == Slot(s)
  {
    forall t: nat | lo < t < s && s - t < HISTORY_SIZE ensures Slot(t) != Slot(s) {
      SlotsDiffer(t, s, HISTORY_SIZE);
    }
  }

  predicate Finds<T>(ring: seq<Entry<T>>, s: nat)
    requires |ring| == HISTORY_SIZE
  {
    ring[Slot(s)].valid && ring[Slot(s)].s == s
  }

  /**
   * The valid slots of the ring are exactly those of one contiguous run: sequence lo + 1 holds vals[0], and so
   * on up to lo + |vals|.
   */
  ghost predicate Retains<T>(ring: seq<Entry<T>>, lo: nat, vals: seq<T>) {
    && |ring| == HISTORY_SIZE && |vals| <= HISTORY_SIZE
    && (forall s: nat | lo < s <= lo + |vals| :: Finds(ring, s) && ring[Slot(s)].value == vals[s - lo - 1])
    && (forall i | 0 <= i < HISTORY_SIZE && ring[i].valid :: lo < ring[i].s <= lo + |vals| && Slot(ring[i].s) == i)
  }

  /** Looking a sequence up finds it exactly when it is in the run. */
  lemma FindsExactlyTheRun<T>(ring: seq<Entry<T>>, lo: nat, vals: seq<T>, s: nat)
    requires Retains(ring, lo, vals)
    ensures Finds(ring, s) <==> lo < s <= lo + |vals|
  {
  }

  /** Storing the next sequence appends it; a full ring forgets its oldest entry and nothing else. */
  lemma Store<T>(ring: seq<Entry<T>>, lo: nat, vals: seq<T>, v: T)
    requires Retains(ring, lo, vals)
    ensures var s := lo + |vals| + 1; var ring' := ring[Slot(s) := Entry(s, v, true)];
      if |vals| < HISTORY_SIZE then Retains(ring', lo, vals + [v]) else Retains(ring', lo + 1, vals[1..] + [v])
  {
    hide Slot;
    SlotsOfALap(lo, lo + |vals| + 1);
  }

  /** An empty ring may be thought of as ending anywhere. */
  lemma EmptyAnywhere<T>(ring: seq<Entry<T>>, lo: nat, other: nat)
    requires Retains(ring, lo, [])
    ensures Retains(ring, other, [])
  {
  }

  /** Invalidating every sequence in [first, last]. */
  function Without<T>(ring: seq<Entry<T>>, first: nat, last: nat): seq<Entry<T>> {
    seq(|ring|, i requires 0 <= i < |ring| =>
      if ring[i].valid && first <= ring[i].s <= last then ring[i].(valid := false) else ring[i])
  }

  /** Dropping everything up to k shortens the run from the front. */
  lemma DropUpTo<T>(ring: seq<Entry<T>>, lo: nat, vals: seq<T>, k: nat)
    requires Retains(ring, lo, vals)
    ensures var n := if k <= lo then 0 else if k - lo < |vals| then k - lo else |vals|;
      Retains(Without(ring, 0, k), lo + n, vals[n..])
  {
  }

  /** Dropping everything from the first retained sequence on empties the ring. */
  lemma DropAll<T>(ring: seq<Entry<T>>, lo: nat, vals: seq<T>, first: nat, last: nat)
    requires Retains(ring, lo, vals) && first <= lo + 1 && lo + |vals| <= last
    ensures Retains(Without(ring, first, last), lo, [])
  {
  }

  /** The slots whose valid sequence is newer than k. */
  function NewerSlots<T>(ring: seq<Entry<T>>, k: nat, n: nat): set<int>
    requires n <= |ring|
  {
    set i | 0 <= i < n && ring[i].valid && ring[i].s > k
  }

  /** Counting slots counts sequences: as many as the run has entries after k. */
  lemma {:induction false} CountNewer<T>(ring: seq<Entry<T>>, lo: nat, vals: seq<T>, k: nat)
    requires Retains(ring, lo, vals)
    ensures |NewerSlots(ring, k, HISTORY_SIZE)| == if k <= lo then |vals| else if k < lo + |vals| then lo + |vals| - k else 0
    decreases |vals|
  {
    if vals == [] || lo + |vals| <= k {
      assert NewerSlots(ring, k, HISTORY_SIZE) == {};
    } else {
      var s := lo + |vals|;
      var ring' := Without(ring, s, s);
      WithoutLast(ring, lo, vals);
      CountNewer(ring', lo, vals[..|vals| - 1], k);
      OneSlotMore(ring, lo, vals, k);
    }
  }

  /** The last sequence of the run takes one slot. */
  lemma OneSlotMore<T>(ring: seq<Entry<T>>, lo: nat, vals: seq<T>, k: nat)
    requires Retains(ring, lo, vals) && vals != [] && k < lo + |vals|
    ensures var s := lo + |vals|; var slots' := NewerSlots(Without(ring, s, s), k, HISTORY_SIZE);
      Slot(s) !in slots' && NewerSlots(ring, k, HISTORY_SIZE) == slots' + {Slot(s)}
  {
    hide Slot;
    var s := lo + |vals|;
    assert Finds(ring, s);
  }

  lemma WithoutLast<T>(ring: seq<Entry<T>>, lo: nat, vals: seq<T>)
    requires Retains(ring, lo, vals) && vals != []
    ensures Retains(Without(ring, lo + |vals|, lo + |vals|), lo, vals[..|vals| - 1])
  {
  }
}
