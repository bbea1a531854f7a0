/** The lease table of core/src/power_owner.cpp: a fixed number of slots, each handing out a
    bounded number of generations, with reference counts per domain. */
module PowerLeases {
  import opened PowerState

  const CAPACITY: nat := 8
  const SLOT_SPAN: nat := 16
  const MAX_GRANTS_PER_SLOT: nat := 0x1000_0000 - 1

  type LeaseId = n: nat | n < 0x1_0000_0000

  const NO_LEASE: LeaseId := 0

  datatype LeaseError = None | NoDomains | Exhausted | NotHeld | Retired | HardwareFailed

  /** A slot.  Generation zero means free. */
  datatype Entry = Entry(generation: nat, domains: Mask, deadline: nat)

  /** What a consumer holds, as the consumer sees it. */
  datatype Lease = Lease(domains: Mask, deadline: nat)

  const FREE := Entry(0, {}, 0)

  /** What a handle names: a slot and the generation it was cut from. */
  datatype Key = Key(slot: nat, generation: nat)

  function KeyOf(id: LeaseId): Key {
    Key(id % SLOT_SPAN, id / SLOT_SPAN)
  }

  /** `slot | generation << kSlotBits`.  No two keys share a handle and no key is `NO_LEASE`. */
  function Handle(k: Key): (id: LeaseId)
    requires k.slot < SLOT_SPAN && 1 <= k.generation <= MAX_GRANTS_PER_SLOT
    ensures KeyOf(id) == k && id != NO_LEASE
  {
    k.slot + SLOT_SPAN * k.generation
  }

  lemma KeysIdentifyHandles(a: LeaseId, b: LeaseId)
    requires KeyOf(a) == KeyOf(b)
    ensures a == b
  {
  }

  function Holding(live: map<Key, Lease>, d: nat): set<Key> {
    set k | k in live && d in live[k].domains
  }

  /** The domains some live lease names. */
  ghost function HeldSet(live: map<Key, Lease>): set<nat> {
    set k, d | k in live && d in live[k].domains :: d
  }

  ghost predicate Overdue(live: map<Key, Lease>, now: nat, k: Key) {
    k in live && live[k].deadline != 0 && now > live[k].deadline
  }

  /** Keys that occupy distinct slots below `n` are at most `n` many, so the eight-bit counters
      of the table cannot wrap. */
  lemma {:induction false} DistinctSlotsBound(s: set<Key>, n: nat)
    requires forall k :: k in s ==> k.slot < n
    requires forall j, k :: j in s && k in s && j.slot == k.slot ==> j == k
    ensures |s| <= n
    decreases n
  {
    if n == 0 {
      assert s == {};
    } else if k :| k in s && k.slot == n - 1 {
      DistinctSlotsBound(s - {k}, n - 1);
      assert |s| == |s - {k}| + 1;
    } else {
      DistinctSlotsBound(s, n - 1);
    }
  }

  lemma HoldingAfterGrant(live: map<Key, Lease>, k: Key, lease: Lease, d: nat)
    requires k !in live
    ensures |Holding(live[k := lease], d)|
         == |Holding(live, d)| + if d in lease.domains then 1 else 0
  {
    var after := Holding(live[k := lease], d);
    if d in lease.domains {
      assert after == Holding(live, d) + {k};
    } else {
      assert after == Holding(live, d);
    }
  }

  lemma HoldingAfterRelease(live: map<Key, Lease>, k: Key, d: nat)
    requires k in live
    ensures |Holding(live, d)|
         == |Holding(live - {k}, d)| + if d in live[k].domains then 1 else 0
  {
    HoldingAfterGrant(live - {k}, k, live[k], d);
    assert live == (live - {k})[k := live[k]];
  }

  // The agreement between the table's fields and the leases they stand for.

  /** The key a slot's entry stands for, if it is not free. */
  function Occupant(entries: seq<Entry>, s: nat): Key
    requires s < |entries|
  {
    Key(s, entries[s].generation)
  }

  /** The occupied slots are exactly the live leases. */
  ghost predicate SlotsAgree(entries: seq<Entry>, next: seq<nat>, live: map<Key, Lease>)
    requires |entries| == |next| == CAPACITY
  {
    && (forall s {:trigger Occupant(entries, s)} :: 0 <= s < CAPACITY && entries[s].generation != 0 ==>
          entries[s].generation == next[s] && Occupant(entries, s) in live)
    && (forall k :: k in live ==>
          && k.slot < CAPACITY && k.generation != 0
          && entries[k.slot] == Entry(k.generation, live[k].domains, live[k].deadline)
          && live[k].domains != {} && forall d :: d in live[k].domains ==> d < DOMAIN_COUNT)
  }

  /** A slot has granted every generation up to its counter and none beyond. */
  ghost predicate GrantsAgree(next: seq<nat>, granted: set<Key>, budget: nat)
    requires |next| == CAPACITY
  {
    && (forall s :: 0 <= s < CAPACITY ==> next[s] <= budget)
    && (forall k :: k in granted <==> k.slot < CAPACITY && 1 <= k.generation <= next[k.slot])
  }

  ghost predicate CountsAgree(holders: seq<nat>, outstanding: nat, live: map<Key, Lease>) {
    && outstanding == |live| && |holders| == DOMAIN_COUNT
    && forall d :: 0 <= d < DOMAIN_COUNT ==> holders[d] == |Holding(live, d)|
  }

  ghost predicate TableAgrees(entries: seq<Entry>, next: seq<nat>, holders: seq<nat>, outstanding: nat,
                              live: map<Key, Lease>) {
    |entries| == |next| == CAPACITY && SlotsAgree(entries, next, live) && CountsAgree(holders, outstanding, live)
  }

  /** Every handle the budget allows has been granted. */
  ghost predicate AllGranted(granted: set<Key>, budget: nat) {
    forall k: Key :: k.slot < CAPACITY && 1 <= k.generation <= budget ==> k in granted
  }

  /** Some slot holds nothing live and still has a handle nobody was given. */
  ghost predicate CanGrant(live: map<Key, Lease>, granted: set<Key>, budget: nat) {
    exists k: Key :: Grantable(k, live, granted, budget)
  }

  ghost predicate Grantable(k: Key, live: map<Key, Lease>, granted: set<Key>, budget: nat) {
    && k !in granted && k.slot < CAPACITY && 1 <= k.generation <= budget
    && forall j :: j in live ==> j.slot != k.slot
  }

  lemma NothingToGrant(entries: seq<Entry>, next: seq<nat>, live: map<Key, Lease>, granted: set<Key>, budget: nat)
    requires |entries| == |next| == CAPACITY
    requires SlotsAgree(entries, next, live) && GrantsAgree(next, granted, budget)
    requires forall s :: 0 <= s < CAPACITY ==> entries[s].generation != 0 || next[s] >= budget
    ensures !CanGrant(live, granted, budget)
  {
    forall k | k !in granted && k.slot < CAPACITY && 1 <= k.generation <= budget
      ensures exists j :: j in live && j.slot == k.slot
    {
      var j := Occupant(entries, k.slot);
      assert j in live && j.slot == k.slot;
    }
  }

  lemma SlotCanGrant(s: nat, entries: seq<Entry>, next: seq<nat>, live: map<Key, Lease>, granted: set<Key>, budget: nat)
    requires |entries| == |next| == CAPACITY && s < CAPACITY
    requires SlotsAgree(entries, next, live) && GrantsAgree(next, granted, budget)
    requires entries[s].generation == 0 && next[s] < budget
    ensures Key(s, next[s] + 1) !in granted && Key(s, next[s] + 1) !in live
    ensures CanGrant(live, granted, budget) && !AllGranted(granted, budget)
  {
    assert Grantable(Key(s, next[s] + 1), live, granted, budget);
  }

  lemma SpentMeansAllGranted(next: seq<nat>, granted: set<Key>, budget: nat)
    requires |next| == CAPACITY && GrantsAgree(next, granted, budget)
    ensures AllGranted(granted, budget) <==> forall s :: 0 <= s < CAPACITY ==> next[s] >= budget
  {
    if s :| 0 <= s < CAPACITY && next[s] < budget {
      assert Key(s, next[s] + 1) !in granted;
    }
  }

  lemma GrantAgrees(k: Key, lease: Lease, entries: seq<Entry>, next: seq<nat>, live: map<Key, Lease>,
                    granted: set<Key>, budget: nat)
    requires |entries| == |next| == CAPACITY && k.slot < CAPACITY
    requires SlotsAgree(entries, next, live) && GrantsAgree(next, granted, budget)
    requires entries[k.slot].generation == 0 && 1 <= k.generation == next[k.slot] + 1 <= budget
    requires lease.domains != {} && lease.domains <= ALL_DOMAINS
    ensures SlotsAgree(entries[k.slot := Entry(k.generation, lease.domains, lease.deadline)],
                       next[k.slot := k.generation], live[k := lease])
    ensures GrantsAgree(next[k.slot := k.generation], granted + {k}, budget)
  {
    var after := entries[k.slot := Entry(k.generation, lease.domains, lease.deadline)];
    forall s | 0 <= s < CAPACITY && after[s].generation != 0
      ensures after[s].generation == next[k.slot := k.generation][s] && Occupant(after, s) in live[k := lease]
    {
      assert s == k.slot || Occupant(after, s) == Occupant(entries, s);
    }
  }

  lemma FreeAgrees(k: Key, entries: seq<Entry>, next: seq<nat>, live: map<Key, Lease>)
    requires |entries| == |next| == CAPACITY && k in live && SlotsAgree(entries, next, live)
    ensures k.slot < CAPACITY && SlotsAgree(entries[k.slot := FREE], next, live - {k})
  {
    var after := entries[k.slot := FREE];
    forall s | 0 <= s < CAPACITY && after[s].generation != 0
      ensures after[s].generation == next[s] && Occupant(after, s) in live - {k}
    {
      assert Occupant(after, s) == Occupant(entries, s);
    }
  }

  class LeaseTable {
    const grantsPerSlot: nat
    var entries: seq<Entry>
    var nextGeneration: seq<nat>
    var holders: seq<nat>
    var outstanding: nat

    /** The leases held now, every handle ever granted, and whether `Retired` was ever answered. */
    ghost var live: map<Key, Lease>
    ghost var granted: set<Key>
    ghost var retired: bool

    ghost predicate Valid()
      reads this
    {
      && grantsPerSlot <= MAX_GRANTS_PER_SLOT && |nextGeneration| == CAPACITY
      && TableAgrees(entries, nextGeneration, holders, outstanding, live)
      && GrantsAgree(nextGeneration, granted, grantsPerSlot)
      && (retired ==> AllGranted(granted, grantsPerSlot))
    }

    constructor (budget: nat)
      ensures Valid() && live == map[] && granted == {} && !retired
      ensures grantsPerSlot == if budget < MAX_GRANTS_PER_SLOT then budget else MAX_GRANTS_PER_SLOT
    {
      grantsPerSlot := if budget < MAX_GRANTS_PER_SLOT then budget else MAX_GRANTS_PER_SLOT;
      entries := seq(CAPACITY, _ => FREE);
      nextGeneration := seq(CAPACITY, _ => 0);
      holders := seq(DOMAIN_COUNT, _ => 0);
      outstanding := 0;
      live, granted, retired := map[], {}, false;
      new;
      assert forall d :: Holding(live, d) == {};
    }

    method Acquire(domains: Mask, deadline: nat) returns (id: LeaseId, why: LeaseError)
      requires Valid()
      modifies this
      ensures Valid()
      ensures why == if domains * ALL_DOMAINS == {} then NoDomains
                     else if CanGrant(old(live), old(granted), grantsPerSlot) then None
                     else if AllGranted(old(granted), grantsPerSlot) then Retired else Exhausted
      ensures why == None ==>
                && id != NO_LEASE && KeyOf(id) !in old(granted)
                && granted == old(granted) + {KeyOf(id)}
                && live == old(live)[KeyOf(id) := Lease(domains * ALL_DOMAINS, deadline)]
      ensures why != None ==> id == NO_LEASE && granted == old(granted) && live == old(live)
      ensures retired == (old(retired) || why == Retired)
      ensures old(retired) ==> why in {NoDomains, Retired}
    {
      var want: Mask := domains * ALL_DOMAINS;
      if want == {} {
        return NO_LEASE, NoDomains;
      }
      var slot := FreeSlot();
      if slot == CAPACITY {
        var spent := AllSpent();
        NothingToGrant(entries, nextGeneration, live, granted, grantsPerSlot);
        retired := retired || spent;
        return NO_LEASE, if spent then Retired else Exhausted;
      }
      SlotCanGrant(slot, entries, nextGeneration, live, granted, grantsPerSlot);
      var k := Key(slot, nextGeneration[slot] + 1);
      Grant(k, Lease(want, deadline));
      return Handle(k), None;
    }

    /** The first slot that is free and not spent, or `CAPACITY`. */
    method FreeSlot() returns (slot: nat)
      requires Valid()
      ensures slot <= CAPACITY
      ensures slot < CAPACITY ==> entries[slot].generation == 0 && nextGeneration[slot] < grantsPerSlot
      ensures forall s :: 0 <= s < slot ==> entries[s].generation != 0 || nextGeneration[s] >= grantsPerSlot
    {
      slot := 0;
      while slot < CAPACITY
        invariant slot <= CAPACITY
        invariant forall s :: 0 <= s < slot ==> entries[s].generation != 0 || nextGeneration[s] >= grantsPerSlot
      {
        if entries[slot].generation == 0 && nextGeneration[slot] < grantsPerSlot {
          return;
        }
        slot := slot + 1;
      }
    }

    method AllSpent() returns (spent: bool)
      requires Valid()
      ensures spent <==> AllGranted(granted, grantsPerSlot)
    {
      SpentMeansAllGranted(nextGeneration, granted, grantsPerSlot);
      for s := 0 to CAPACITY
        invariant forall t :: 0 <= t < s ==> nextGeneration[t] >= grantsPerSlot
      {
        if nextGeneration[s] < grantsPerSlot {
          return false;
        }
      }
      return true;
    }

    method Grant(k: Key, lease: Lease)
      requires Valid() && !AllGranted(granted, grantsPerSlot)
      requires k.slot < CAPACITY && entries[k.slot].generation == 0
      requires 1 <= k.generation == nextGeneration[k.slot] + 1 <= grantsPerSlot
      requires k !in live && lease.domains != {} && lease.domains <= ALL_DOMAINS
      modifies this
      ensures Valid() && retired == old(retired)
      ensures live == old(live)[k := lease] && granted == old(granted) + {k}
    {
      GrantAgrees(k, lease, entries, nextGeneration, live, granted, grantsPerSlot);
      holders := CountUp(k, lease);
      entries, nextGeneration, outstanding, live, granted :=
        entries[k.slot := Entry(k.generation, lease.domains, lease.deadline)],
        nextGeneration[k.slot := k.generation], outstanding + 1, live[k := lease], granted + {k};
    }

    method CountUp(k: Key, lease: Lease) returns (counts: seq<nat>)
      requires CountsAgree(holders, outstanding, live) && k !in live
      ensures CountsAgree(counts, outstanding + 1, live[k := lease])
    {
      counts := holders;
      for d := 0 to DOMAIN_COUNT
        invariant |counts| == DOMAIN_COUNT
        invariant forall e :: 0 <= e < d ==> counts[e] == |Holding(live[k := lease], e)|
        invariant forall e :: d <= e < DOMAIN_COUNT ==> counts[e] == |Holding(live, e)|
      {
        HoldingAfterGrant(live, k, lease, d);
        if d in lease.domains {
          counts := counts[d := counts[d] + 1];
        }
      }
    }

    /** The guard on the decrement never fires: a release never meets a count of zero. */
    method CountDown(k: Key, domains: Mask) returns (counts: seq<nat>)
      requires CountsAgree(holders, outstanding, live) && k in live && live[k].domains == domains
      ensures outstanding > 0 && CountsAgree(counts, outstanding - 1, live - {k})
    {
      counts := holders;
      for d := 0 to DOMAIN_COUNT
        invariant |counts| == DOMAIN_COUNT
        invariant forall e :: 0 <= e < d ==> counts[e] == |Holding(live - {k}, e)|
        invariant forall e :: d <= e < DOMAIN_COUNT ==> counts[e] == |Holding(live, e)|
      {
        HoldingAfterRelease(live, k, d);
        if d in domains && counts[d] > 0 {
          counts := counts[d := counts[d] - 1];
        }
      }
    }

    /** Exactly the live handles can be released, each once: a handle leaves `live` here and
        `Acquire` never grants it again. */
    method Release(id: LeaseId) returns (ok: bool, why: LeaseError)
      requires Valid()
      modifies this
      ensures Valid()
      ensures ok == (KeyOf(id) in old(live)) && why == if ok then None else NotHeld
      ensures live == old(live) - {KeyOf(id)}
      ensures granted == old(granted) && retired == old(retired)
    {
      var slot := id % SLOT_SPAN;
      var generation := id / SLOT_SPAN;
      if id == NO_LEASE || slot >= CAPACITY || generation == 0 || entries[slot].generation != generation {
        assert Key(slot, generation) !in live;
        assert live == live - {Key(slot, generation)};
        return false, NotHeld;
      }
      assert Occupant(entries, slot) in live;
      Free(Key(slot, generation));
      return true, None;
    }

    method Free(k: Key)
      requires TableAgrees(entries, nextGeneration, holders, outstanding, live) && k in live
      modifies `entries, `holders, `outstanding, `live
      ensures TableAgrees(entries, nextGeneration, holders, outstanding, live) && live == old(live) - {k}
    {
      FreeAgrees(k, entries, nextGeneration, live);
      holders := CountDown(k, entries[k.slot].domains);
      outstanding, entries, live := outstanding - 1, entries[k.slot := FREE], live - {k};
    }

    method Held() returns (mask: Mask)
      requires Valid()
      ensures mask == HeldSet(live)
    {
      mask := HeldBits();
      HeldDomains(live, mask);
    }

    method HeldBits() returns (mask: Mask)
      requires CountsAgree(holders, outstanding, live)
      ensures forall e :: e in mask <==> 0 <= e < DOMAIN_COUNT && Holding(live, e) != {}
    {
      mask := {};
      for d := 0 to DOMAIN_COUNT
        invariant forall e :: e in mask <==> 0 <= e < d && Holding(live, e) != {}
      {
        if holders[d] > 0 {
          mask := mask + {d};
        }
      }
    }

    method OverdueDomains(now: nat) returns (mask: Mask)
      requires Valid()
      ensures forall d :: d in mask <==> exists k :: Overdue(live, now, k) && d in live[k].domains
    {
      mask := {};
      for s := 0 to CAPACITY
        invariant forall d :: d in mask <==>
                    exists k :: Overdue(live, now, k) && k.slot < s && d in live[k].domains
      {
        var e := entries[s];
        ghost var k := Occupant(entries, s);
        if e.generation != 0 && e.deadline != 0 && now > e.deadline {
          assert Overdue(live, now, k) && k.slot == s;
          mask := mask + e.domains;
        }
        assert forall j :: Overdue(live, now, j) && j.slot == s ==> j == k;
      }
    }

    /** The eight-bit counters stay within the table's capacity. */
    lemma CountersFit()
      requires Valid()
      ensures outstanding <= CAPACITY
      ensures forall d :: 0 <= d < DOMAIN_COUNT ==> holders[d] <= CAPACITY
    {
      DistinctSlotsBound(live.Keys, CAPACITY);
      forall d | 0 <= d < DOMAIN_COUNT ensures holders[d] <= CAPACITY {
        DistinctSlotsBound(Holding(live, d), CAPACITY);
      }
    }
  }

  lemma HeldDomains(live: map<Key, Lease>, mask: Mask)
    requires forall k, d :: k in live && d in live[k].domains ==> d < DOMAIN_COUNT
    requires forall e :: e in mask <==> 0 <= e < DOMAIN_COUNT && Holding(live, e) != {}
    ensures mask == HeldSet(live)
  {
    forall d: nat ensures d in mask <==> d in HeldSet(live) {
      if d in HeldSet(live) {
        var k :| k in live && d in live[k].domains;
        assert k in Holding(live, d);
      }
      if d in mask {
        var k :| k in Holding(live, d);
      }
    }
  }
}
