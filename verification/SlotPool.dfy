/** The fixed pool of order slots, its free list and the id index. */
module SlotPool {
  import opened BookTypes

  /** Every slot of a pool of n, once. */
  ghost function AllSlots(n: nat): multiset<nat> {
    if n == 0 then multiset{} else AllSlots(n - 1) + multiset{n - 1}
  }

  lemma {:induction false} AllSlotsOnce(n: nat, s: nat)
    ensures AllSlots(n)[s] == if s < n then 1 else 0
    ensures |AllSlots(n)| == n
  {
    if n != 0 {
      AllSlotsOnce(n - 1, s);
    }
  }

  /** The index holds exactly the used slots, each under its order's id. */
  ghost predicate IndexOk(byId: map<string, nat>, storage: seq<Order>, used: multiset<nat>) {
    && (forall s :: s in used ==> s < |storage| && storage[s].command.id in byId && byId[storage[s].command.id] == s)
    && (forall id :: id in byId ==> byId[id] in used && byId[id] < |storage| && storage[byId[id]].command.id == id)
  }

  /**
   Free and used slots partition the pool, the index holds the used ones, and
   the live count is what is not free.
   */
  ghost predicate PoolOk(storage: seq<Order>, free: seq<nat>, byId: map<string, nat>, live: int, used: multiset<nat>)
  {
    && multiset(free) + used == AllSlots(|storage|)
    && IndexOk(byId, storage, used)
    && live == |storage| - |free|
  }

  lemma UsedOnce(storage: seq<Order>, free: seq<nat>, byId: map<string, nat>, live: int, used: multiset<nat>, s: nat)
    requires PoolOk(storage, free, byId, live, used)
    ensures used[s] <= 1
    ensures s in used ==> s < |storage| && s !in free
  {
    AllSlotsOnce(|storage|, s);
    assert AllSlots(|storage|)[s] == multiset(free)[s] + used[s];
  }

  lemma PoolCount(storage: seq<Order>, free: seq<nat>, byId: map<string, nat>, live: int, used: multiset<nat>)
    requires PoolOk(storage, free, byId, live, used)
    ensures |free| + |used| == |storage| && live == |used|
  {
    AllSlotsOnce(|storage|, 0);
    assert |multiset(free)| == |free|;
    assert |multiset(free) + used| == |multiset(free)| + |used|;
  }

  /** Changing an order without changing its command. */
  lemma PoolUpdate(storage: seq<Order>, free: seq<nat>, byId: map<string, nat>, live: int, used: multiset<nat>,
                   s: nat, o: Order)
    requires PoolOk(storage, free, byId, live, used)
    requires s < |storage| && o.command == storage[s].command
    ensures PoolOk(storage[s := o], free, byId, live, used)
  {
  }

  lemma IndexAcquire(byId: map<string, nat>, storage: seq<Order>, used: multiset<nat>, s: nat, o: Order)
    requires IndexOk(byId, storage, used) && s < |storage| && s !in used && o.command.id !in byId
    ensures IndexOk(byId[o.command.id := s], storage[s := o], used + multiset{s})
  {
  }

  lemma LastFree(storage: seq<Order>, free: seq<nat>, used: multiset<nat>)
    requires multiset(free) + used == AllSlots(|storage|) && free != []
    ensures var s := free[|free| - 1];
      s < |storage| && s !in used && multiset(free[..|free| - 1]) + (used + multiset{s}) == AllSlots(|storage|)
  {
    var s := free[|free| - 1];
    var rest := free[..|free| - 1];
    assert free == rest + [s];
    assert multiset(free) == multiset(rest) + multiset{s};
    AllSlotsOnce(|storage|, s);
    assert AllSlots(|storage|)[s] == multiset(free)[s] + used[s];
  }

  lemma PoolAcquire(storage: seq<Order>, free: seq<nat>, byId: map<string, nat>, live: int, used: multiset<nat>,
                    o: Order)
    requires PoolOk(storage, free, byId, live, used)
    requires free != [] && o.command.id !in byId
    ensures var s := free[|free| - 1];
      && s < |storage| && s !in used
      && PoolOk(storage[s := o], free[..|free| - 1], byId[o.command.id := s], live + 1, used + multiset{s})
  {
    LastFree(storage, free, used);
    IndexAcquire(byId, storage, used, free[|free| - 1], o);
  }

  lemma PoolRelease(storage: seq<Order>, free: seq<nat>, byId: map<string, nat>, live: int, used: multiset<nat>, s: nat)
    requires PoolOk(storage, free, byId, live, used) && s in used
    ensures s < |storage|
    ensures PoolOk(storage, free + [s], byId - {storage[s].command.id}, live - 1, used - multiset{s})
  {
    hide IndexOk;
    UsedOnce(storage, free, byId, live, used, s);
    IndexRelease(byId, storage, used, s);
    assert used == (used - multiset{s}) + multiset{s};
    assert multiset(free + [s]) == multiset(free) + multiset{s};
  }

  lemma IndexRelease(byId: map<string, nat>, storage: seq<Order>, used: multiset<nat>, s: nat)
    requires IndexOk(byId, storage, used) && used[s] == 1 && s < |storage|
    ensures IndexOk(byId - {storage[s].command.id}, storage, used - multiset{s})
  {
  }
}
