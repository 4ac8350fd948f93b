/** The live inventory of one character: stacks, unique instances and equipment, with a running total of
    the carried weight. */
module Inventories {
  import opened Outcomes
  import InventoryStates

  // ----- sums over maps -----

  /** The sum of the values under some keys; which key is taken first does not matter. */
  ghost function SumOver(keys: set<string>, m: map<string, nat>): nat
    requires keys <= m.Keys
  {
    if keys == {} then 0 else
      var k :| k in keys;
      m[k] + SumOver(keys - {k}, m)
  }

  ghost function Sum(m: map<string, nat>): nat {
    SumOver(m.Keys, m)
  }

  lemma {:induction false} SumTakes(keys: set<string>, m: map<string, nat>, k: string)
    requires keys <= m.Keys && k in keys
    ensures SumOver(keys, m) == m[k] + SumOver(keys - {k}, m)
    decreases |keys|
  {
    var first :| first in keys && SumOver(keys, m) == m[first] + SumOver(keys - {first}, m);
    if first != k {
      SumTakes(keys - {first}, m, k);
      SumTakes(keys - {k}, m, first);
      assert keys - {first} - {k} == keys - {k} - {first};
    }
  }

  lemma {:induction false} SumSame(keys: set<string>, m: map<string, nat>, n: map<string, nat>)
    requires keys <= m.Keys && keys <= n.Keys && forall k :: k in keys ==> m[k] == n[k]
    ensures SumOver(keys, m) == SumOver(keys, n)
    decreases |keys|
  {
    if keys != {} {
      var k :| k in keys;
      SumTakes(keys, m, k);
      SumTakes(keys, n, k);
      SumSame(keys - {k}, m, n);
    }
  }

  lemma SumWithout(m: map<string, nat>, k: string)
    requires k in m
    ensures Sum(m) == m[k] + Sum(m - {k})
  {
    SumTakes(m.Keys, m, k);
    assert (m - {k}).Keys == m.Keys - {k};
    SumSame(m.Keys - {k}, m, m - {k});
  }

  function Value(m: map<string, nat>, k: string): nat {
    if k in m then m[k] else 0
  }

  lemma SumUpdate(m: map<string, nat>, k: string, v: nat)
    ensures Sum(m[k := v]) + Value(m, k) == Sum(m) + v
  {
    SumWithout(m[k := v], k);
    assert m[k := v] - {k} == m - {k};
    if k in m {
      SumWithout(m, k);
    } else {
      assert m - {k} == m;
    }
  }

  // ----- the inventory -----

  datatype Instance = Instance(id: string, archetype: string, affixes: seq<int>)

  const SLOTS := {"main_hand", "off_hand", "helmet", "chest", "gloves", "legs", "boots"}

  datatype Fault =
    | InvalidArchetype | InvalidQuantity | InvalidInstance | InstanceExists | InstanceNotFound | Full | WeightExceeded
    | Insufficient | QuantityOverflow | InvalidSlot | SlotOccupied | SlotEmpty

  /** Everything but the running total and the revisions. */
  datatype Contents = Contents(stacks: map<string, nat>, instances: map<string, Instance>,
                               equipped: map<string, string>, worn: map<string, Instance>)

  datatype Policy = Policy(maxStacks: nat, maxWeight: nat, defaultUnit: nat, units: map<string, nat>)

  /** `weightFor`: nothing weighs anything without a limit. */
  function Weight(p: Policy, archetype: string, quantity: nat): nat {
    if p.maxWeight == 0 then 0
    else (if archetype in p.units && p.units[archetype] > 0 then p.units[archetype] else p.defaultUnit) * quantity
  }

  function StackWeights(p: Policy, stacks: map<string, nat>): map<string, nat> {
    map a | a in stacks :: Weight(p, a, stacks[a])
  }

  function InstanceWeights(p: Policy, instances: map<string, Instance>): map<string, nat> {
    map k | k in instances :: Weight(p, instances[k].archetype, 1)
  }

  function EquippedWeights(p: Policy, equipped: map<string, string>): map<string, nat> {
    map slot | slot in equipped :: Weight(p, equipped[slot], 1)
  }

  /** The summed weight of stacks, instances and everything worn. */
  ghost function TotalWeight(p: Policy, c: Contents): nat {
    Sum(StackWeights(p, c.stacks)) + Sum(InstanceWeights(p, c.instances)) + Sum(EquippedWeights(p, c.equipped)) + Sum(InstanceWeights(p, c.worn))
  }

  predicate ValidSlot(slot: string) {
    slot in SLOTS
  }

  predicate GoodStack(stacks: map<string, nat>, a: string) {
    a in stacks ==> a != "" && 0 < stacks[a] <= MAX_UINT32
  }

  predicate GoodInstance(instances: map<string, Instance>, id: string) {
    id in instances ==> id != "" && instances[id].id == id
  }

  predicate GoodEquipped(equipped: map<string, string>, worn: map<string, Instance>, slot: string) {
    slot in equipped ==> ValidSlot(slot) && equipped[slot] != "" && slot !in worn
  }

  predicate GoodWorn(worn: map<string, Instance>, instances: map<string, Instance>, slot: string) {
    slot in worn ==> ValidSlot(slot) && worn[slot].id != "" && worn[slot].id !in instances
  }

  predicate Different(worn: map<string, Instance>, s: string, t: string) {
    s in worn && t in worn && s != t ==> worn[s].id != worn[t].id
  }

  /** No stack is empty, every instance id is in one place, every slot holds at most one thing, and what is
      not worn takes at most the allowed number of entries. */
  ghost predicate Sound(p: Policy, c: Contents) {
    && |c.stacks| + |c.instances| <= p.maxStacks
    && (forall a {:trigger GoodStack(c.stacks, a)} :: GoodStack(c.stacks, a))
    && (forall id {:trigger GoodInstance(c.instances, id)} :: GoodInstance(c.instances, id))
    && (forall slot {:trigger GoodEquipped(c.equipped, c.worn, slot)} :: GoodEquipped(c.equipped, c.worn, slot))
    && (forall slot {:trigger GoodWorn(c.worn, c.instances, slot)} :: GoodWorn(c.worn, c.instances, slot))
    && (forall s, t {:trigger Different(c.worn, s, t)} :: Different(c.worn, s, t))
  }

  /** The running total is the summed weight, and within the limit if there is one. */
  ghost predicate Balanced(p: Policy, c: Contents, weight: nat) {
    Sound(p, c) && weight == TotalWeight(p, c) && (p.maxWeight > 0 ==> weight <= p.maxWeight)
  }

  // ----- what moves between the parts -----

  function WearersOf(equipped: map<string, string>, a: string): set<string> {
    set slot | slot in equipped && equipped[slot] == a
  }

  /** How many of one archetype there are, stacked or worn. */
  function Count(c: Contents, a: string): nat {
    Value(c.stacks, a) + |WearersOf(c.equipped, a)|
  }

  /** The instance is there, worn or not. */
  predicate Holds(c: Contents, i: Instance) {
    i in c.instances.Values || i in c.worn.Values
  }

  lemma StackChange(p: Policy, stacks: map<string, nat>, a: string, q: nat)
    ensures Sum(StackWeights(p, stacks[a := q])) + Weight(p, a, Value(stacks, a)) == Sum(StackWeights(p, stacks)) + Weight(p, a, q)
  {
    assert StackWeights(p, stacks[a := q]) == StackWeights(p, stacks)[a := Weight(p, a, q)];
    SumUpdate(StackWeights(p, stacks), a, Weight(p, a, q));
  }

  lemma StackGone(p: Policy, stacks: map<string, nat>, a: string)
    requires a in stacks
    ensures Sum(StackWeights(p, stacks - {a})) + Weight(p, a, stacks[a]) == Sum(StackWeights(p, stacks))
  {
    assert StackWeights(p, stacks - {a}) == StackWeights(p, stacks) - {a};
    SumWithout(StackWeights(p, stacks), a);
  }

  lemma InstanceChange(p: Policy, instances: map<string, Instance>, k: string, i: Instance)
    requires k !in instances
    ensures Sum(InstanceWeights(p, instances[k := i])) == Sum(InstanceWeights(p, instances)) + Weight(p, i.archetype, 1)
  {
    assert InstanceWeights(p, instances[k := i]) == InstanceWeights(p, instances)[k := Weight(p, i.archetype, 1)];
    SumUpdate(InstanceWeights(p, instances), k, Weight(p, i.archetype, 1));
  }

  lemma InstanceGone(p: Policy, instances: map<string, Instance>, k: string)
    requires k in instances
    ensures Sum(InstanceWeights(p, instances - {k})) + Weight(p, instances[k].archetype, 1) == Sum(InstanceWeights(p, instances))
  {
    assert InstanceWeights(p, instances - {k}) == InstanceWeights(p, instances) - {k};
    SumWithout(InstanceWeights(p, instances), k);
  }

  lemma EquippedChange(p: Policy, equipped: map<string, string>, slot: string, a: string)
    requires slot !in equipped
    ensures Sum(EquippedWeights(p, equipped[slot := a])) == Sum(EquippedWeights(p, equipped)) + Weight(p, a, 1)
  {
    assert EquippedWeights(p, equipped[slot := a]) == EquippedWeights(p, equipped)[slot := Weight(p, a, 1)];
    SumUpdate(EquippedWeights(p, equipped), slot, Weight(p, a, 1));
  }

  lemma EquippedGone(p: Policy, equipped: map<string, string>, slot: string)
    requires slot in equipped
    ensures Sum(EquippedWeights(p, equipped - {slot})) + Weight(p, equipped[slot], 1) == Sum(EquippedWeights(p, equipped))
  {
    assert EquippedWeights(p, equipped - {slot}) == EquippedWeights(p, equipped) - {slot};
    SumWithout(EquippedWeights(p, equipped), slot);
  }

  lemma WeightAdds(p: Policy, a: string, q: nat, r: nat)
    ensures Weight(p, a, q + r) == Weight(p, a, q) + Weight(p, a, r)
  {
  }

  /** A stack after `quantity` of it has gone. */
  function Fewer(stacks: map<string, nat>, a: string, quantity: nat): map<string, nat>
    requires a in stacks
  {
    if quantity >= stacks[a] then stacks - {a} else stacks[a := stacks[a] - quantity]
  }

  function More(stacks: map<string, nat>, a: string, quantity: nat): map<string, nat> {
    stacks[a := Value(stacks, a) + quantity]
  }

  lemma MoreWeighs(p: Policy, stacks: map<string, nat>, a: string, quantity: nat)
    ensures Sum(StackWeights(p, More(stacks, a, quantity))) == Sum(StackWeights(p, stacks)) + Weight(p, a, quantity)
  {
    StackChange(p, stacks, a, Value(stacks, a) + quantity);
    WeightAdds(p, a, Value(stacks, a), quantity);
  }

  lemma FewerWeighs(p: Policy, stacks: map<string, nat>, a: string, quantity: nat)
    requires a in stacks && quantity <= stacks[a]
    ensures Sum(StackWeights(p, Fewer(stacks, a, quantity))) + Weight(p, a, quantity) == Sum(StackWeights(p, stacks))
  {
    WeightAdds(p, a, stacks[a] - quantity, quantity);
    if quantity == stacks[a] {
      StackGone(p, stacks, a);
    } else {
      StackChange(p, stacks, a, stacks[a] - quantity);
    }
  }

  lemma Grown(p: Policy, c: Contents, a: string, quantity: nat)
    requires Sound(p, c) && a != "" && 0 < quantity && Value(c.stacks, a) + quantity <= MAX_UINT32
    requires a in c.stacks || |c.stacks| + |c.instances| < p.maxStacks
    ensures Sound(p, c.(stacks := More(c.stacks, a, quantity)))
    ensures TotalWeight(p, c.(stacks := More(c.stacks, a, quantity))) == TotalWeight(p, c) + Weight(p, a, quantity)
  {
    MoreSize(c.stacks, a, Value(c.stacks, a) + quantity);
    MoreWeighs(p, c.stacks, a, quantity);
    forall x ensures GoodStack(More(c.stacks, a, quantity), x) {
      assert GoodStack(c.stacks, x);
    }
  }

  lemma Shrunk(p: Policy, c: Contents, a: string, quantity: nat)
    requires Sound(p, c) && a in c.stacks && quantity <= c.stacks[a]
    ensures Sound(p, c.(stacks := Fewer(c.stacks, a, quantity)))
    ensures TotalWeight(p, c.(stacks := Fewer(c.stacks, a, quantity))) + Weight(p, a, quantity) == TotalWeight(p, c)
    ensures |Fewer(c.stacks, a, quantity)| == |c.stacks| - if quantity == c.stacks[a] then 1 else 0
  {
    FewerSize(c.stacks, a);
    MoreSize(c.stacks, a, c.stacks[a] - quantity);
    FewerWeighs(p, c.stacks, a, quantity);
    forall x ensures GoodStack(Fewer(c.stacks, a, quantity), x) {
      assert GoodStack(c.stacks, x);
    }
  }

  lemma MoreSize<T>(m: map<string, T>, k: string, v: T)
    ensures |m[k := v]| == |m| + if k in m then 0 else 1
  {
    assert m[k := v].Keys == m.Keys + {k};
  }

  lemma FewerSize<T>(m: map<string, T>, k: string)
    requires k in m
    ensures |m - {k}| == |m| - 1
  {
    assert (m - {k}).Keys == m.Keys - {k};
  }

  // ----- archetypes put on and taken off -----

  /** One item of a stack is put on. */
  function Donned(c: Contents, slot: string, a: string): Contents
    requires a in c.stacks
  {
    c.(stacks := Fewer(c.stacks, a, 1), equipped := c.equipped[slot := a])
  }

  /** One worn item goes back on its stack. */
  function Doffed(c: Contents, slot: string): Contents
    requires slot in c.equipped
  {
    c.(stacks := More(c.stacks, c.equipped[slot], 1), equipped := c.equipped - {slot})
  }

  lemma WornSlot(p: Policy, c: Contents, slot: string, a: string)
    requires Sound(p, c) && ValidSlot(slot) && slot !in c.equipped && slot !in c.worn && a != ""
    ensures Sound(p, c.(equipped := c.equipped[slot := a]))
    ensures TotalWeight(p, c.(equipped := c.equipped[slot := a])) == TotalWeight(p, c) + Weight(p, a, 1)
  {
    EquippedChange(p, c.equipped, slot, a);
    var more := c.equipped[slot := a];
    forall x ensures GoodEquipped(more, c.worn, x) {
      assert GoodEquipped(c.equipped, c.worn, x);
    }
  }

  lemma BareSlot(p: Policy, c: Contents, slot: string)
    requires Sound(p, c) && slot in c.equipped
    ensures Sound(p, c.(equipped := c.equipped - {slot})) && c.equipped[slot] != ""
    ensures TotalWeight(p, c.(equipped := c.equipped - {slot})) + Weight(p, c.equipped[slot], 1) == TotalWeight(p, c)
  {
    EquippedGone(p, c.equipped, slot);
    assert GoodEquipped(c.equipped, c.worn, slot);
    forall x ensures GoodEquipped(c.equipped - {slot}, c.worn, x) {
      assert GoodEquipped(c.equipped, c.worn, x);
    }
  }

  lemma WearersGrow(equipped: map<string, string>, slot: string, a: string, x: string)
    requires slot !in equipped
    ensures |WearersOf(equipped[slot := a], x)| == |WearersOf(equipped, x)| + if x == a then 1 else 0
  {
    assert WearersOf(equipped[slot := a], x) == if x == a then WearersOf(equipped, x) + {slot} else WearersOf(equipped, x);
  }

  lemma DonningCounts(c: Contents, slot: string, a: string, x: string)
    requires slot !in c.equipped && a in c.stacks && 0 < c.stacks[a]
    ensures Count(Donned(c, slot, a), x) == Count(c, x)
  {
    WearersGrow(c.equipped, slot, a, x);
  }

  /** Putting an item on keeps the inventory sound, its weight and its number of every archetype. */
  lemma DonningConserves(p: Policy, c: Contents, slot: string, a: string)
    requires Sound(p, c) && ValidSlot(slot) && slot !in c.equipped && slot !in c.worn && a in c.stacks
    ensures Sound(p, Donned(c, slot, a)) && TotalWeight(p, Donned(c, slot, a)) == TotalWeight(p, c)
    ensures forall x :: Count(Donned(c, slot, a), x) == Count(c, x)
  {
    DonningKeeps(p, c, slot, a);
    forall x ensures Count(Donned(c, slot, a), x) == Count(c, x) {
      DonningCounts(c, slot, a, x);
    }
  }

  lemma DonningKeeps(p: Policy, c: Contents, slot: string, a: string)
    requires Sound(p, c) && ValidSlot(slot) && slot !in c.equipped && slot !in c.worn && a in c.stacks
    ensures 0 < c.stacks[a] && Sound(p, Donned(c, slot, a)) && TotalWeight(p, Donned(c, slot, a)) == TotalWeight(p, c)
  {
    assert GoodStack(c.stacks, a);
    Shrunk(p, c, a, 1);
    WornSlot(p, c.(stacks := Fewer(c.stacks, a, 1)), slot, a);
  }

  lemma DoffingCounts(c: Contents, slot: string, x: string)
    requires slot in c.equipped
    ensures Count(Doffed(c, slot), x) == Count(c, x)
  {
    assert (c.equipped - {slot})[slot := c.equipped[slot]] == c.equipped;
    WearersGrow(c.equipped - {slot}, slot, c.equipped[slot], x);
  }

  /** So does taking one off, if it finds room. */
  lemma DoffingConserves(p: Policy, c: Contents, slot: string)
    requires Sound(p, c) && slot in c.equipped && Value(c.stacks, c.equipped[slot]) != MAX_UINT32
    requires c.equipped[slot] in c.stacks || |c.stacks| + |c.instances| < p.maxStacks
    ensures Sound(p, Doffed(c, slot)) && TotalWeight(p, Doffed(c, slot)) == TotalWeight(p, c)
    ensures forall x :: Count(Doffed(c, slot), x) == Count(c, x)
  {
    DoffingKeeps(p, c, slot);
    forall x ensures Count(Doffed(c, slot), x) == Count(c, x) {
      DoffingCounts(c, slot, x);
    }
  }

  lemma DoffingKeeps(p: Policy, c: Contents, slot: string)
    requires Sound(p, c) && slot in c.equipped && Value(c.stacks, c.equipped[slot]) != MAX_UINT32
    requires c.equipped[slot] in c.stacks || |c.stacks| + |c.instances| < p.maxStacks
    ensures Sound(p, Doffed(c, slot)) && TotalWeight(p, Doffed(c, slot)) == TotalWeight(p, c)
  {
    BareSlot(p, c, slot);
    assert GoodStack(c.stacks, c.equipped[slot]);
    Grown(p, c.(equipped := c.equipped - {slot}), c.equipped[slot], 1);
  }

  lemma StaysBalancedDoffed(p: Policy, c: Contents, weight: nat, slot: string, after: Contents)
    requires Balanced(p, c, weight) && slot in c.equipped && Value(c.stacks, c.equipped[slot]) != MAX_UINT32
    requires c.equipped[slot] in c.stacks || |c.stacks| + |c.instances| < p.maxStacks
    requires after == Doffed(c, slot)
    ensures Balanced(p, after, weight)
  {
    DoffingKeeps(p, c, slot);
  }

  /** Taking off what was just put on gives back exactly the same contents. */
  lemma DoffingUndoesDonning(c: Contents, slot: string, a: string)
    requires slot !in c.equipped && a in c.stacks && 0 < c.stacks[a]
    ensures Doffed(Donned(c, slot, a), slot) == c
  {
    assert c.equipped[slot := a] - {slot} == c.equipped;
    assert More(Fewer(c.stacks, a, 1), a, 1) == c.stacks;
  }

  // ----- instances added, removed, put on and taken off -----

  /** An id is taken while an unequipped or a worn instance has it. */
  predicate KnownIn(c: Contents, id: string) {
    id in c.instances || exists slot :: slot in c.worn && c.worn[slot].id == id
  }

  lemma InstanceAdded(p: Policy, c: Contents, i: Instance)
    requires Sound(p, c) && i.id != "" && !KnownIn(c, i.id) && |c.stacks| + |c.instances| < p.maxStacks
    ensures Sound(p, c.(instances := c.instances[i.id := i]))
    ensures TotalWeight(p, c.(instances := c.instances[i.id := i])) == TotalWeight(p, c) + Weight(p, i.archetype, 1)
  {
    InstanceChange(p, c.instances, i.id, i);
    MoreSize(c.instances, i.id, i);
    var more := c.instances[i.id := i];
    forall x ensures GoodInstance(more, x) {
      assert GoodInstance(c.instances, x);
    }
    forall s ensures GoodWorn(c.worn, more, s) {
      assert GoodWorn(c.worn, c.instances, s);
    }
  }

  lemma InstanceRemoved(p: Policy, c: Contents, id: string)
    requires Sound(p, c) && id in c.instances
    ensures Sound(p, c.(instances := c.instances - {id})) && !KnownIn(c.(instances := c.instances - {id}), id)
    ensures id != "" && c.instances[id].id == id && |c.instances - {id}| == |c.instances| - 1
    ensures TotalWeight(p, c.(instances := c.instances - {id})) + Weight(p, c.instances[id].archetype, 1) == TotalWeight(p, c)
  {
    InstanceGone(p, c.instances, id);
    FewerSize(c.instances, id);
    assert GoodInstance(c.instances, id);
    forall x ensures GoodInstance(c.instances - {id}, x) {
      assert GoodInstance(c.instances, x);
    }
    forall s ensures GoodWorn(c.worn, c.instances - {id}, s) && !(s in c.worn && c.worn[s].id == id) {
      assert GoodWorn(c.worn, c.instances, s);
    }
  }

  lemma InstanceWorn(p: Policy, c: Contents, slot: string, i: Instance)
    requires Sound(p, c) && ValidSlot(slot) && slot !in c.equipped && slot !in c.worn && i.id != "" && !KnownIn(c, i.id)
    ensures Sound(p, c.(worn := c.worn[slot := i]))
    ensures TotalWeight(p, c.(worn := c.worn[slot := i])) == TotalWeight(p, c) + Weight(p, i.archetype, 1)
  {
    InstanceChange(p, c.worn, slot, i);
    var more := c.worn[slot := i];
    forall s ensures GoodEquipped(c.equipped, more, s) {
      assert GoodEquipped(c.equipped, c.worn, s);
    }
    forall s ensures GoodWorn(more, c.instances, s) {
      assert GoodWorn(c.worn, c.instances, s);
    }
    forall s, t ensures Different(more, s, t) {
      assert Different(c.worn, s, t);
    }
  }

  lemma InstanceBared(p: Policy, c: Contents, slot: string)
    requires Sound(p, c) && slot in c.worn
    ensures Sound(p, c.(worn := c.worn - {slot})) && c.worn[slot].id != "" && !KnownIn(c.(worn := c.worn - {slot}), c.worn[slot].id)
    ensures TotalWeight(p, c.(worn := c.worn - {slot})) + Weight(p, c.worn[slot].archetype, 1) == TotalWeight(p, c)
  {
    InstanceGone(p, c.worn, slot);
    assert GoodWorn(c.worn, c.instances, slot);
    var less := c.worn - {slot};
    forall s ensures GoodEquipped(c.equipped, less, s) {
      assert GoodEquipped(c.equipped, c.worn, s);
    }
    forall s ensures GoodWorn(less, c.instances, s) && !(s in less && less[s].id == c.worn[slot].id) {
      assert GoodWorn(c.worn, c.instances, s) && Different(c.worn, s, slot);
    }
    forall s, t ensures Different(less, s, t) {
      assert Different(c.worn, s, t);
    }
  }

  lemma ValuesSplit(m: map<string, Instance>, k: string)
    requires k in m
    ensures m.Values == (m - {k}).Values + {m[k]}
  {
    forall v | v in m.Values ensures v in (m - {k}).Values + {m[k]} {
      var j :| j in m && m[j] == v;
      assert j == k || (m - {k})[j] == v;
    }
    forall v | v in (m - {k}).Values ensures v in m.Values {
      var j :| j in m - {k} && (m - {k})[j] == v;
      assert m[j] == v;
    }
  }

  lemma ValuesGrow(m: map<string, Instance>, k: string, i: Instance)
    requires k !in m
    ensures m[k := i].Values == m.Values + {i}
  {
    ValuesSplit(m[k := i], k);
    assert m[k := i] - {k} == m;
  }

  function InstanceDonned(c: Contents, slot: string, id: string): Contents
    requires id in c.instances
  {
    c.(instances := c.instances - {id}, worn := c.worn[slot := c.instances[id]])
  }

  function InstanceDoffed(c: Contents, slot: string): Contents
    requires slot in c.worn
  {
    c.(instances := c.instances[c.worn[slot].id := c.worn[slot]], worn := c.worn - {slot})
  }

  /** Putting an instance on keeps the inventory sound, its weight and its set of instances. */
  lemma InstanceDonningConserves(p: Policy, c: Contents, slot: string, id: string)
    requires Sound(p, c) && ValidSlot(slot) && slot !in c.equipped && slot !in c.worn && id in c.instances
    ensures Sound(p, InstanceDonned(c, slot, id)) && TotalWeight(p, InstanceDonned(c, slot, id)) == TotalWeight(p, c)
    ensures forall i :: Holds(InstanceDonned(c, slot, id), i) <==> Holds(c, i)
  {
    InstanceDonningKeeps(p, c, slot, id);
    InstancesMoveOn(c, slot, id);
  }

  lemma InstanceDonningKeeps(p: Policy, c: Contents, slot: string, id: string)
    requires Sound(p, c) && ValidSlot(slot) && slot !in c.equipped && slot !in c.worn && id in c.instances
    ensures Sound(p, InstanceDonned(c, slot, id)) && TotalWeight(p, InstanceDonned(c, slot, id)) == TotalWeight(p, c)
  {
    InstanceRemoved(p, c, id);
    InstanceWorn(p, c.(instances := c.instances - {id}), slot, c.instances[id]);
  }

  lemma StaysBalancedDonned(p: Policy, c: Contents, weight: nat, slot: string, id: string, after: Contents)
    requires Balanced(p, c, weight) && ValidSlot(slot) && slot !in c.equipped && slot !in c.worn && id in c.instances
    requires after == InstanceDonned(c, slot, id)
    ensures Balanced(p, after, weight)
  {
    InstanceDonningKeeps(p, c, slot, id);
  }

  lemma InstancesMoveOn(c: Contents, slot: string, id: string)
    requires slot !in c.worn && id in c.instances
    ensures forall i :: Holds(InstanceDonned(c, slot, id), i) <==> Holds(c, i)
  {
    ValuesSplit(c.instances, id);
    ValuesGrow(c.worn, slot, c.instances[id]);
  }

  /** So does taking one off, while an entry is free. */
  lemma InstanceDoffingConserves(p: Policy, c: Contents, slot: string)
    requires Sound(p, c) && slot in c.worn && |c.stacks| + |c.instances| < p.maxStacks
    ensures Sound(p, InstanceDoffed(c, slot)) && TotalWeight(p, InstanceDoffed(c, slot)) == TotalWeight(p, c)
    ensures forall i :: Holds(InstanceDoffed(c, slot), i) <==> Holds(c, i)
  {
    InstanceDoffingKeeps(p, c, slot);
    assert GoodWorn(c.worn, c.instances, slot);
    InstancesMoveOff(c, slot);
  }

  lemma InstanceDoffingKeeps(p: Policy, c: Contents, slot: string)
    requires Sound(p, c) && slot in c.worn && |c.stacks| + |c.instances| < p.maxStacks
    ensures Sound(p, InstanceDoffed(c, slot)) && TotalWeight(p, InstanceDoffed(c, slot)) == TotalWeight(p, c)
  {
    InstanceBared(p, c, slot);
    InstanceAdded(p, c.(worn := c.worn - {slot}), c.worn[slot]);
  }

  lemma InstancesMoveOff(c: Contents, slot: string)
    requires slot in c.worn && c.worn[slot].id !in c.instances
    ensures forall i :: Holds(InstanceDoffed(c, slot), i) <==> Holds(c, i)
  {
    ValuesSplit(c.worn, slot);
    ValuesGrow(c.instances, c.worn[slot].id, c.worn[slot]);
  }

  predicate Fits(p: Policy, added: nat, base: int) {
    p.maxWeight == 0 || (added <= p.maxWeight && base <= p.maxWeight - added)
  }

  /** Whether what comes finds room once the other has gone. */
  predicate ExchangeRoom(p: Policy, c: Contents, r: string, gone: nat, a: string, added: nat)
    requires r in c.stacks
  {
    var less := Fewer(c.stacks, r, gone);
    Value(less, a) + added <= MAX_UINT32 && (a in less || |less| + |c.instances| < p.maxStacks)
  }

  /** When an exchange goes through: what goes is there, and what comes fits by weight and by room once it is gone. */
  predicate Exchangeable(p: Policy, c: Contents, weight: nat, r: string, gone: nat, a: string, added: nat) {
    && r != "" && a != "" && 0 < gone <= Value(c.stacks, r) && 0 < added
    && Fits(p, Weight(p, a, added), weight - Weight(p, r, gone)) && ExchangeRoom(p, c, r, gone, a, added)
  }

  lemma RoomAfterRemoval(p: Policy, c: Contents, r: string, gone: nat, a: string, added: nat)
    requires |c.stacks| + |c.instances| <= p.maxStacks && r in c.stacks && 0 < gone <= c.stacks[r]
    ensures r == a ==> (ExchangeRoom(p, c, r, gone, a, added) <==> c.stacks[r] - gone + added <= MAX_UINT32)
    ensures r != a ==>
              (ExchangeRoom(p, c, r, gone, a, added) <==>
                && Value(c.stacks, a) + added <= MAX_UINT32
                && (a in c.stacks || |c.stacks| + |c.instances| - (if gone == c.stacks[r] then 1 else 0) < p.maxStacks))
  {
    if gone == c.stacks[r] {
      FewerSize(c.stacks, r);
    } else {
      MoreSize(c.stacks, r, c.stacks[r] - gone);
    }
  }

  lemma SameStackExchanged(stacks: map<string, nat>, r: string, gone: nat, added: nat)
    requires r in stacks && 0 < gone <= stacks[r]
    ensures More(Fewer(stacks, r, gone), r, added) == stacks[r := stacks[r] - gone + added]
  {
  }

  lemma WeighsAtMost(p: Policy, c: Contents, r: string, quantity: nat)
    requires r in c.stacks && quantity <= c.stacks[r]
    ensures Weight(p, r, quantity) <= TotalWeight(p, c)
  {
    FewerWeighs(p, c.stacks, r, quantity);
  }

  /** An exchange: one archetype goes, another (perhaps the same) comes. */
  lemma Exchanged(p: Policy, c: Contents, weight: nat, r: string, gone: nat, a: string, added: nat)
    requires Balanced(p, c, weight) && Exchangeable(p, c, weight, r, gone, a, added)
    ensures Weight(p, r, gone) <= weight
    ensures Balanced(p, c.(stacks := More(Fewer(c.stacks, r, gone), a, added)), weight - Weight(p, r, gone) + Weight(p, a, added))
  {
    Shrunk(p, c, r, gone);
    Grown(p, c.(stacks := Fewer(c.stacks, r, gone)), a, added);
  }

  class Inventory {
    const policy: Policy
    var stacks: map<string, nat>
    var instances: map<string, Instance>
    var equipped: map<string, string>
    var worn: map<string, Instance>
    var currentWeight: nat
    var revision: nat
    var equipmentRevision: nat

    function View(): Contents
      reads this
    {
      Contents(stacks, instances, equipped, worn)
    }

    ghost predicate Valid()
      reads this
    {
      Balanced(policy, View(), currentWeight)
    }

    /** A negative number of entries means none, and a unit weighs at least one by default. */
    constructor (maxStacks: int, maxWeight: nat, defaultUnit: nat, units: map<string, nat>)
      ensures Valid() && View() == Contents(map[], map[], map[], map[]) && currentWeight == 0
      ensures policy == Policy(if maxStacks < 0 then 0 else maxStacks, maxWeight, if defaultUnit == 0 then 1 else defaultUnit, units)
    {
      policy := Policy(if maxStacks < 0 then 0 else maxStacks, maxWeight, if defaultUnit == 0 then 1 else defaultUnit, units);
      stacks, instances, equipped, worn := map[], map[], map[], map[];
      currentWeight, revision, equipmentRevision := 0, 0, 0;
      new;
      assert StackWeights(policy, stacks) == map[] && InstanceWeights(policy, instances) == map[] && EquippedWeights(policy, equipped) == map[];
    }

    function Entries(): nat
      reads this
    {
      |stacks| + |instances|
    }

    method Add(archetype: string, quantity: nat) returns (fault: Option<Fault>)
      requires Valid() && quantity <= MAX_UINT32
      modifies this`stacks, this`currentWeight, this`revision
      ensures Valid()
      ensures var a := InventoryStates.Trim(archetype);
              fault == None <==>
                && a != "" && quantity > 0 && (a in old(stacks) || old(Entries()) < policy.maxStacks)
                && Value(old(stacks), a) + quantity <= MAX_UINT32 && Fits(policy, Weight(policy, a, quantity), old(currentWeight))
      ensures fault == None ==> stacks == More(old(stacks), InventoryStates.Trim(archetype), quantity)
      ensures fault.Some? ==> stacks == old(stacks) && currentWeight == old(currentWeight)
      ensures fault.Some? ==>
                match fault.value
                case InvalidArchetype => InventoryStates.Trim(archetype) == ""
                case InvalidQuantity => quantity == 0
                case Full => InventoryStates.Trim(archetype) !in stacks && Entries() >= policy.maxStacks
                case QuantityOverflow => Value(stacks, InventoryStates.Trim(archetype)) + quantity > MAX_UINT32
                case WeightExceeded => !Fits(policy, Weight(policy, InventoryStates.Trim(archetype), quantity), currentWeight)
                case _ => false
      ensures revision == old(revision) + if fault == None then 1 else 0
    {
      var a := InventoryStates.Trim(archetype);
      if a == "" { return Some(InvalidArchetype); }
      if quantity == 0 { return Some(InvalidQuantity); }
      var current := Value(stacks, a);
      if a !in stacks && Entries() >= policy.maxStacks { return Some(Full); }
      if current + quantity > MAX_UINT32 { return Some(QuantityOverflow); }
      var added := Weight(policy, a, quantity);
      if !Fits(policy, added, currentWeight) { return Some(WeightExceeded); }
      Grown(policy, View(), a, quantity);
      stacks := More(stacks, a, quantity);
      currentWeight, revision := currentWeight + added, revision + 1;
      return None;
    }

    method Remove(archetype: string, quantity: nat) returns (fault: Option<Fault>)
      requires Valid()
      modifies this`stacks, this`currentWeight, this`revision
      ensures Valid()
      ensures var a := InventoryStates.Trim(archetype);
              && (fault == None <==> a != "" && quantity > 0 && quantity <= Value(old(stacks), a))
              && (fault == None ==> stacks == Fewer(old(stacks), a, quantity))
      ensures fault.Some? ==> stacks == old(stacks) && currentWeight == old(currentWeight)
      ensures fault.Some? ==>
                match fault.value
                case InvalidArchetype => InventoryStates.Trim(archetype) == ""
                case InvalidQuantity => quantity == 0
                case Insufficient => Value(stacks, InventoryStates.Trim(archetype)) < quantity
                case _ => false
      ensures revision == old(revision) + if fault == None then 1 else 0
    {
      var a := InventoryStates.Trim(archetype);
      if a == "" { return Some(InvalidArchetype); }
      if quantity == 0 { return Some(InvalidQuantity); }
      if Value(stacks, a) < quantity { return Some(Insufficient); }
      Shrunk(policy, View(), a, quantity);
      var removed := Weight(policy, a, quantity);
      stacks := Fewer(stacks, a, quantity);
      currentWeight := if removed >= currentWeight then 0 else currentWeight - removed;
      revision := revision + 1;
      return None;
    }

    /** The part of an exchange that looks for room. */
    method StacksAfterExchange(r: string, gone: nat, a: string, added: nat) returns (after: Result<map<string, nat>, Fault>)
      requires Entries() <= policy.maxStacks && r in stacks && 0 < gone <= stacks[r]
      ensures after.Ok? <==> ExchangeRoom(policy, View(), r, gone, a, added)
      ensures after.Ok? ==> after.value == More(Fewer(stacks, r, gone), a, added)
      ensures after.Err? ==>
                match after.error
                case QuantityOverflow => Value(stacks, a) - (if r == a then gone else 0) + added > MAX_UINT32
                case Full => a !in stacks && Entries() >= policy.maxStacks
                case _ => false
    {
      RoomAfterRemoval(policy, View(), r, gone, a, added);
      if r == a {
        var final := stacks[r] - gone + added;
        if final > MAX_UINT32 { return Err(QuantityOverflow); }
        SameStackExchanged(stacks, r, gone, added);
        return Ok(stacks[r := final]);
      }
      if Value(stacks, a) + added > MAX_UINT32 { return Err(QuantityOverflow); }
      var entries := Entries() - if stacks[r] == gone then 1 else 0;
      if a !in stacks && entries >= policy.maxStacks { return Err(Full); }
      return Ok(More(Fewer(stacks, r, gone), a, added));
    }

    /** One archetype leaves and another arrives, or nothing changes at all. */
    method Exchange(removeArchetype: string, removeQuantity: nat, addArchetype: string, addQuantity: nat) returns (fault: Option<Fault>)
      requires Valid() && addQuantity <= MAX_UINT32
      modifies this`stacks, this`currentWeight, this`revision
      ensures Valid()
      ensures var r, a := InventoryStates.Trim(removeArchetype), InventoryStates.Trim(addArchetype);
              && (fault == None <==> Exchangeable(policy, old(View()), old(currentWeight), r, removeQuantity, a, addQuantity))
              && (fault == None ==> stacks == More(Fewer(old(stacks), r, removeQuantity), a, addQuantity))
      ensures fault.Some? ==> stacks == old(stacks) && currentWeight == old(currentWeight)
      ensures fault.Some? ==>
                match fault.value
                case InvalidArchetype => InventoryStates.Trim(removeArchetype) == "" || InventoryStates.Trim(addArchetype) == ""
                case InvalidQuantity => removeQuantity == 0 || addQuantity == 0
                case Insufficient => Value(stacks, InventoryStates.Trim(removeArchetype)) < removeQuantity
                case WeightExceeded => !Fits(policy, Weight(policy, InventoryStates.Trim(addArchetype), addQuantity), currentWeight - Weight(policy, InventoryStates.Trim(removeArchetype), removeQuantity))
                case QuantityOverflow => Value(stacks, InventoryStates.Trim(addArchetype)) + addQuantity > MAX_UINT32
                case Full => InventoryStates.Trim(addArchetype) !in stacks && Entries() >= policy.maxStacks
                case _ => false
      ensures revision == old(revision) + if fault == None then 1 else 0
    {
      var r, a := InventoryStates.Trim(removeArchetype), InventoryStates.Trim(addArchetype);
      if r == "" || a == "" { return Some(InvalidArchetype); }
      if removeQuantity == 0 || addQuantity == 0 { return Some(InvalidQuantity); }
      var removeCurrent := Value(stacks, r);
      if removeCurrent < removeQuantity { return Some(Insufficient); }
      var removed := Weight(policy, r, removeQuantity);
      var base := if removed < currentWeight then currentWeight - removed else 0;
      var added := Weight(policy, a, addQuantity);
      ghost var before := View();
      WeighsAtMost(policy, before, r, removeQuantity);
      if !Fits(policy, added, base) { return Some(WeightExceeded); }
      var after := StacksAfterExchange(r, removeQuantity, a, addQuantity);
      if after.Err? { return Some(after.error); }
      Exchanged(policy, before, currentWeight, r, removeQuantity, a, addQuantity);
      stacks, currentWeight, revision := after.value, base + added, revision + 1;
      return None;
    }

    /** Why an archetype cannot be put on, if it cannot. */
    function EquipFault(slot: string, a: string): (fault: Option<Fault>)
      reads this
      ensures fault == None <==> ValidSlot(slot) && a != "" && slot !in equipped && slot !in worn && a in stacks
      ensures fault.Some? ==>
                match fault.value
                case InvalidSlot => !ValidSlot(slot)
                case InvalidArchetype => a == ""
                case SlotOccupied => slot in equipped || slot in worn
                case Insufficient => a !in stacks
                case _ => false
    {
      if !ValidSlot(slot) then Some(InvalidSlot)
      else if a == "" then Some(InvalidArchetype)
      else if slot in equipped || slot in worn then Some(SlotOccupied)
      else if a !in stacks then Some(Insufficient)
      else None
    }

    method Equip(slot: string, archetype: string) returns (fault: Option<Fault>)
      requires Valid()
      modifies this`stacks, this`equipped, this`revision, this`equipmentRevision
      ensures Valid() && fault == old(EquipFault(slot, InventoryStates.Trim(archetype)))
      ensures View() == if fault == None then Donned(old(View()), slot, InventoryStates.Trim(archetype)) else old(View())
      ensures var step := if fault == None then 1 else 0; revision == old(revision) + step && equipmentRevision == old(equipmentRevision) + step
    {
      var a := InventoryStates.Trim(archetype);
      fault := EquipFault(slot, a);
      if fault.Some? { return; }
      ghost var before := View();
      DonningKeeps(policy, before, slot, a);
      stacks, equipped := Fewer(stacks, a, 1), equipped[slot := a];
      assert View() == Donned(before, slot, a);
      revision, equipmentRevision := revision + 1, equipmentRevision + 1;
    }

    /** Why what is worn in a slot cannot go back on its stack, if it cannot. */
    function UnequipFault(slot: string): (fault: Option<Fault>)
      reads this
      ensures fault == None <==>
                && ValidSlot(slot) && slot in equipped && (equipped[slot] in stacks || Entries() < policy.maxStacks)
                && Value(stacks, equipped[slot]) != MAX_UINT32
      ensures fault.Some? ==>
                match fault.value
                case InvalidSlot => !ValidSlot(slot)
                case SlotEmpty => slot !in equipped
                case Full => Entries() >= policy.maxStacks
                case QuantityOverflow => slot in equipped && Value(stacks, equipped[slot]) == MAX_UINT32
                case _ => false
    {
      if !ValidSlot(slot) then Some(InvalidSlot)
      else if slot !in equipped then Some(SlotEmpty)
      else if equipped[slot] !in stacks && Entries() >= policy.maxStacks then Some(Full)
      else if Value(stacks, equipped[slot]) == MAX_UINT32 then Some(QuantityOverflow)
      else None
    }

    method Unequip(slot: string) returns (r: Result<string, Fault>)
      requires Valid()
      modifies this`stacks, this`equipped, this`revision, this`equipmentRevision
      ensures Valid()
      ensures match old(UnequipFault(slot))
              case Some(fault) => r == Err(fault) && View() == old(View())
              case None => r == Ok(old(equipped)[slot]) && View() == Doffed(old(View()), slot)
      ensures var step := if r.Ok? then 1 else 0; revision == old(revision) + step && equipmentRevision == old(equipmentRevision) + step
    {
      var fault := UnequipFault(slot);
      if fault.Some? { return Err(fault.value); }
      var a := equipped[slot];
      TakeOff(slot);
      return Ok(a);
    }

    method TakeOff(slot: string)
      requires Valid() && slot in equipped && Value(stacks, equipped[slot]) != MAX_UINT32
      requires equipped[slot] in stacks || Entries() < policy.maxStacks
      modifies this`stacks, this`equipped, this`revision, this`equipmentRevision
      ensures Valid() && View() == Doffed(old(View()), slot)
      ensures revision == old(revision) + 1 && equipmentRevision == old(equipmentRevision) + 1
    {
      ghost var before := View();
      stacks, equipped := More(stacks, equipped[slot], 1), equipped - {slot};
      StaysBalancedDoffed(policy, before, currentWeight, slot, View());
      revision, equipmentRevision := revision + 1, equipmentRevision + 1;
    }

    method AddInstance(instance: Instance) returns (fault: Option<Fault>)
      requires Valid()
      modifies this`instances, this`currentWeight, this`revision
      ensures Valid()
      ensures fault == None <==>
                && InventoryStates.Trim(instance.id) == instance.id != "" && InventoryStates.Trim(instance.archetype) == instance.archetype != ""
                && !KnownIn(old(View()), instance.id) && old(Entries()) < policy.maxStacks && Fits(policy, Weight(policy, instance.archetype, 1), old(currentWeight))
      ensures fault == None ==> instances == old(instances)[instance.id := instance]
      ensures fault.Some? ==> View() == old(View()) && currentWeight == old(currentWeight)
      ensures fault.Some? ==>
                match fault.value
                case InvalidInstance => InventoryStates.Trim(instance.id) != instance.id || instance.id == "" || InventoryStates.Trim(instance.archetype) != instance.archetype || instance.archetype == ""
                case InstanceExists => KnownIn(View(), instance.id)
                case Full => Entries() >= policy.maxStacks
                case WeightExceeded => !Fits(policy, Weight(policy, instance.archetype, 1), currentWeight)
                case _ => false
      ensures revision == old(revision) + if fault == None then 1 else 0
    {
      var id, a := InventoryStates.Trim(instance.id), InventoryStates.Trim(instance.archetype);
      if id == "" || a == "" || id != instance.id || a != instance.archetype { return Some(InvalidInstance); }
      if KnownIn(View(), id) { return Some(InstanceExists); }
      if Entries() >= policy.maxStacks { return Some(Full); }
      var added := Weight(policy, a, 1);
      if !Fits(policy, added, currentWeight) { return Some(WeightExceeded); }
      InstanceAdded(policy, View(), instance);
      instances := instances[id := instance];
      currentWeight, revision := currentWeight + added, revision + 1;
      return None;
    }

    method RemoveInstance(instanceId: string) returns (r: Result<Instance, Fault>)
      requires Valid()
      modifies this`instances, this`currentWeight, this`revision
      ensures Valid()
      ensures var id := InventoryStates.Trim(instanceId);
              && (r.Ok? <==> id in old(instances))
              && (r.Ok? ==> r.value == old(instances)[id] && instances == old(instances) - {id})
      ensures r.Err? ==> View() == old(View()) && currentWeight == old(currentWeight)
      ensures r.Err? ==>
                match r.error
                case InvalidInstance => InventoryStates.Trim(instanceId) == ""
                case InstanceNotFound => InventoryStates.Trim(instanceId) !in instances
                case _ => false
      ensures revision == old(revision) + if r.Ok? then 1 else 0
    {
      var id := InventoryStates.Trim(instanceId);
      if id == "" { assert GoodInstance(instances, id); return Err(InvalidInstance); }
      if id !in instances { return Err(InstanceNotFound); }
      ghost var before := View();
      var instance := instances[id];
      InstanceRemoved(policy, before, id);
      instances := instances - {id};
      assert View() == before.(instances := before.instances - {id});
      var removed := Weight(policy, instance.archetype, 1);
      currentWeight := if removed >= currentWeight then 0 else currentWeight - removed;
      revision := revision + 1;
      return Ok(instance);
    }

    /** Why an instance cannot be put on, if it cannot. */
    function EquipInstanceFault(slot: string, id: string): (fault: Option<Fault>)
      reads this
      ensures fault == None <==> ValidSlot(slot) && slot !in equipped && slot !in worn && id in instances
      ensures fault.Some? ==>
                match fault.value
                case InvalidSlot => !ValidSlot(slot)
                case SlotOccupied => slot in equipped || slot in worn
                case InstanceNotFound => id !in instances
                case _ => false
    {
      if !ValidSlot(slot) then Some(InvalidSlot)
      else if slot in equipped || slot in worn then Some(SlotOccupied)
      else if id !in instances then Some(InstanceNotFound)
      else None
    }

    method EquipInstance(slot: string, id: string) returns (fault: Option<Fault>)
      requires Valid()
      modifies this`instances, this`worn, this`revision, this`equipmentRevision
      ensures Valid() && fault == old(EquipInstanceFault(slot, id))
      ensures View() == if fault == None then InstanceDonned(old(View()), slot, id) else old(View())
      ensures var step := if fault == None then 1 else 0; revision == old(revision) + step && equipmentRevision == old(equipmentRevision) + step
    {
      fault := EquipInstanceFault(slot, id);
      if fault == None { PutOn(slot, id); }
    }

    method PutOn(slot: string, id: string)
      requires Valid() && ValidSlot(slot) && slot !in equipped && slot !in worn && id in instances
      modifies this`instances, this`worn, this`revision, this`equipmentRevision
      ensures Valid() && View() == InstanceDonned(old(View()), slot, id)
      ensures revision == old(revision) + 1 && equipmentRevision == old(equipmentRevision) + 1
    {
      ghost var before := View();
      instances, worn := instances - {id}, worn[slot := instances[id]];
      StaysBalancedDonned(policy, before, currentWeight, slot, id, View());
      revision, equipmentRevision := revision + 1, equipmentRevision + 1;
    }

    /** Why a worn instance cannot be taken off, if it cannot. */
    function UnequipInstanceFault(slot: string): (fault: Option<Fault>)
      reads this
      ensures fault == None <==> ValidSlot(slot) && slot in worn && Entries() < policy.maxStacks
      ensures fault.Some? ==>
                match fault.value
                case InvalidSlot => !ValidSlot(slot)
                case SlotEmpty => slot !in worn
                case Full => Entries() >= policy.maxStacks
                case _ => false
    {
      if !ValidSlot(slot) then Some(InvalidSlot)
      else if slot !in worn then Some(SlotEmpty)
      else if Entries() >= policy.maxStacks then Some(Full)
      else None
    }

    method UnequipInstance(slot: string) returns (r: Result<Instance, Fault>)
      requires Valid()
      modifies this`instances, this`worn, this`revision, this`equipmentRevision
      ensures Valid()
      ensures match old(UnequipInstanceFault(slot))
              case Some(fault) => r == Err(fault) && View() == old(View())
              case None => r == Ok(old(worn)[slot]) && View() == InstanceDoffed(old(View()), slot)
      ensures var step := if r.Ok? then 1 else 0; revision == old(revision) + step && equipmentRevision == old(equipmentRevision) + step
    {
      var fault := UnequipInstanceFault(slot);
      if fault.Some? { return Err(fault.value); }
      ghost var before := View();
      InstanceDoffingKeeps(policy, before, slot);
      var instance := worn[slot];
      instances, worn := instances[instance.id := instance], worn - {slot};
      assert View() == InstanceDoffed(before, slot);
      revision, equipmentRevision := revision + 1, equipmentRevision + 1;
      return Ok(instance);
    }
  }
}
