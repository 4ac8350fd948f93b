/** The durable inventory value (`InventoryState`): its JSON-text fields, its validation, and the
    canonical form the Store writes. */
module InventoryStates {
  import opened Outcomes

  datatype Stack = Stack(archetype: string, quantity: nat)
  datatype Instance = Instance(id: string, body: int)
  datatype Slotted<T> = Slotted(slot: string, item: T)

  /** A JSON text field. `Missing` is the empty string, `Null` the text `null`, `Listed` the text the
      encoder produces for a list, `Loose` any other text of that list, `Garbage` text that does not
      decode. */
  datatype Text<T> = Missing | Null | Listed(items: seq<T>) | Loose(items: seq<T>) | Garbage

  function Decoded<T>(t: Text<T>): Option<seq<T>> {
    match t
    case Missing => Some([])
    case Null => Some([])
    case Listed(items) => Some(items)
    case Loose(items) => Some(items)
    case Garbage => None
  }

  /** Decoding and encoding again gives the same text. */
  predicate Stable<T>(t: Text<T>) {
    !t.Loose? && !t.Garbage?
  }

  /** How the constructors write a list: the empty list is not written. */
  function Written<T>(items: seq<T>): Text<T> {
    if items == [] then Missing else Listed(items)
  }

  /** The four hand fields are read for old records only. An instance text is `None` when empty. */
  datatype InventoryState = InventoryState(
    initialized: bool,
    stacks: Text<Stack>,
    instances: Text<Instance>,
    equipment: Text<Slotted<string>>,
    equippedInstances: Text<Slotted<Instance>>,
    mainHand: string,
    offHand: string,
    mainHandInstance: Option<Instance>,
    offHandInstance: Option<Instance>)

  const EMPTY := InventoryState(false, Missing, Missing, Missing, Missing, "", "", None, None)

  predicate HasLegacyHands(s: InventoryState) {
    s.mainHand != "" || s.offHand != "" || s.mainHandInstance.Some? || s.offHandInstance.Some?
  }

  predicate HasItemInstances(s: InventoryState) {
    !s.instances.Missing? || !s.equippedInstances.Missing? || s.mainHandInstance.Some? || s.offHandInstance.Some?
  }

  // ----- strings -----

  predicate IsSpace(c: char) {
    '\t' <= c <= '\r' || c == ' ' || c == '\U{0085}' || c == '\U{00A0}' || c == '\U{1680}' || '\U{2000}' <= c <= '\U{200A}'
    || c == '\U{2028}' || c == '\U{2029}' || c == '\U{202F}' || c == '\U{205F}' || c == '\U{3000}'
  }

  function TrimLeft(s: string): string {
    if s != [] && IsSpace(s[0]) then TrimLeft(s[1..]) else s
  }

  function TrimRight(s: string): string {
    if s != [] && IsSpace(s[|s| - 1]) then TrimRight(s[..|s| - 1]) else s
  }

  function Trim(s: string): string {
    TrimRight(TrimLeft(s))
  }

  predicate Less(a: string, b: string) {
    b != [] && (a == [] || a[0] < b[0] || (a[0] == b[0] && Less(a[1..], b[1..])))
  }

  lemma {:induction false} LessIsAsymmetric(a: string, b: string)
    requires Less(a, b)
    ensures !Less(b, a)
  {
    if a != [] && a[0] == b[0] {
      LessIsAsymmetric(a[1..], b[1..]);
    }
  }

  // ----- accessors -----

  function Rank(slot: string): nat {
    if slot == "main_hand" then 0
    else if slot == "off_hand" then 1
    else if slot == "helmet" then 2
    else if slot == "chest" then 3
    else if slot == "gloves" then 4
    else if slot == "legs" then 5
    else if slot == "boots" then 6
    else 99
  }

  function Equipment(s: InventoryState): Option<seq<Slotted<string>>> {
    if s.equipment.Missing? then
      Some((if s.mainHand != "" then [Slotted("main_hand", s.mainHand)] else [])
           + (if s.offHand != "" then [Slotted("off_hand", s.offHand)] else []))
    else Decoded(s.equipment)
  }

  function EquippedInstances(s: InventoryState): Option<seq<Slotted<Instance>>> {
    if s.equippedInstances.Missing? then
      Some((if s.mainHandInstance.Some? then [Slotted("main_hand", s.mainHandInstance.value)] else [])
           + (if s.offHandInstance.Some? then [Slotted("off_hand", s.offHandInstance.value)] else []))
    else Decoded(s.equippedInstances)
  }

  // ----- validation -----

  predicate ValidStacks(stacks: seq<Stack>) {
    forall k :: 0 <= k < |stacks| ==>
                  && stacks[k].archetype != "" && Trim(stacks[k].archetype) == stacks[k].archetype
                  && 0 < stacks[k].quantity
                  && (k > 0 ==> Less(stacks[k - 1].archetype, stacks[k].archetype))
  }

  predicate ValidInstances(instances: seq<Instance>) {
    forall k :: 0 < k < |instances| ==> Less(instances[k - 1].id, instances[k].id)
  }

  predicate Ranked<T>(items: seq<Slotted<T>>) {
    forall k :: 0 <= k < |items| ==>
                  Rank(items[k].slot) < 7 && (k > 0 ==> Rank(items[k - 1].slot) < Rank(items[k].slot))
  }

  predicate ValidEquipment(equipment: seq<Slotted<string>>) {
    && Ranked(equipment)
    && (forall e :: e in equipment ==> e.item != "" && Trim(e.item) == e.item)
  }

  predicate ValidEquipped(equipped: seq<Slotted<Instance>>, equipment: seq<Slotted<string>>, instances: seq<Instance>) {
    && Ranked(equipped)
    && (forall e, f :: e in equipped && f in equipment ==> e.slot != f.slot)
    && (forall e, i :: e in equipped && i in instances ==> e.item.id != i.id)
    && (forall j, k :: 0 <= j < k < |equipped| ==> equipped[j].item.id != equipped[k].item.id)
  }

  /** `validateInventoryState`. */
  predicate Validate(s: InventoryState) {
    if !s.initialized then s == EMPTY else
      && ((s.equipment.Missing? && s.equippedInstances.Missing?) || !HasLegacyHands(s))
      && Trim(s.mainHand) == s.mainHand && Trim(s.offHand) == s.offHand
      && (s.stacks.Missing? || (s.stacks.Listed? && s.stacks.items != [])) && ValidStacks(Decoded(s.stacks).value)
      && (s.instances.Missing? || (s.instances.Listed? && s.instances.items != [])) && ValidInstances(Decoded(s.instances).value)
      && Stable(s.equipment) && ValidEquipment(Equipment(s).value)
      && Stable(s.equippedInstances)
      && ValidEquipped(EquippedInstances(s).value, Equipment(s).value, Decoded(s.instances).value)
  }

  // ----- the canonical form -----

  function InsertBy<T>(before: (T, T) -> bool, x: T, xs: seq<T>): seq<T> {
    if xs == [] || before(x, xs[0]) then [x] + xs else [xs[0]] + InsertBy(before, x, xs[1..])
  }

  /** `sort.Slice` by a strict order on keys. */
  function SortBy<T>(before: (T, T) -> bool, xs: seq<T>): seq<T> {
    if xs == [] then [] else InsertBy(before, xs[0], SortBy(before, xs[1..]))
  }

  function StackBefore(a: Stack, b: Stack): bool { Less(a.archetype, b.archetype) }

  function InstanceBefore(a: Instance, b: Instance): bool { Less(a.id, b.id) }

  function SlotBefore<T>(a: Slotted<T>, b: Slotted<T>): bool { Rank(a.slot) < Rank(b.slot) }

  function TrimStacks(stacks: seq<Stack>): (r: seq<Stack>)
    ensures |r| == |stacks| && forall k :: 0 <= k < |r| ==> r[k] == Stack(Trim(stacks[k].archetype), stacks[k].quantity)
  {
    seq(|stacks|, k requires 0 <= k < |stacks| => Stack(Trim(stacks[k].archetype), stacks[k].quantity))
  }

  function TrimEquipment(items: seq<Slotted<string>>): (r: seq<Slotted<string>>)
    ensures |r| == |items| && forall k :: 0 <= k < |r| ==> r[k] == Slotted(Trim(items[k].slot), Trim(items[k].item))
  {
    seq(|items|, k requires 0 <= k < |items| => Slotted(Trim(items[k].slot), Trim(items[k].item)))
  }

  function TrimSlots(items: seq<Slotted<Instance>>): (r: seq<Slotted<Instance>>)
    ensures |r| == |items| && forall k :: 0 <= k < |r| ==> r[k] == Slotted(Trim(items[k].slot), items[k].item)
  {
    seq(|items|, k requires 0 <= k < |items| => Slotted(Trim(items[k].slot), items[k].item))
  }

  function Assemble(stacks: seq<Stack>, instances: seq<Instance>, equipment: seq<Slotted<string>>, equipped: seq<Slotted<Instance>>): InventoryState {
    EMPTY.(initialized := true, stacks := Written(stacks), instances := Written(instances),
           equipment := Written(equipment), equippedInstances := Written(equipped))
  }

  /** `NewInventoryStateWithSlots`: trim, sort, write, validate. */
  function NewState(stacks: seq<Stack>, instances: seq<Instance>, equipment: seq<Slotted<string>>, equipped: seq<Slotted<Instance>>): (r: Option<InventoryState>)
    ensures r.Some? ==> Validate(r.value) && r.value.initialized
  {
    var s := Assemble(SortBy(StackBefore, TrimStacks(stacks)), SortBy(InstanceBefore, instances),
                      SortBy(SlotBefore<string>, TrimEquipment(equipment)), SortBy(SlotBefore<Instance>, TrimSlots(equipped)));
    if Validate(s) then Some(s) else None
  }

  /** `CanonicalInventoryState`. */
  function Canonical(s: InventoryState): (r: Option<InventoryState>)
    ensures r.Some? ==> Validate(r.value) && r.value.initialized == s.initialized
  {
    if !Validate(s) then None
    else if !s.initialized then Some(EMPTY)
    else NewState(Decoded(s.stacks).value, Decoded(s.instances).value, Equipment(s).value, EquippedInstances(s).value)
  }

  lemma {:induction false} SortedStays<T>(before: (T, T) -> bool, xs: seq<T>)
    requires forall k :: 0 < k < |xs| ==> before(xs[k - 1], xs[k])
    ensures SortBy(before, xs) == xs
  {
    if xs != [] {
      assert forall k :: 0 < k < |xs[1..]| ==> xs[1..][k - 1] == xs[k] && xs[1..][k] == xs[k + 1];
      SortedStays(before, xs[1..]);
      assert xs == [xs[0]] + xs[1..];
    }
  }

  lemma SlotNamesAreTrimmed(slot: string)
    requires Rank(slot) < 7
    ensures Trim(slot) == slot
  {
  }

  /** The canonical form of a valid state: the hand fields move into the slot lists, and a list field
      that spells out an empty list becomes empty text. */
  function Normalised(s: InventoryState): InventoryState
    requires Validate(s)
  {
    if !s.initialized then EMPTY else
      s.(equipment := Written(Equipment(s).value), equippedInstances := Written(EquippedInstances(s).value),
         mainHand := "", offHand := "", mainHandInstance := None, offHandInstance := None)
  }

  lemma SlotsAreTrimmed<T>(items: seq<Slotted<T>>)
    requires Ranked(items)
    ensures forall k :: 0 <= k < |items| ==> Trim(items[k].slot) == items[k].slot
  {
    forall k | 0 <= k < |items| ensures Trim(items[k].slot) == items[k].slot { SlotNamesAreTrimmed(items[k].slot); }
  }

  /** Trimming and sorting leave the lists of a valid state alone. */
  lemma ListsStay(stacks: seq<Stack>, instances: seq<Instance>, equipment: seq<Slotted<string>>, equipped: seq<Slotted<Instance>>)
    requires ValidStacks(stacks) && ValidInstances(instances) && ValidEquipment(equipment) && Ranked(equipped)
    ensures SortBy(StackBefore, TrimStacks(stacks)) == stacks
    ensures SortBy(InstanceBefore, instances) == instances
    ensures SortBy(SlotBefore<string>, TrimEquipment(equipment)) == equipment
    ensures SortBy(SlotBefore<Instance>, TrimSlots(equipped)) == equipped
  {
    SlotsAreTrimmed(equipment);
    SlotsAreTrimmed(equipped);
    assert TrimStacks(stacks) == stacks && TrimEquipment(equipment) == equipment && TrimSlots(equipped) == equipped;
    SortedStays(StackBefore, stacks);
    SortedStays(InstanceBefore, instances);
    SortedStays(SlotBefore<string>, equipment);
    SortedStays(SlotBefore<Instance>, equipped);
  }

  /** Normalising keeps what the accessors report. */
  lemma NormalisedReadsTheSame(s: InventoryState)
    requires Validate(s) && s.initialized
    ensures Equipment(Normalised(s)) == Equipment(s)
    ensures EquippedInstances(Normalised(s)) == EquippedInstances(s)
    ensures Decoded(s.stacks).Some? && Written(Decoded(s.stacks).value) == s.stacks
    ensures Decoded(s.instances).Some? && Written(Decoded(s.instances).value) == s.instances
  {
    var n, equipment, equipped := Normalised(s), Equipment(s).value, EquippedInstances(s).value;
    var none: seq<Slotted<string>>, none': seq<Slotted<Instance>> := [], [];
    assert none + none == none && none' + none' == none';
    assert Equipment(n) == Some(if equipment == [] then none + none else equipment);
    assert EquippedInstances(n) == Some(if equipped == [] then none' + none' else equipped);
  }

  lemma NormalisedIsValid(s: InventoryState)
    requires Validate(s)
    ensures Validate(Normalised(s))
  {
    if s.initialized {
      NormalisedReadsTheSame(s);
      var n, equipment, equipped := Normalised(s), Equipment(s).value, EquippedInstances(s).value;
      assert ValidEquipped(EquippedInstances(n).value, Equipment(n).value, Decoded(n.instances).value);
    }
  }

  lemma CanonicalOfValid(s: InventoryState)
    requires Validate(s)
    ensures Canonical(s) == Some(Normalised(s))
  {
    if s.initialized {
      NormalisedReadsTheSame(s);
      NormalisedIsValid(s);
      ListsStay(Decoded(s.stacks).value, Decoded(s.instances).value, Equipment(s).value, EquippedInstances(s).value);
    }
  }

  /** A valid state is its own canonical form exactly when nothing is left in the hand fields and no
      slot list spells out an empty list. */
  lemma CanonicalExactlyWhen(s: InventoryState)
    requires Validate(s)
    ensures Canonical(s) == Some(s)
            <==> !HasLegacyHands(s)
                 && s.equipment != Null && s.equipment != Listed([])
                 && s.equippedInstances != Null && s.equippedInstances != Listed([])
  {
    CanonicalOfValid(s);
  }

  /** Canonicalising twice changes nothing more. */
  lemma CanonicalIsIdempotent(s: InventoryState)
    requires Validate(s)
    ensures Canonical(s).Some? && Canonical(Canonical(s).value) == Canonical(s)
  {
    CanonicalOfValid(s);
    NormalisedIsValid(s);
    CanonicalExactlyWhen(Normalised(s));
  }
}
