/** Action resources of live characters: a bounded counter that also collects progress towards its next unit. */
module ActionProgress {
  import opened Outcomes

  datatype Definition = Definition(id: string, max: nat, threshold: nat)

  function DefinitionForID(id: string): Option<Definition> {
    if id == "resolve" || id == "momentum" || id == "hunt_momentum" || id == "star_heat" then Some(Definition(id, 100, 0))
    else if id == "oath_seal" then Some(Definition(id, 3, 100))
    else None
  }

  datatype State = State(hp: nat, maxHp: nat, mp: nat, maxMp: nat, defeated: bool,
                         resource: string, current: nat, max: nat, progress: nat)

  datatype Fault = NotFound | Exists | InvalidState | Defeated | Mismatch

  /** `validateState`, without the primary attributes. */
  predicate ValidState(s: State) {
    && 0 < s.maxHp && s.hp <= s.maxHp && 0 < s.maxMp && s.mp <= s.maxMp
    && s.current <= s.max
    && (if s.resource == "" then s.current == 0 && s.max == 0 && s.progress == 0
        else
          var d := DefinitionForID(s.resource);
          && d.Some? && s.max == d.value.max
          && (s.progress > 0 ==> s.progress < d.value.threshold && s.current < s.max))
    && (s.defeated <==> s.hp == 0)
  }

  predicate CollectsProgress(s: State, resource: string) {
    var d := DefinitionForID(s.resource);
    d.Some? && resource != "" && s.resource == resource && d.value.max == s.max && d.value.threshold != 0
  }

  /** Everything collected, in units of progress. */
  function Worth(s: State, threshold: nat): nat {
    s.current * threshold + s.progress
  }

  function Truncated(n: nat): nat {
    n % 0x1_0000_0000
  }

  function Min(a: nat, b: nat): nat {
    if a <= b then a else b
  }

  /** The state a character has after some progress; the number of units gained is cut to 32 bits. */
  function Progressed(s: State, threshold: nat, amount: nat): State
    requires 0 < threshold
  {
    if amount == 0 || s.current >= s.max then s
    else
      var total := s.progress + amount;
      Credited(s, Truncated(total / threshold), Truncated(total % threshold))
  }

  function Credited(s: State, gained: nat, rest: nat): State {
    if gained == 0 then s.(progress := rest)
    else if s.current + gained >= s.max then s.(current := s.max, progress := 0)
    else s.(current := s.current + gained, progress := rest)
  }

  /** Progress collected and not above the ceiling: the part of validity the counter needs. */
  predicate Counter(s: State, threshold: nat) {
    && 0 < threshold <= MAX_UINT32 && s.current <= s.max <= MAX_UINT32
    && s.progress < threshold && (s.current == s.max ==> s.progress == 0)
  }

  lemma TimesLess(a: nat, b: nat, t: nat)
    requires a <= b
    ensures a * t <= b * t
  {
  }

  lemma TimesSum(a: nat, b: nat, t: nat)
    ensures (a + b) * t == a * t + b * t
  {
  }

  lemma Division(total: nat, t: nat)
    requires 0 < t
    ensures total == total / t * t + total % t && total % t < t
  {
  }

  lemma QuotientFits(q: nat, t: nat, amount: nat)
    requires 0 < t && q * t < t + amount
    ensures q <= amount
  {
    TimesSum(amount, 1, t);
    TimesLess(1, t, amount);
    if q > amount {
      TimesLess(amount + 1, q, t);
    }
  }

  /** The 32-bit cut never loses anything. */
  lemma CutsNothing(total: nat, t: nat, amount: nat)
    requires 0 < t <= MAX_UINT32 && total < t + amount && amount <= MAX_UINT32
    ensures Truncated(total / t) == total / t && Truncated(total % t) == total % t
  {
    var q, r := total / t, total % t;
    Division(total, t);
    QuotientFits(q, t, amount);
    FitsUncut(q);
    FitsUncut(r);
  }

  lemma FitsUncut(n: nat)
    requires n <= MAX_UINT32
    ensures Truncated(n) == n
  {
  }

  lemma BelowCeiling(current: nat, max: nat, progress: nat, t: nat)
    requires current < max && progress < t
    ensures current * t + progress < max * t
  {
    TimesLess(current + 1, max, t);
    TimesSum(current, 1, t);
  }

  lemma UnitsAndRest(current: nat, max: nat, collected: nat, t: nat, q: nat, r: nat)
    requires collected == q * t + r && r < t
    ensures current + q >= max ==> max * t <= current * t + collected
    ensures current + q < max ==> current * t + collected == (current + q) * t + r < max * t
  {
    TimesSum(current, q, t);
    if current + q >= max {
      TimesLess(max, current + q, t);
    } else {
      BelowCeiling(current + q, max, r, t);
    }
  }

  lemma CreditSaturates(s: State, t: nat, collected: nat, gained: nat, rest: nat)
    requires Counter(s, t) && s.current < s.max && collected == gained * t + rest && rest < t
    ensures var c := Credited(s, gained, rest);
            Worth(c, t) == Min(s.current * t + collected, s.max * t) && Counter(c, t)
  {
    UnitsAndRest(s.current, s.max, collected, t, gained, rest);
  }

  /** Gaining progress adds to the worth of the counter and stops at the ceiling; nothing else changes. */
  lemma ProgressSaturates(s: State, threshold: nat, amount: nat)
    requires Counter(s, threshold) && amount <= MAX_UINT32
    ensures var t := Progressed(s, threshold, amount);
            && Worth(t, threshold) == Min(Worth(s, threshold) + amount, s.max * threshold)
            && Counter(t, threshold)
            && t == s.(current := t.current, progress := t.progress)
  {
    if s.current < s.max {
      var total := s.progress + amount;
      Division(total, threshold);
      CutsNothing(total, threshold, amount);
      CreditSaturates(s, threshold, total, total / threshold, total % threshold);
      BelowCeiling(s.current, s.max, s.progress, threshold);
    }
  }

  /** Two counters of equal worth are equal. */
  lemma WorthDecides(s: State, t: State, threshold: nat)
    requires 0 < threshold && s.progress < threshold && t.progress < threshold && Worth(s, threshold) == Worth(t, threshold)
    ensures s.current == t.current && s.progress == t.progress
  {
    if s.current < t.current {
      BelowCeiling(s.current, t.current, s.progress, threshold);
    } else if t.current < s.current {
      BelowCeiling(t.current, s.current, t.progress, threshold);
    }
  }

  function Sum(amounts: seq<nat>): nat {
    if amounts == [] then 0 else amounts[0] + Sum(amounts[1..])
  }

  function ProgressedBy(s: State, threshold: nat, amounts: seq<nat>): State
    requires 0 < threshold
    decreases |amounts|
  {
    if amounts == [] then s else ProgressedBy(Progressed(s, threshold, amounts[0]), threshold, amounts[1..])
  }

  predicate Amounts(amounts: seq<nat>) {
    forall i :: 0 <= i < |amounts| ==> amounts[i] <= MAX_UINT32
  }

  /** A whole run of gains saturates like a single one. */
  lemma {:induction false} RunSaturates(s: State, threshold: nat, amounts: seq<nat>)
    requires Counter(s, threshold) && Amounts(amounts)
    ensures var t := ProgressedBy(s, threshold, amounts);
            && Worth(t, threshold) == Min(Worth(s, threshold) + Sum(amounts), s.max * threshold)
            && Counter(t, threshold)
            && t == s.(current := t.current, progress := t.progress)
    decreases |amounts|
  {
    if amounts == [] {
      if s.current < s.max {
        BelowCeiling(s.current, s.max, s.progress, threshold);
      }
    } else {
      ProgressSaturates(s, threshold, amounts[0]);
      RunSaturates(Progressed(s, threshold, amounts[0]), threshold, amounts[1..]);
    }
  }

  /** How an amount is split, and in which order the parts come, makes no difference. */
  lemma SplitMakesNoDifference(s: State, threshold: nat, a: seq<nat>, b: seq<nat>)
    requires Counter(s, threshold) && Amounts(a) && Amounts(b) && Sum(a) == Sum(b)
    ensures ProgressedBy(s, threshold, a) == ProgressedBy(s, threshold, b)
  {
    RunSaturates(s, threshold, a);
    RunSaturates(s, threshold, b);
    WorthDecides(ProgressedBy(s, threshold, a), ProgressedBy(s, threshold, b), threshold);
  }

  /** A valid state that collects progress is such a counter, and stays valid. */
  lemma ProgressKeepsValid(s: State, resource: string, amount: nat)
    requires ValidState(s) && CollectsProgress(s, resource) && amount <= MAX_UINT32
    ensures Counter(s, DefinitionForID(resource).value.threshold)
    ensures ValidState(Progressed(s, DefinitionForID(resource).value.threshold, amount))
  {
    ProgressSaturates(s, DefinitionForID(resource).value.threshold, amount);
  }

  // ----- whole units -----

  function Filled(s: State, amount: nat): State {
    if amount == 0 || s.current >= s.max then s else s.(current := Min(s.current + amount, s.max))
  }

  /** Gaining whole units leaves a valid state exactly when it does not fill up a resource that has progress
      under way. */
  lemma FillingKeepsValidExactlyWhen(s: State, amount: nat)
    requires ValidState(s)
    ensures ValidState(Filled(s, amount)) <==> s.progress == 0 || s.current + amount < s.max
  {
  }

  /** A seal with a little progress, filled up: the state a later registration would refuse. */
  lemma FillingCanBreakAState()
    ensures var s := State(1, 1, 1, 1, false, "oath_seal", 2, 3, 1); ValidState(s) && !ValidState(Filled(s, 1))
  {
  }

  /** What registration makes of a given state, if its action resource is one there is. */
  function Normalised(s: State, defaultMaxMp: nat): Option<State> {
    var t := if s.mp == 0 && s.maxMp == 0 then s.(mp := defaultMaxMp, maxMp := defaultMaxMp) else s;
    if t.resource == "" || t.max != 0 then (if t.resource == "" || DefinitionForID(t.resource).Some? then Some(t) else None)
    else if DefinitionForID(t.resource).None? || t.current != 0 || t.progress != 0 then None
    else Some(t.(max := DefinitionForID(t.resource).value.max))
  }

  class Service {
    const defaultMaxMp: nat
    var states: map<nat, State>

    ghost predicate Valid()
      reads this
    {
      forall id :: id in states ==> ValidState(states[id])
    }

    constructor (defaultMaxMp: nat)
      requires 0 < defaultMaxMp
      ensures Valid() && states == map[] && this.defaultMaxMp == defaultMaxMp
    {
      states, this.defaultMaxMp := map[], defaultMaxMp;
    }

    /** Lets a character in: absent action points and an absent maximum get their defaults, and what is then not
        valid is refused. */
    method RegisterState(id: nat, given: State) returns (fault: Option<Fault>)
      requires Valid()
      modifies this
      ensures Valid()
      ensures var s := Normalised(given, defaultMaxMp);
              && (fault == None <==> id != 0 && id !in old(states) && s.Some? && ValidState(s.value))
              && states == if fault == None then old(states)[id := s.value] else old(states)
    {
      if id == 0 { return Some(NotFound); }
      if id in states { return Some(Exists); }
      var state := given;
      if state.mp == 0 && state.maxMp == 0 {
        state := state.(mp := defaultMaxMp, maxMp := defaultMaxMp);
      }
      if state.resource != "" {
        var definition := DefinitionForID(state.resource);
        if definition.None? { return Some(InvalidState); }
        if state.max == 0 {
          if state.current != 0 || state.progress != 0 { return Some(InvalidState); }
          state := state.(max := definition.value.max);
        }
      }
      if !ValidState(state) { return Some(InvalidState); }
      states := states[id := state];
      return None;
    }

    /** What a gain of progress answers: the state afterwards and whether a whole unit was gained. */
    method GainActionResourceProgress(id: nat, resource: string, amount: nat) returns (r: Result<(State, bool), Fault>)
      requires Valid() && amount <= MAX_UINT32
      modifies this
      ensures Valid()
      ensures r.Ok? <==> id in old(states) && !old(states)[id].defeated && CollectsProgress(old(states)[id], resource)
      ensures r.Err? ==> states == old(states)
      ensures r == Err(NotFound) <==> id !in old(states)
      ensures r == Err(Defeated) <==> id in old(states) && old(states)[id].defeated
      ensures r.Ok? ==>
                var s, t := old(states)[id], DefinitionForID(resource).value.threshold;
                && Counter(s, t) && r.value.0 == Progressed(s, t, amount)
                && Worth(r.value.0, t) == Min(Worth(s, t) + amount, s.max * t)
                && (r.value.1 <==> r.value.0.current > s.current)
                && states == old(states)[id := r.value.0]
    {
      if id !in states { return Err(NotFound); }
      var state := states[id];
      if state.defeated { return Err(Defeated); }
      var definition := DefinitionForID(state.resource);
      if definition.None? || resource == "" || state.resource != resource || definition.value.max != state.max || definition.value.threshold == 0 {
        return Err(Mismatch);
      }
      var threshold := definition.value.threshold;
      ProgressKeepsValid(state, resource, amount);
      ProgressSaturates(state, threshold, amount);
      if amount == 0 || state.current >= state.max {
        assert states == states[id := state];
        return Ok((state, false));
      }
      var total := state.progress + amount;
      var gained := Truncated(total / threshold);
      state := state.(progress := Truncated(total % threshold));
      if gained > 0 {
        var missing := state.max - state.current;
        state := if gained >= missing then state.(current := state.max, progress := 0) else state.(current := state.current + gained);
      }
      states := states[id := state];
      return Ok((state, gained > 0));
    }
  }
}
