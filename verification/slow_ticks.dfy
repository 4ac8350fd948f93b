/** The bounded list of the slowest ticks of a load run, kept up to date one tick at a time. */
module SlowTicks {

  /** A recorded tick; only its total time decides where it goes. */
  datatype Tick = Tick(tick: nat, total: real)

  const DEFAULT_LIMIT := 8

  // ----- what the list should be: the first entries of a stable sort, slowest first -----

  function Insert(s: seq<Tick>, r: Tick): seq<Tick> {
    if s == [] || s[0].total < r.total then [r] + s else [s[0]] + Insert(s[1..], r)
  }

  function SlowestFirst(history: seq<Tick>): seq<Tick> {
    if history == [] then [] else Insert(SlowestFirst(history[..|history| - 1]), history[|history| - 1])
  }

  function Take(s: seq<Tick>, n: nat): seq<Tick> {
    if |s| <= n then s else s[..n]
  }

  ghost predicate Descending(s: seq<Tick>) {
    forall i, j :: 0 <= i <= j < |s| ==> s[i].total >= s[j].total
  }

  /** The ticks of one duration, in their order. */
  function Lasting(s: seq<Tick>, total: real): seq<Tick> {
    if s == [] then [] else (if s[0].total == total then [s[0]] else []) + Lasting(s[1..], total)
  }

  /** Where an insertion goes: behind everything at least as slow, ahead of everything faster. */
  lemma {:induction false} InsertGoes(s: seq<Tick>, r: Tick, k: nat)
    requires k <= |s|
    requires forall i :: 0 <= i < k ==> s[i].total >= r.total
    requires k < |s| ==> s[k].total < r.total
    ensures Insert(s, r) == s[..k] + [r] + s[k..]
  {
    if k > 0 {
      InsertGoes(s[1..], r, k - 1);
      assert s[1..][..k - 1] == s[1..k] && s[1..][k - 1..] == s[k..];
      assert s[..k] == [s[0]] + s[1..k];
    }
  }

  /** The place there always is. */
  lemma {:induction false} PlaceOf(s: seq<Tick>, r: Tick) returns (k: nat)
    requires Descending(s)
    ensures k <= |s| && (forall i :: 0 <= i < k ==> s[i].total >= r.total) && (forall i :: k <= i < |s| ==> s[i].total < r.total)
    ensures Insert(s, r) == s[..k] + [r] + s[k..]
  {
    k := 0;
    while k < |s| && s[k].total >= r.total
      invariant 0 <= k <= |s| && forall i :: 0 <= i < k ==> s[i].total >= r.total
    {
      k := k + 1;
    }
    InsertGoes(s, r, k);
  }

  lemma InsertDescends(s: seq<Tick>, r: Tick)
    requires Descending(s)
    ensures Descending(Insert(s, r))
  {
    var k := PlaceOf(s, r);
    var t := Insert(s, r);
    forall i, j | 0 <= i <= j < |t| ensures t[i].total >= t[j].total {
      assert t[i] == if i < k then s[i] else if i == k then r else s[i - 1];
      assert t[j] == if j < k then s[j] else if j == k then r else s[j - 1];
    }
  }

  lemma {:induction false} InsertKeeps(s: seq<Tick>, r: Tick)
    ensures multiset(Insert(s, r)) == multiset(s) + multiset{r}
  {
    if s != [] {
      InsertKeeps(s[1..], r);
      assert s == [s[0]] + s[1..];
    }
  }

  lemma {:induction false} LastingJoins(s: seq<Tick>, t: seq<Tick>, total: real)
    ensures Lasting(s + t, total) == Lasting(s, total) + Lasting(t, total)
  {
    if s == [] {
      assert s + t == t;
    } else {
      assert (s + t)[1..] == s[1..] + t;
      LastingJoins(s[1..], t, total);
    }
  }

  lemma {:induction false} NoneLasting(s: seq<Tick>, total: real)
    requires forall i :: 0 <= i < |s| ==> s[i].total != total
    ensures Lasting(s, total) == []
  {
    if s != [] {
      NoneLasting(s[1..], total);
    }
  }

  lemma InsertIsStable(s: seq<Tick>, r: Tick, total: real)
    requires Descending(s)
    ensures Lasting(Insert(s, r), total) == Lasting(s + [r], total)
  {
    var k := PlaceOf(s, r);
    assert s == s[..k] + s[k..];
    StableBetween(s[..k], s[k..], r, total);
  }

  lemma StableBetween(a: seq<Tick>, b: seq<Tick>, r: Tick, total: real)
    requires forall i :: 0 <= i < |b| ==> b[i].total < r.total
    ensures Lasting(a + [r] + b, total) == Lasting(a + b + [r], total)
  {
    LastingJoins(a + [r], b, total);
    LastingJoins(a, [r], total);
    LastingJoins(a + b, [r], total);
    LastingJoins(a, b, total);
    if total == r.total {
      NoneLasting(b, total);
    } else {
      NoneLasting([r], total);
    }
  }

  /** `SlowestFirst` is a stable sort: a permutation, slowest first, ticks of equal duration in arrival order. */
  lemma {:induction false} SlowestFirstSorts(history: seq<Tick>, total: real)
    ensures Descending(SlowestFirst(history)) && multiset(SlowestFirst(history)) == multiset(history)
    ensures Lasting(SlowestFirst(history), total) == Lasting(history, total)
  {
    if history != [] {
      var before, r := history[..|history| - 1], history[|history| - 1];
      assert history == before + [r];
      SlowestFirstSorts(before, total);
      InsertDescends(SlowestFirst(before), r);
      InsertKeeps(SlowestFirst(before), r);
      InsertIsStable(SlowestFirst(before), r, total);
      LastingJoins(SlowestFirst(before), [r], total);
      LastingJoins(before, [r], total);
    }
  }

  /** Whatever was dropped is no slower than anything kept. */
  lemma KeptAreTheSlowest(history: seq<Tick>, n: nat)
    ensures var all := SlowestFirst(history);
            var kept, dropped := Take(all, n), all[|Take(all, n)|..];
            && multiset(kept) + multiset(dropped) == multiset(history)
            && |kept| == (if |history| <= n then |history| else n)
            && forall i, j :: 0 <= i < |kept| && 0 <= j < |dropped| ==> kept[i].total >= dropped[j].total
  {
    var all := SlowestFirst(history);
    var kept := Take(all, n);
    SlowestFirstSorts(history, 0.0);
    SameLength(all, history);
    assert all == kept + all[|kept|..];
    forall i, j | 0 <= i < |kept| && 0 <= j < |all| - |kept| ensures kept[i].total >= all[|kept|..][j].total {
      assert all[|kept|..][j] == all[|kept| + j] && kept[i] == all[i];
    }
  }

  lemma SameLength(s: seq<Tick>, t: seq<Tick>)
    requires multiset(s) == multiset(t)
    ensures |s| == |t|
  {
    assert |multiset(s)| == |s| && |multiset(t)| == |t|;
  }

  // ----- one more tick -----

  /** A list with room: the tick is inserted. */
  lemma InsertWithRoom(all: seq<Tick>, r: Tick, n: nat)
    requires |all| < n
    ensures Take(Insert(all, r), n) == Insert(Take(all, n), r)
  {
    InsertLength(all, r);
  }

  lemma {:induction false} InsertLength(s: seq<Tick>, r: Tick)
    ensures |Insert(s, r)| == |s| + 1
  {
    if s != [] {
      InsertLength(s[1..], r);
    }
  }

  /** A full list whose last entry is at least as slow keeps what it has. */
  lemma InsertBeyond(all: seq<Tick>, r: Tick, n: nat)
    requires Descending(all) && 0 < n <= |all| && r.total <= all[n - 1].total
    ensures Take(Insert(all, r), n) == Take(all, n)
  {
    var k := PlaceOf(all, r);
    assert k >= n;
  }

  /** A full list whose last entry is faster loses that one. */
  lemma InsertReplacing(all: seq<Tick>, r: Tick, n: nat)
    requires Descending(all) && 0 < n <= |all| && r.total > all[n - 1].total
    ensures Take(Insert(all, r), n) == Insert(all[..n - 1], r)
  {
    var k := PlaceOf(all, r);
    assert k < n;
    InsertGoes(all[..n - 1], r, k);
    assert all[..n - 1][..k] == all[..k] && all[..n - 1][k..] == all[k..n - 1];
  }

  /** What one more tick does to a sorted list that is cut at `n`. */
  lemma OneMoreSorted(all: seq<Tick>, r: Tick, n: nat)
    requires 0 < n && Descending(all)
    ensures var kept, next := Take(all, n), Take(Insert(all, r), n);
            && (|kept| < n ==> next == Insert(kept, r))
            && (|kept| == n && r.total <= kept[n - 1].total ==> next == kept)
            && (|kept| == n && r.total > kept[n - 1].total ==> next == Insert(kept[..n - 1], r))
  {
    if |all| < n {
      InsertWithRoom(all, r, n);
    } else {
      assert all[..n][..n - 1] == all[..n - 1];
      if r.total <= all[n - 1].total {
        InsertBeyond(all, r, n);
      } else {
        InsertReplacing(all, r, n);
      }
    }
  }

  /** What one more tick does to the list that is kept. */
  lemma OneMore(history: seq<Tick>, r: Tick, n: nat)
    requires 0 < n
    ensures var kept, next := Take(SlowestFirst(history), n), Take(SlowestFirst(history + [r]), n);
            && Descending(kept) && |kept| <= n
            && (|kept| < n ==> next == Insert(kept, r))
            && (|kept| == n && r.total <= kept[n - 1].total ==> next == kept)
            && (|kept| == n && r.total > kept[n - 1].total ==> Descending(kept[..n - 1]) && next == Insert(kept[..n - 1], r))
  {
    SlowestFirstSorts(history, 0.0);
    assert (history + [r])[..|history|] == history;
    OneMoreSorted(SlowestFirst(history), r, n);
  }

  class SlowTickCollector {
    const limit: nat
    const slots: array<Tick>
    var used: nat
    var active: bool

    /** Every tick recorded since the last reset. */
    ghost var history: seq<Tick>

    function Ticks(): seq<Tick>
      reads this, slots
      requires used <= slots.Length
    {
      slots[..used]
    }

    ghost predicate Valid()
      reads this, slots
    {
      && 0 < limit == slots.Length
      && used <= limit
      && Ticks() == Take(SlowestFirst(history), limit)
    }

    constructor (wanted: int)
      ensures Valid() && !active && history == [] && limit == (if wanted <= 0 then DEFAULT_LIMIT else wanted) && fresh(slots)
    {
      var n := if wanted <= 0 then DEFAULT_LIMIT else wanted;
      limit, slots := n, new Tick[n](_ => Tick(0, 0.0));
      used, active, history := 0, false, [];
    }

    method Reset()
      requires Valid()
      modifies this
      ensures Valid() && active && history == []
    {
      active, used, history := true, 0, [];
    }

    /** The list after a tick is again the start of the sorted history. */
    method Record(r: Tick)
      requires Valid()
      modifies this, slots
      ensures Valid() && active == old(active)
      ensures history == if active then old(history) + [r] else old(history)
    {
      if !active { return; }
      ghost var kept := Ticks();
      OneMore(history, r, limit);
      history := history + [r];
      assert used == limit ==> slots[used - 1] == kept[limit - 1] && slots[..used - 1] == kept[..limit - 1];
      if used < limit {
        Place(used, r);
      } else if r.total > slots[used - 1].total {
        Place(used - 1, r);
      }
    }

    /** Puts a tick behind the first `n` and moves it to where it belongs. */
    method Place(n: nat, r: Tick)
      requires n < slots.Length && n <= used && Descending(slots[..n])
      modifies this`used, slots
      ensures used == n + 1 && Ticks() == Insert(old(slots[..n]), r)
    {
      ghost var kept := slots[..n];
      slots[n] := r;
      used := n + 1;
      assert slots[..n] == kept;
      assert Ticks() == kept + [r];
      Promote(kept, r);
    }

    /** Moves the last tick ahead of every faster one. */
    method Promote(ghost s: seq<Tick>, ghost r: Tick)
      requires 0 < used <= slots.Length && Ticks() == s + [r] && Descending(s)
      modifies slots
      ensures Ticks() == Insert(s, r)
    {
      var index := used - 1;
      while index > 0 && slots[index].total > slots[index - 1].total
        invariant 0 <= index < used
        invariant Ticks() == s[..index] + [r] + s[index..]
        invariant forall i :: index <= i < |s| ==> s[i].total < r.total
      {
        assert slots[index] == Ticks()[index] == r && slots[index - 1] == Ticks()[index - 1] == s[index - 1];
        slots[index], slots[index - 1] := slots[index - 1], slots[index];
        index := index - 1;
        assert Ticks() == s[..index] + [r] + s[index..];
      }
      assert slots[index] == Ticks()[index] == r;
      assert index > 0 ==> slots[index - 1] == Ticks()[index - 1] == s[index - 1];
      InsertGoes(s, r, index);
    }

    method Finish() returns (ticks: seq<Tick>)
      requires Valid()
      modifies this`active
      ensures Valid() && !active && ticks == Take(SlowestFirst(history), limit)
    {
      active := false;
      ticks := slots[..used];
    }
  }
}
