/** The fixed-window limiter in front of the session login: per source a window and a number of attempts, in a
    table that never grows past its bound. */
module LoginLimiter {
  import opened Outcomes

  /** One second in nanoseconds, the unit of every time below. */
  const SECOND: int := 1_000_000_000

  datatype Entry = Entry(windowStart: int, attempts: int, lastSeen: int)

  /** An attempt that was let through, and the start of the window it was counted in. */
  datatype Pass = Pass(at: int, window: int)

  predicate Expired(width: int, e: Entry, now: int) {
    now >= e.windowStart + width
  }

  function Unexpired(width: int, entries: map<string, Entry>, now: int): map<string, Entry> {
    map s | s in entries && !Expired(width, entries[s], now) :: entries[s]
  }

  function EntryOf(entries: map<string, Entry>, s: string): Option<Entry> {
    if s in entries then Some(entries[s]) else None
  }

  function PassesOf(passes: map<string, seq<Pass>>, s: string): seq<Pass> {
    if s in passes then passes[s] else []
  }

  // ----- one source -----

  /** Every pass lies in its window, later passes come later, and two windows are the same or do not overlap. */
  ghost predicate Disjoint(width: int, log: seq<Pass>) {
    && (forall i :: 0 <= i < |log| ==> log[i].window <= log[i].at < log[i].window + width)
    && (forall i, j :: 0 <= i <= j < |log| ==> log[i].at <= log[j].at)
    && (forall i, j :: 0 <= i <= j < |log| ==> log[i].window == log[j].window || log[i].window + width <= log[j].window)
  }

  ghost predicate Limited(width: int, limit: nat, log: seq<Pass>) {
    forall i, j :: 0 <= i && i + limit <= j < |log| ==> log[i].window + width <= log[j].window
  }

  /** A window starts with a pass at its very start. */
  ghost predicate Opened(log: seq<Pass>) {
    && (forall i, j :: 0 <= i && j == i + 1 < |log| && log[j].at != log[j].window ==> log[i].window == log[j].window)
    && (log != [] ==> log[0].at == log[0].window)
  }

  /** The passes of one source lie in disjoint windows, each opened by a pass at its very start and holding at
      most `limit` of them. */
  ghost predicate Spaced(width: int, limit: nat, log: seq<Pass>) {
    Disjoint(width, log) && Limited(width, limit, log) && Opened(log)
  }

  /** What the table knows about a source agrees with its passes; a source it does not hold has no open window. */
  ghost predicate Tracks(width: int, limit: nat, e: Option<Entry>, log: seq<Pass>, clock: int) {
    && Spaced(width, limit, log)
    && (forall i :: 0 <= i < |log| ==> log[i].at <= clock)
    && match e
       case None => forall i :: 0 <= i < |log| ==> log[i].window + width <= clock
       case Some(e) =>
         && 1 <= e.attempts <= limit && e.attempts <= |log| && e.windowStart <= clock
         && (forall i :: |log| - e.attempts <= i < |log| ==> log[i].window == e.windowStart)
         && (forall i :: 0 <= i < |log| - e.attempts ==> log[i].window + width <= e.windowStart)
  }

  lemma OpensWindow(width: int, limit: nat, log: seq<Pass>, now: int)
    requires 0 < width && 0 < limit && Spaced(width, limit, log)
    requires forall i :: 0 <= i < |log| ==> log[i].at <= now && log[i].window + width <= now
    ensures Tracks(width, limit, Some(Entry(now, 1, now)), log + [Pass(now, now)], now)
  {
    var more := log + [Pass(now, now)];
    assert forall i :: 0 <= i < |log| ==> more[i] == log[i];
    StillSpaced(width, limit, log, Pass(now, now));
  }

  lemma StaysInWindow(width: int, limit: nat, e: Entry, log: seq<Pass>, clock: int, now: int)
    requires 0 < width && Tracks(width, limit, Some(e), log, clock) && clock <= now
    requires !Expired(width, e, now) && e.attempts < limit
    ensures Tracks(width, limit, Some(Entry(e.windowStart, e.attempts + 1, now)), log + [Pass(now, e.windowStart)], now)
  {
    var more, n := log + [Pass(now, e.windowStart)], |log|;
    assert more[n].window == e.windowStart && more[n - 1] == log[n - 1];
    forall i | 0 <= i < n
      ensures more[i] == log[i] && more[i].at <= now
      ensures more[i].window == e.windowStart || more[i].window + width <= e.windowStart
      ensures i + limit <= n ==> more[i].window + width <= e.windowStart
    {
    }
    StillSpaced(width, limit, log, more[n]);
  }

  lemma StillSpaced(width: int, limit: nat, log: seq<Pass>, p: Pass)
    requires 0 < width && 0 < limit && Spaced(width, limit, log) && p.window <= p.at < p.window + width
    requires forall i :: 0 <= i < |log| ==> log[i].at <= p.at && (log[i].window == p.window || log[i].window + width <= p.window)
    requires forall i :: 0 <= i && i + limit <= |log| && i < |log| ==> log[i].window + width <= p.window
    requires p.at != p.window ==> log != [] && log[|log| - 1].window == p.window
    ensures Spaced(width, limit, log + [p])
  {
    StillDisjoint(width, log, p);
    StillLimited(width, limit, log, p);
    StillOpened(log, p);
  }

  lemma StillDisjoint(width: int, log: seq<Pass>, p: Pass)
    requires 0 < width && Disjoint(width, log) && p.window <= p.at < p.window + width
    requires forall i :: 0 <= i < |log| ==> log[i].at <= p.at && (log[i].window == p.window || log[i].window + width <= p.window)
    ensures Disjoint(width, log + [p])
  {
    var more := log + [p];
    forall i, j | 0 <= i <= j < |more|
      ensures more[i].at <= more[j].at && (more[i].window == more[j].window || more[i].window + width <= more[j].window)
    {
      assert i < |log| ==> more[i] == log[i];
      assert j < |log| ==> more[j] == log[j];
    }
  }

  lemma StillLimited(width: int, limit: nat, log: seq<Pass>, p: Pass)
    requires 0 < limit && Limited(width, limit, log)
    requires forall i :: 0 <= i && i + limit <= |log| && i < |log| ==> log[i].window + width <= p.window
    ensures Limited(width, limit, log + [p])
  {
    var more := log + [p];
    assert forall i :: 0 <= i < |log| ==> more[i] == log[i];
  }

  lemma StillOpened(log: seq<Pass>, p: Pass)
    requires Opened(log)
    requires p.at != p.window ==> log != [] && log[|log| - 1].window == p.window
    ensures Opened(log + [p])
  {
    var more := log + [p];
    assert forall i :: 0 <= i < |log| ==> more[i] == log[i];
  }

  /** Any interval of one window's length, wherever it starts, holds at most twice the limit less one. */
  lemma AtMostTwiceLessOne(width: int, limit: nat, log: seq<Pass>, i: nat, j: nat)
    requires 0 < width && 0 < limit && Spaced(width, limit, log) && i + 2 * limit - 1 <= j < |log|
    ensures log[i].at + width <= log[j].at
  {
    if log[i].at == log[i].window {
      assert log[i].window + width <= log[i + limit].window;
      assert log[i + limit].at <= log[j].at;
    } else {
      var h := i - 1;
      assert log[h].window == log[i].window;
      assert log[h].window + width <= log[h + limit].window;
      assert log[h + limit].window + width <= log[h + 2 * limit].window;
      assert log[h + 2 * limit].at <= log[j].at;
    }
  }

  // ----- the table -----

  ghost predicate TracksAll(width: int, limit: nat, entries: map<string, Entry>, passes: map<string, seq<Pass>>, clock: int) {
    forall s {:trigger TracksOne(width, limit, entries, passes, clock, s)} :: TracksOne(width, limit, entries, passes, clock, s)
  }

  ghost predicate TracksOne(width: int, limit: nat, entries: map<string, Entry>, passes: map<string, seq<Pass>>, clock: int, s: string) {
    Tracks(width, limit, EntryOf(entries, s), PassesOf(passes, s), clock)
  }

  /** The entry of a source that is let in. */
  function Admitted(width: int, e: Option<Entry>, now: int): Entry {
    if e.None? || Expired(width, e.value, now) then Entry(now, 1, now) else Entry(e.value.windowStart, e.value.attempts + 1, now)
  }

  lemma TimePasses(width: int, limit: nat, e: Option<Entry>, log: seq<Pass>, clock: int, now: int)
    requires Tracks(width, limit, e, log, clock) && clock <= now
    ensures Tracks(width, limit, e, log, now)
  {
  }

  lemma LetIn(width: int, limit: nat, e: Option<Entry>, log: seq<Pass>, clock: int, now: int)
    requires 0 < width && 0 < limit && Tracks(width, limit, e, log, clock) && clock <= now
    requires e.Some? && !Expired(width, e.value, now) ==> e.value.attempts < limit
    ensures var a := Admitted(width, e, now); Tracks(width, limit, Some(a), log + [Pass(now, a.windowStart)], now)
  {
    if e.None? || Expired(width, e.value, now) {
      OpensWindow(width, limit, log, now);
    } else {
      StaysInWindow(width, limit, e.value, log, clock, now);
    }
  }

  lemma AllLetIn(width: int, limit: nat, entries: map<string, Entry>, passes: map<string, seq<Pass>>, clock: int, now: int, s: string)
    requires 0 < width && 0 < limit && TracksAll(width, limit, entries, passes, clock) && clock <= now
    requires s in entries && !Expired(width, entries[s], now) ==> entries[s].attempts < limit
    ensures var a := Admitted(width, EntryOf(entries, s), now);
            TracksAll(width, limit, entries[s := a], passes[s := PassesOf(passes, s) + [Pass(now, a.windowStart)]], now)
  {
    var a := Admitted(width, EntryOf(entries, s), now);
    var table, more := entries[s := a], passes[s := PassesOf(passes, s) + [Pass(now, a.windowStart)]];
    assert TracksOne(width, limit, entries, passes, clock, s);
    LetIn(width, limit, EntryOf(entries, s), PassesOf(passes, s), clock, now);
    forall t | t != s ensures TracksOne(width, limit, table, more, now, t) {
      OneLater(width, limit, entries, passes, clock, now, t);
      assert EntryOf(table, t) == EntryOf(entries, t) && PassesOf(more, t) == PassesOf(passes, t);
    }
    assert TracksOne(width, limit, table, more, now, s);
  }

  lemma OneLater(width: int, limit: nat, entries: map<string, Entry>, passes: map<string, seq<Pass>>, clock: int, now: int, t: string)
    requires TracksAll(width, limit, entries, passes, clock) && clock <= now
    ensures TracksOne(width, limit, entries, passes, now, t)
  {
    assert TracksOne(width, limit, entries, passes, clock, t);
    TimePasses(width, limit, EntryOf(entries, t), PassesOf(passes, t), clock, now);
  }

  lemma AllRefused(width: int, limit: nat, entries: map<string, Entry>, passes: map<string, seq<Pass>>, clock: int, now: int, s: string)
    requires TracksAll(width, limit, entries, passes, clock) && clock <= now && s in entries
    ensures TracksAll(width, limit, entries[s := entries[s].(lastSeen := now)], passes, now)
  {
    var table := entries[s := entries[s].(lastSeen := now)];
    forall t ensures TracksOne(width, limit, table, passes, now, t) {
      OneLater(width, limit, entries, passes, clock, now, t);
    }
  }

  /** Dropping windows that are over loses nothing the limit depends on. */
  lemma AllEvicted(width: int, limit: nat, entries: map<string, Entry>, passes: map<string, seq<Pass>>, clock: int, now: int)
    requires 0 < width && TracksAll(width, limit, entries, passes, clock) && clock <= now
    ensures TracksAll(width, limit, Unexpired(width, entries, now), passes, now)
  {
    forall t ensures TracksOne(width, limit, Unexpired(width, entries, now), passes, now, t) {
      OneLater(width, limit, entries, passes, clock, now, t);
    }
  }

  lemma AllLater(width: int, limit: nat, entries: map<string, Entry>, passes: map<string, seq<Pass>>, clock: int, now: int)
    requires TracksAll(width, limit, entries, passes, clock) && clock <= now
    ensures TracksAll(width, limit, entries, passes, now)
  {
    forall t ensures TracksOne(width, limit, entries, passes, now, t) {
      OneLater(width, limit, entries, passes, clock, now, t);
    }
  }

  class SessionLoginAbuseGuard {
    const width: int
    const maxAttempts: int
    const maxEntries: int
    var entries: map<string, Entry>

    /** Every attempt let through so far, by source, and the last time the clock was read. */
    ghost var passes: map<string, seq<Pass>>
    ghost var clock: int

    predicate Enabled() {
      0 < width && 0 < maxAttempts && 0 < maxEntries
    }

    ghost predicate Valid()
      reads this
    {
      Enabled() ==> |entries| <= maxEntries && TracksAll(width, maxAttempts, entries, passes, clock)
    }

    constructor (width: int, maxAttempts: int, maxEntries: int, ghost start: int)
      ensures Valid() && entries == map[] && passes == map[] && clock == start
      ensures this.width == width && this.maxAttempts == maxAttempts && this.maxEntries == maxEntries
    {
      this.width, this.maxAttempts, this.maxEntries, entries, passes, clock := width, maxAttempts, maxEntries, map[], map[], start;
    }

    /** Whatever the limiter went through, a source never had more than `maxAttempts` passes counted in one
        window, nor more than twice that less one in any interval of one window's length. */
    lemma NeverTooMany(s: string, i: nat, j: nat)
      requires Valid() && Enabled() && i <= j < |PassesOf(passes, s)|
      ensures var log := PassesOf(passes, s);
              && (log[i].window == log[j].window ==> j - i < maxAttempts)
              && (log[j].at < log[i].at + width ==> j - i < 2 * maxAttempts - 1)
      ensures |entries| <= maxEntries
    {
      var log := PassesOf(passes, s);
      assert TracksOne(width, maxAttempts, entries, passes, clock, s);
      if i + 2 * maxAttempts - 1 <= j {
        AtMostTwiceLessOne(width, maxAttempts, log, i, j);
      }
    }

    method EvictExpired(now: int)
      modifies this`entries
      ensures entries == Unexpired(width, old(entries), now)
      ensures |entries| <= |old(entries)|
    {
      var all, left := entries, entries.Keys;
      while left != {}
        invariant left <= all.Keys
        invariant forall s :: s in entries <==> s in all && (s in left || !Expired(width, all[s], now))
        invariant forall s :: s in entries ==> entries[s] == all[s]
        decreases |left|
      {
        var s :| s in left;
        left := left - {s};
        if Expired(width, all[s], now) {
          entries := entries - {s};
        }
      }
      FewerKeys(entries, all);
    }

    /** Whether a login attempt from a source may go on, and otherwise how long the caller should wait. */
    method Allow(source: string, now: int) returns (allowed: bool, retry: int)
      requires Valid() && clock <= now
      modifies this
      ensures Valid() && clock == if Enabled() && source != "" then now else old(clock)
      ensures !Enabled() ==> allowed && retry == 0 && entries == old(entries)
      ensures Enabled() && source == "" ==> !allowed && retry == width && entries == old(entries)
      ensures Enabled() && source != "" && source in old(entries) ==>
                var e := old(entries)[source];
                && (allowed <==> Expired(width, e, now) || e.attempts < maxAttempts)
                && entries == old(entries)[source := if allowed then Admitted(width, Some(e), now) else e.(lastSeen := now)]
                && retry == if allowed then 0 else if e.windowStart + width - now < SECOND then SECOND else e.windowStart + width - now
      ensures Enabled() && source != "" && source !in old(entries) ==>
                var room := if |old(entries)| >= maxEntries then Unexpired(width, old(entries), now) else old(entries);
                && (allowed <==> |room| < maxEntries)
                && entries == (if allowed then room[source := Entry(now, 1, now)] else room)
                && retry == if allowed then 0 else width
      ensures Enabled() && allowed ==> passes == old(passes)[source := PassesOf(old(passes), source) + [Pass(now, entries[source].windowStart)]]
      ensures !Enabled() || !allowed ==> passes == old(passes)
    {
      if !Enabled() { return true, 0; }
      if source == "" { return false, width; }
      if source in entries {
        var e := entries[source];
        if !Expired(width, e, now) && e.attempts >= maxAttempts {
          retry := e.windowStart + width - now;
          if retry < SECOND { retry := SECOND; }
          AllRefused(width, maxAttempts, entries, passes, clock, now, source);
          entries, clock := entries[source := e.(lastSeen := now)], now;
          return false, retry;
        }
        Admit(source, now);
        return true, 0;
      }
      if |entries| >= maxEntries {
        AllEvicted(width, maxAttempts, entries, passes, clock, now);
        EvictExpired(now);
      } else {
        AllLater(width, maxAttempts, entries, passes, clock, now);
      }
      clock := now;
      if |entries| >= maxEntries { return false, width; }
      Admit(source, now);
      return true, 0;
    }

    /** Lets the source in: a new window if it has none open, else one more attempt in the one it has. */
    method Admit(source: string, now: int)
      requires Valid() && Enabled() && clock <= now && (source in entries || |entries| < maxEntries)
      requires source in entries && !Expired(width, entries[source], now) ==> entries[source].attempts < maxAttempts
      modifies this
      ensures Valid() && clock == now
      ensures entries == old(entries)[source := Admitted(width, EntryOf(old(entries), source), now)]
      ensures passes == old(passes)[source := PassesOf(old(passes), source) + [Pass(now, entries[source].windowStart)]]
    {
      var e := EntryOf(entries, source);
      var next := if e.Some? && !Expired(width, e.value, now) then Entry(e.value.windowStart, e.value.attempts + 1, now) else Entry(now, 1, now);
      AllLetIn(width, maxAttempts, entries, passes, clock, now, source);
      OneMoreKey(entries, source, next);
      passes := passes[source := PassesOf(passes, source) + [Pass(now, next.windowStart)]];
      entries, clock := entries[source := next], now;
    }
  }

  lemma FewerKeys(fewer: map<string, Entry>, all: map<string, Entry>)
    requires fewer.Keys <= all.Keys
    ensures |fewer| <= |all|
  {
    Subset(fewer.Keys, all.Keys);
  }

  lemma {:induction false} Subset<T>(a: set<T>, b: set<T>)
    requires a <= b
    ensures |a| <= |b|
  {
    if a != {} {
      var x :| x in a;
      Subset(a - {x}, b - {x});
    }
  }

  lemma OneMoreKey(entries: map<string, Entry>, s: string, e: Entry)
    ensures |entries[s := e]| == |entries| + if s in entries then 0 else 1
  {
    assert entries[s := e].Keys == entries.Keys + {s};
  }
}
