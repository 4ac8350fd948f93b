/** The reloadable recovery provider: challenge requests are routed to the provider generation that
    issued them, and only a bounded number of retired generations stays routable. */
module RecoveryRoutes {
  import opened Outcomes

  const MAX_RETIRED: nat := 4

  datatype Route = Route(provider: nat, generation: nat, expires: int)

  type Routes = map<string, Route>

  /** The challenges each provider, named by a number, still holds, with their expiry. */
  type Providers = map<nat, map<string, int>>

  function Challenges(providers: Providers, p: nat): map<string, int> {
    if p in providers then providers[p] else map[]
  }

  /** `Consume` of one provider. */
  function Consumed(providers: Providers, p: nat, id: string): Providers {
    providers[p := Challenges(providers, p) - {id}]
  }

  lemma ConsumedLeaves(providers: Providers, q: nat, id: string, p: nat, other: string)
    ensures other in Challenges(Consumed(providers, q, id), p) <==> other in Challenges(providers, p) && !(p == q && other == id)
  {
  }

  // ----- retired generations -----

  predicate Increasing(order: seq<nat>) {
    forall i, j :: 0 <= i < j < |order| ==> order[i] < order[j]
  }

  function KeepActive(order: seq<nat>, active: set<nat>): (r: seq<nat>)
    ensures forall g :: g in r <==> g in order && g in active
    ensures |r| <= |order|
  {
    if order == [] then [] else
      KeepActive(order[..|order| - 1], active) + (if order[|order| - 1] in active then [order[|order| - 1]] else [])
  }

  lemma {:induction false} KeepActiveIncreases(order: seq<nat>, active: set<nat>)
    requires Increasing(order)
    ensures Increasing(KeepActive(order, active))
  {
    if order != [] {
      var before, last := order[..|order| - 1], order[|order| - 1];
      KeepActiveIncreases(before, active);
      var kept := KeepActive(before, active);
      forall i | 0 <= i < |kept| ensures kept[i] < last {
        assert kept[i] in before;
      }
    }
  }

  function GenerationsOf(routes: Routes): set<nat> {
    set id | id in routes :: routes[id].generation
  }

  function OfGeneration(routes: Routes, g: nat): set<string> {
    set id | id in routes && routes[id].generation == g
  }

  function Elements(order: seq<nat>): (r: set<nat>)
    ensures forall g :: g in r <==> g in order
    ensures |r| <= |order|
  {
    if order == [] then {} else Elements(order[..|order| - 1]) + {order[|order| - 1]}
  }

  lemma SetSize<T>(a: set<T>, b: set<T>)
    requires a <= b
    ensures |a| + |b - a| == |b|
  {
    assert b == a + (b - a);
  }

  /** Each route names the provider that issued its request, which is the one its generation published,
      and its generation is the current or a retired one. */
  predicate RouteOk(r: Route, id: string, generation: nat, order: seq<nat>, owners: map<nat, nat>, issuedBy: map<string, nat>) {
    && id in issuedBy && r.provider == issuedBy[id]
    && r.generation in owners && owners[r.generation] == r.provider
    && (r.generation == generation || r.generation in order)
  }

  predicate RoutesOk(routes: Routes, generation: nat, order: seq<nat>, owners: map<nat, nat>, issuedBy: map<string, nat>) {
    forall id :: id in routes ==> RouteOk(routes[id], id, generation, order, owners, issuedBy)
  }

  predicate OrderOk(order: seq<nat>, generation: nat) {
    Increasing(order) && forall g :: g in order ==> g < generation
  }

  lemma OrderMore(order: seq<nat>, generation: nat)
    requires OrderOk(order, generation)
    ensures OrderOk(order + [generation], generation + 1)
    ensures order != [] ==> OrderOk(order[1..], generation) && order[0] !in order[1..]
  {
    if order != [] {
      forall g | g in order[1..] ensures g in order && order[0] < g {
        var i :| 0 <= i < |order[1..]| && order[1..][i] == g;
        assert order[i + 1] == g;
      }
    }
    var more := order + [generation];
    forall i, j | 0 <= i < j < |more| ensures more[i] < more[j] {
      assert more[i] in order;
    }
  }

  datatype ReplaceResult = ReplaceResult(previous: nat, generation: nat, retained: nat, retired: nat)

  class ReloadableProvider {
    var current: nat
    var generation: nat
    var routes: Routes
    var retiredOrder: seq<nat>
    var providers: Providers
    ghost var owners: map<nat, nat>          // which provider each generation published
    ghost var issuedBy: map<string, nat>     // which provider issued each routed request

    ghost predicate Routed()
      reads this
    {
      && generation in owners && owners[generation] == current
      && RoutesOk(routes, generation, retiredOrder, owners, issuedBy)
      && OrderOk(retiredOrder, generation)
    }

    ghost predicate Valid()
      reads this
    {
      Routed() && |retiredOrder| <= MAX_RETIRED
    }

    constructor (first: nat, held: map<string, int>, now: int)
      ensures Valid() && current == first && generation == 1 && retiredOrder == []
      ensures routes == map id | id in held && now < held[id] :: Route(first, 1, held[id])
    {
      current, generation, retiredOrder := first, 1, [];
      var live := map id | id in held && now < held[id] :: held[id];
      routes := map id | id in live :: Route(first, 1, live[id]);
      providers := map[first := live];
      owners, issuedBy := map[1 := first], map id | id in live :: first;
    }

    /** Drop some routes: each drops its challenge with the provider that issued it. */
    method DropRoutes(ids: set<string>) returns (dropped: nat)
      requires ids <= routes.Keys
      modifies this`routes, this`providers
      ensures routes == old(routes) - ids && dropped == |ids|
      ensures forall p, id :: id in Challenges(providers, p) <==>
                id in Challenges(old(providers), p) && !(id in ids && old(routes)[id].provider == p)
    {
      dropped := 0;
      var todo := ids;
      while todo != {}
        invariant todo <= ids && routes == old(routes) - (ids - todo) && dropped + |todo| == |ids|
        invariant forall p, id :: id in Challenges(providers, p) <==>
                    id in Challenges(old(providers), p) && !(id in ids && id !in todo && old(routes)[id].provider == p)
      {
        var id :| id in todo;
        ghost var before, owner := providers, routes[id].provider;
        providers := Consumed(providers, routes[id].provider, id);
        forall p, other ensures other in Challenges(providers, p) <==> other in Challenges(before, p) && !(p == owner && other == id) {
          ConsumedLeaves(before, owner, id, p, other);
        }
        routes := routes - {id};
        todo, dropped := todo - {id}, dropped + 1;
      }
    }

    /** `compactRetiredOrderLocked`: the filter over the slice it overwrites. */
    method CompactRetiredOrder()
      requires Routed()
      modifies this`retiredOrder
      ensures Routed() && retiredOrder == KeepActive(old(retiredOrder), GenerationsOf(routes))
    {
      var active := set id | id in routes :: routes[id].generation;
      var kept: seq<nat> := [];
      var seen: set<nat> := {};
      for i := 0 to |retiredOrder|
        invariant kept == KeepActive(retiredOrder[..i], active)
        invariant forall g :: g in seen ==> g in retiredOrder[..i]
      {
        assert retiredOrder[..i + 1][..i] == retiredOrder[..i];
        var g := retiredOrder[i];
        if g in active && g !in seen {
          kept, seen := kept + [g], seen + {g};
        }
      }
      assert retiredOrder[..|retiredOrder|] == retiredOrder;
      KeepActiveIncreases(retiredOrder, active);
      retiredOrder := kept;
    }

    /** `pruneExpiredRoutesLocked`. */
    method PruneExpired(now: int) returns (dropped: nat)
      requires Routed()
      modifies this`routes, this`providers, this`retiredOrder
      ensures Routed() && retiredOrder == KeepActive(old(retiredOrder), GenerationsOf(routes))
      ensures routes == map id | id in old(routes) && now < old(routes)[id].expires :: old(routes)[id]
      ensures |routes| + dropped == |old(routes)|
    {
      var expired := set id | id in routes && now >= routes[id].expires;
      ghost var before := routes;
      dropped := DropRoutes(expired);
      DroppedSize(before, expired);
      CompactRetiredOrder();
    }

    /** `Begin`: the current provider issued `id`, or refused. A request id that is routed already is given
        back to the provider at once. */
    method Begin(issued: Option<(string, int)>, now: int) returns (ok: bool)
      requires Valid()
      modifies this`routes, this`providers, this`retiredOrder, this`issuedBy
      ensures Valid() && current == old(current) && generation == old(generation)
      ensures ok <==> issued.Some? && (issued.value.0 in old(routes) ==> now >= old(routes)[issued.value.0].expires)
      ensures ok ==> issued.value.0 in routes && routes[issued.value.0] == Route(current, generation, issued.value.1)
      ensures forall id :: id in routes && !(ok && id == issued.value.0) ==> id in old(routes) && routes[id] == old(routes)[id]
    {
      if issued == None { return false; }
      var (id, expires) := issued.value;
      providers := providers[current := Challenges(providers, current)[id := expires]];
      var dropped := PruneExpired(now);
      if id in routes {
        providers := Consumed(providers, current, id);
        return false;
      }
      routes := routes[id := Route(current, generation, expires)];
      issuedBy := issuedBy[id := current];
      return true;
    }

    /** Which provider `Verify` asks: the one that issued the request, or for an unknown request the
        current one, whose dummy verifier then answers. */
    function Asked(id: string): nat
      reads this
    {
      if id in routes then routes[id].provider else current
    }

    /** `Verify`: `answer` is what the provider that is asked says of the proof, `now` the clock behind it. If the
        attempt cannot be made durable nothing is granted, the provider may lose its challenge, and no route goes;
        else an expired route goes behind the answer. */
    method Verify(id: string, answer: bool, persisted: bool, now: int) returns (granted: bool, asked: nat)
      requires Valid()
      modifies this`routes, this`providers
      ensures Valid() && asked == old(Asked(id)) && (id in old(routes) ==> asked == issuedBy[id])
      ensures granted <==> answer && persisted
      ensures routes == if persisted && id in old(routes) && now >= old(routes)[id].expires then old(routes) - {id} else old(routes)
      ensures forall p, other :: other in Challenges(old(providers), p) && !(p == asked && other == id) ==> other in Challenges(providers, p)
    {
      asked := Asked(id);
      if !persisted {
        var deleted: bool := *;
        if deleted {
          ghost var before := providers;
          providers := Consumed(providers, asked, id);
          forall p, other | other in Challenges(before, p) && !(p == asked && other == id) ensures other in Challenges(providers, p) {
            ConsumedLeaves(before, asked, id, p, other);
          }
        }
        return false, asked;
      }
      if id in routes && now >= routes[id].expires {
        var dropped := DropRoutes({id});
      }
      granted := answer;
    }

    method Consume(id: string)
      requires Valid()
      modifies this`routes, this`providers
      ensures Valid() && routes == old(routes) - {id} && id !in Challenges(providers, old(Asked(id)))
    {
      if id in routes {
        var dropped := DropRoutes({id});
      } else {
        providers := Consumed(providers, current, id);
      }
    }

    /** `Replace`. Challenges of the generation just replaced stay; the oldest generations make room. */
    method Replace(next: nat, now: int) returns (r: ReplaceResult)
      requires Valid()
      modifies this`current, this`generation, this`routes, this`providers, this`retiredOrder, this`owners
      ensures Valid() && current == next && generation == old(generation) + 1
      ensures r.previous == old(generation) && r.generation == generation
      ensures r.retained == |OfGeneration(routes, old(generation))| && |routes| + r.retired == |old(routes)|
      ensures forall id :: id in routes ==> id in old(routes) && routes[id] == old(routes)[id] && now < routes[id].expires
      ensures forall id :: id in old(routes) && now < old(routes)[id].expires && old(routes)[id].generation == old(generation) ==> id in routes
      ensures forall g :: g in retiredOrder ==> g in GenerationsOf(routes)
    {
      var previous := generation;
      var retired := PruneExpired(now);
      var retained := |OfGeneration(routes, previous)|;
      Publish(next, retained > 0);
      var more := RetireOldest();
      return ReplaceResult(previous, generation, retained, retired + more);
    }

    /** The cutover: the old generation is remembered if it still has challenges. */
    method Publish(next: nat, remember: bool)
      requires Valid() && (remember <==> OfGeneration(routes, generation) != {})
      modifies this`current, this`generation, this`retiredOrder, this`owners
      ensures Routed() && current == next && generation == old(generation) + 1
      ensures |retiredOrder| <= MAX_RETIRED + 1 && (|retiredOrder| > MAX_RETIRED ==> retiredOrder[0] != old(generation))
      ensures forall g :: g in retiredOrder ==> g in GenerationsOf(routes)
    {
      OrderMore(retiredOrder, generation);
      if remember { retiredOrder := retiredOrder + [generation]; }
      current, generation := next, generation + 1;
      owners := owners[generation := next];
      forall id | id in routes ensures RouteOk(routes[id], id, generation, retiredOrder, owners, issuedBy) {
        assert remember || id !in OfGeneration(routes, old(generation));
      }
      ghost var order := retiredOrder;
      CompactRetiredOrder();
      if |retiredOrder| > MAX_RETIRED {
        assert retiredOrder[0] < retiredOrder[|retiredOrder| - 1];
        assert retiredOrder[|retiredOrder| - 1] in order;
      }
    }

    /** The last loop of `Replace`. */
    method RetireOldest() returns (dropped: nat)
      requires Routed() && |retiredOrder| <= MAX_RETIRED + 1
      requires forall g :: g in retiredOrder ==> g in GenerationsOf(routes)
      modifies this`routes, this`providers, this`retiredOrder
      ensures Valid() && |routes| + dropped == |old(routes)|
      ensures forall id :: id in routes ==> id in old(routes) && routes[id] == old(routes)[id]
      ensures forall id :: id in old(routes) && id !in routes ==>
                |old(retiredOrder)| > MAX_RETIRED && old(routes)[id].generation == old(retiredOrder)[0]
      ensures forall g :: (|old(retiredOrder)| > MAX_RETIRED ==> g != old(retiredOrder)[0]) ==> OfGeneration(routes, g) == OfGeneration(old(routes), g)
      ensures forall g :: g in retiredOrder ==> g in GenerationsOf(routes)
    {
      dropped := 0;
      if |retiredOrder| > MAX_RETIRED {
        var oldest := retiredOrder[0];
        OrderMore(retiredOrder, generation);
        retiredOrder := retiredOrder[1..];
        ghost var before := routes;
        DroppedSize(before, OfGeneration(before, oldest));
        dropped := DropRoutes(OfGeneration(routes, oldest));
        forall g | g in retiredOrder ensures g in GenerationsOf(routes) {
          assert g in GenerationsOf(before) && g != oldest;
          var id :| id in before && before[id].generation == g;
          assert id in routes;
        }
      }
    }

    /** Over every run: each live route names the provider that issued it, and at most five generations
        are routable at all. */
    lemma FewAreRoutable(id: string)
      requires Valid()
      ensures id in routes ==> id in issuedBy && routes[id].provider == issuedBy[id]
      ensures |GenerationsOf(routes)| <= MAX_RETIRED + 1
    {
      var all := Elements(retiredOrder + [generation]);
      assert GenerationsOf(routes) <= all;
      SetSize(GenerationsOf(routes), all);
    }
  }

  lemma DroppedSize(routes: Routes, ids: set<string>)
    requires ids <= routes.Keys
    ensures |routes - ids| + |ids| == |routes|
  {
    assert (routes - ids).Keys == routes.Keys - ids;
    SetSize(ids, routes.Keys);
  }
}
