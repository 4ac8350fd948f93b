/** The controller `revocationctl`: its plan, the two-phase publication of revocation files and
    distribution manifests, and the observation of acknowledgements. */
module RevocationRollout {
  import opened Outcomes
  import opened RevocationInstance

  // ----- files -----

  /** What a file holds, as far as the strict decoders accept it. */
  datatype Content = RevocationText(revocation: Revocation) | DistributionText(lease: Lease) | AckText(ack: Ack) | Garbage

  type Files = map<string, Content>

  function LoadRevocation(files: Files, path: string): Option<Revocation> {
    if path in files && files[path].RevocationText? then Some(files[path].revocation) else None
  }

  /** `loadDistributionIfExists`: a missing file is no error. */
  function LoadDistribution(files: Files, path: string): Result<Option<Lease>, string> {
    if path !in files then Ok(None)
    else if files[path].DistributionText? && files[path].lease.epoch > 0 then Ok(Some(files[path].lease))
    else Err("distribution")
  }

  function LoadAck(files: Files, path: string): Result<Option<Ack>, string> {
    if path !in files then Ok(None)
    else if files[path].AckText? && files[path].ack.epoch > 0 then Ok(Some(files[path].ack))
    else Err("ack")
  }

  // ----- the plan -----

  datatype Member = Member(id: string, revocation: string, distribution: string, ack: string)
  datatype Plan = Plan(path: string, source: string, epoch: nat, validUntil: int, ackTimeout: int, pollInterval: int, members: seq<Member>)

  const MAX_INSTANCES: nat := 64
  const MAX_INSTANCE_ID: nat := 64

  predicate ValidInstanceId(id: string) {
    && 0 < |id| <= MAX_INSTANCE_ID
    && forall i :: 0 <= i < |id| ==> 'a' <= id[i] <= 'z' || 'A' <= id[i] <= 'Z' || '0' <= id[i] <= '9' || id[i] in {'-', '_', '.'}
  }

  predicate MemberAccepted(p: Plan, m: Member) {
    && ValidInstanceId(m.id)
    && m.revocation != m.distribution && m.revocation != m.ack && m.distribution != m.ack
    && m.ack != p.path && m.ack != p.source && m.distribution != p.path && m.distribution != p.source && m.revocation != p.path
  }

  /** Two members may share both targets or neither, and never an id or an acknowledgement. */
  predicate PairAccepted(m: Member, n: Member) {
    && m.id != n.id && m.ack != n.ack
    && (m.revocation == n.revocation <==> m.distribution == n.distribution)
  }

  predicate AckIsNoTarget(m: Member, n: Member) {
    m.ack != n.revocation && m.ack != n.distribution
  }

  /** The first `k` members, taken together. */
  ghost predicate MembersAccepted(p: Plan, k: nat)
    requires k <= |p.members|
  {
    && (forall i {:trigger MemberAccepted(p, p.members[i])} :: 0 <= i < k ==> MemberAccepted(p, p.members[i]))
    && (forall i, j {:trigger PairAccepted(p.members[i], p.members[j])} :: 0 <= i < j < k ==> PairAccepted(p.members[i], p.members[j]))
  }

  ghost predicate Accepted(p: Plan) {
    && 0 < |p.members| <= MAX_INSTANCES
    && MembersAccepted(p, |p.members|)
    && forall i, j {:trigger AckIsNoTarget(p.members[i], p.members[j])} ::
         0 <= i < |p.members| && 0 <= j < |p.members| ==> AckIsNoTarget(p.members[i], p.members[j])
  }

  datatype Field = Id | AckFile | Rev | Dist

  function Get(m: Member, f: Field): string {
    match f case Id => m.id case AckFile => m.ack case Rev => m.revocation case Dist => m.distribution
  }

  /** A map of the member loop: which of the first `k` members last used a value of this field. */
  ghost predicate Index(used: map<string, nat>, members: seq<Member>, k: nat, f: Field)
    requires k <= |members|
  {
    && (forall i {:trigger Get(members[i], f)} :: 0 <= i < k ==> Get(members[i], f) in used)
    && (forall x {:trigger used[x]} :: x in used ==> used[x] < k && Get(members[used[x]], f) == x)
  }

  lemma IndexMore(used: map<string, nat>, members: seq<Member>, k: nat, f: Field)
    requires k < |members| && Index(used, members, k, f)
    ensures Index(used[Get(members[k], f) := k], members, k + 1, f)
  {
  }

  datatype Seen = Seen(ids: map<string, nat>, acks: map<string, nat>, revs: map<string, nat>, dists: map<string, nat>)

  ghost predicate Covers(seen: Seen, members: seq<Member>, k: nat)
    requires k <= |members|
  {
    Index(seen.ids, members, k, Id) && Index(seen.acks, members, k, AckFile) && Index(seen.revs, members, k, Rev) && Index(seen.dists, members, k, Dist)
  }

  /** The checks of one turn of the loop. */
  predicate Fits(p: Plan, seen: Seen, m: Member)
    requires forall x :: x in seen.revs ==> seen.revs[x] < |p.members|
    requires forall x :: x in seen.dists ==> seen.dists[x] < |p.members|
  {
    && MemberAccepted(p, m) && m.id !in seen.ids && m.ack !in seen.acks
    && (m.revocation in seen.revs ==> p.members[seen.revs[m.revocation]].distribution == m.distribution)
    && (m.distribution in seen.dists ==> p.members[seen.dists[m.distribution]].revocation == m.revocation)
  }

  function Add(seen: Seen, m: Member, k: nat): Seen {
    Seen(seen.ids[m.id := k], seen.acks[m.ack := k], seen.revs[m.revocation := k], seen.dists[m.distribution := k])
  }

  lemma FittingIsAccepted(p: Plan, seen: Seen, k: nat)
    requires k < |p.members| && Covers(seen, p.members, k) && MembersAccepted(p, k) && Fits(p, seen, p.members[k])
    ensures MembersAccepted(p, k + 1) && Covers(Add(seen, p.members[k], k), p.members, k + 1)
  {
    var m := p.members[k];
    forall i | 0 <= i < k ensures PairAccepted(p.members[i], m) {
      var n := p.members[i];
      assert Get(p.members[i], Id) in seen.ids && Get(p.members[i], AckFile) in seen.acks;
      assert Get(p.members[i], Rev) in seen.revs && Get(p.members[i], Dist) in seen.dists;
      if n.revocation == m.revocation {
        var j := seen.revs[m.revocation];
        assert i < j ==> PairAccepted(n, p.members[j]);
        assert j < i ==> PairAccepted(p.members[j], n);
      }
      if n.distribution == m.distribution {
        var j := seen.dists[m.distribution];
        assert i < j ==> PairAccepted(n, p.members[j]);
        assert j < i ==> PairAccepted(p.members[j], n);
      }
    }
    assert MemberAccepted(p, p.members[k]);
    IndexMore(seen.ids, p.members, k, Id);
    IndexMore(seen.acks, p.members, k, AckFile);
    IndexMore(seen.revs, p.members, k, Rev);
    IndexMore(seen.dists, p.members, k, Dist);
  }

  lemma AcceptedFits(p: Plan, seen: Seen, k: nat)
    requires k < |p.members| && Covers(seen, p.members, k) && MembersAccepted(p, k + 1)
    ensures Fits(p, seen, p.members[k])
  {
    var m := p.members[k];
    assert MemberAccepted(p, p.members[k]);
    forall i | 0 <= i < k ensures PairAccepted(p.members[i], m) {
      assert PairAccepted(p.members[i], p.members[k]);
    }
  }

  /** The member loop of `loadRolloutPlan` with its maps, and the overlap check behind it. Paths are
      resolved already; the members keep their order. */
  method LoadPlan(p: Plan) returns (accepted: bool)
    ensures accepted <==> Accepted(p)
  {
    if |p.members| == 0 || |p.members| > MAX_INSTANCES { return false; }
    var seen := Seen(map[], map[], map[], map[]);
    for k := 0 to |p.members|
      invariant MembersAccepted(p, k) && Covers(seen, p.members, k)
    {
      if !Fits(p, seen, p.members[k]) {
        if MembersAccepted(p, k + 1) { AcceptedFits(p, seen, k); }
        return false;
      }
      FittingIsAccepted(p, seen, k);
      seen := Add(seen, p.members[k], k);
    }
    accepted := CheckAcks(p.members);
  }

  method CheckAcks(members: seq<Member>) returns (ok: bool)
    ensures ok <==> forall i, j :: 0 <= i < |members| && 0 <= j < |members| ==> AckIsNoTarget(members[i], members[j])
  {
    for i := 0 to |members|
      invariant forall m, j :: 0 <= m < i && 0 <= j < |members| ==> AckIsNoTarget(members[m], members[j])
    {
      for j := 0 to |members|
        invariant forall n :: 0 <= n < j ==> AckIsNoTarget(members[i], members[n])
      {
        if !AckIsNoTarget(members[i], members[j]) { return false; }
      }
    }
    return true;
  }

  /** The plan does not keep one member's distribution manifest off another member's revocation file. */
  predicate Uncrossed(members: seq<Member>) {
    forall m, n :: m in members && n in members ==> m.distribution != n.revocation
  }

  /** A plan is accepted although its targets cross. */
  lemma CrossedPlanIsAccepted()
    ensures exists p: Plan :: Accepted(p) && !Uncrossed(p.members)
  {
    var a, b := Member("a", "r", "x", "p"), Member("b", "x", "d", "q");
    var p := Plan("plan", "source", 1, 0, 0, 0, [a, b]);
    assert ValidInstanceId("a") && ValidInstanceId("b");
    assert MembersAccepted(p, 2) by {
      forall i | 0 <= i < 2 ensures MemberAccepted(p, p.members[i]) { assert i == 0 || i == 1; }
      assert p.members[0] == a && p.members[1] == b;
    }
    forall i, j | 0 <= i < 2 && 0 <= j < 2 ensures AckIsNoTarget(p.members[i], p.members[j]) {
      assert (i == 0 || i == 1) && (j == 0 || j == 1);
    }
    assert Accepted(p);
    assert a in p.members && b in p.members && a.distribution == b.revocation;
    assert !Uncrossed(p.members);
  }

  // ----- publication -----

  type Pair = (string, string)

  function TargetLease(plan: Plan, candidate: Revocation): Lease {
    Lease(plan.epoch, Of(candidate.revoked), plan.validUntil)
  }

  /** No target is ahead of the plan, or at its epoch with something else. */
  predicate Clear(files: Files, plan: Plan, candidate: Revocation, m: Member) {
    match LoadDistribution(files, m.distribution)
    case Err(_) => false
    case Ok(None) => true
    case Ok(Some(l)) => l.epoch < plan.epoch || l == TargetLease(plan, candidate)
  }

  function PairOf(m: Member): Pair {
    (m.revocation, m.distribution)
  }

  /** The instances among the first `k` members that use one pair of target files. */
  function InstancesOf(members: seq<Member>, k: nat, pair: Pair): seq<string>
    requires k <= |members|
  {
    if k == 0 then [] else
      InstancesOf(members, k - 1, pair) + (if PairOf(members[k - 1]) == pair then [members[k - 1].id] else [])
  }

  /** The pairs of the first `k` members. */
  ghost function PairsAmong(members: seq<Member>, k: nat): set<Pair>
    requires k <= |members|
  {
    if k == 0 then {} else PairsAmong(members, k - 1) + {PairOf(members[k - 1])}
  }

  ghost predicate CollectedFor(out: map<Pair, seq<string>>, members: seq<Member>, k: nat, pair: Pair)
    requires k <= |members|
  {
    InstancesOf(members, k, pair) == if pair in out then out[pair] else []
  }

  ghost predicate Collected(out: map<Pair, seq<string>>, members: seq<Member>, k: nat)
    requires k <= |members|
  {
    out.Keys == PairsAmong(members, k) && forall pair {:trigger CollectedFor(out, members, k, pair)} :: CollectedFor(out, members, k, pair)
  }

  lemma OneMoreCollected(out: map<Pair, seq<string>>, members: seq<Member>, k: nat)
    requires k < |members| && Collected(out, members, k)
    ensures var pair := PairOf(members[k]);
            Collected(out[pair := (if pair in out then out[pair] else []) + [members[k].id]], members, k + 1)
  {
    var grown := PairOf(members[k]);
    var more := out[grown := (if grown in out then out[grown] else []) + [members[k].id]];
    var next := k + 1;
    forall pair ensures CollectedFor(more, members, next, pair) {
      assert CollectedFor(out, members, k, pair);
    }
  }

  lemma {:induction false} PairsAreOfMembers(members: seq<Member>, k: nat)
    requires k <= |members|
    ensures PairsAmong(members, k) == set m | m in members[..k] :: PairOf(m)
  {
    if k > 0 {
      PairsAreOfMembers(members, k - 1);
      assert members[..k] == members[..k - 1] + [members[k - 1]];
    }
  }

  /** `preflightTargets`, without the checks of directories and file kinds. */
  method Preflight(files: Files, plan: Plan, candidate: Revocation) returns (pairs: Option<map<Pair, seq<string>>>)
    ensures pairs.Some? <==> forall m :: m in plan.members ==> Clear(files, plan, candidate, m)
    ensures pairs.Some? ==> pairs.value.Keys == set m | m in plan.members :: PairOf(m)
    ensures pairs.Some? ==> forall pair :: pair in pairs.value ==> pairs.value[pair] == InstancesOf(plan.members, |plan.members|, pair)
  {
    var out: map<Pair, seq<string>> := map[];
    for k := 0 to |plan.members|
      invariant forall i :: 0 <= i < k ==> Clear(files, plan, candidate, plan.members[i])
      invariant Collected(out, plan.members, k)
    {
      var m := plan.members[k];
      if !Clear(files, plan, candidate, m) { return None; }
      var earlier := if PairOf(m) in out then out[PairOf(m)] else [];
      OneMoreCollected(out, plan.members, k);
      out := out[PairOf(m) := earlier + [m.id]];
    }
    forall pair | pair in out ensures out[pair] == InstancesOf(plan.members, |plan.members|, pair) {
      assert CollectedFor(out, plan.members, |plan.members|, pair);
    }
    PairsAreOfMembers(plan.members, |plan.members|);
    assert plan.members[..|plan.members|] == plan.members;
    return Some(out);
  }

  /** The files below the controller. `history` are all the states they went through. */
  class FileTree {
    var files: Files
    ghost var history: seq<Files>

    constructor (files: Files)
      ensures this.files == files && history == [files]
    {
      this.files, history := files, [files];
    }

    /** `writeAtomicFile`: one rename. It may fail before it, or behind it when a directory sync fails. */
    method Write(path: string, content: Content) returns (ok: bool)
      modifies this
      ensures ok ==> files == old(files)[path := content]
      ensures files == old(files) || files == old(files)[path := content]
      ensures history == old(history) + (if files == old(files) then [] else [files])
    {
      var fails: bool := *;
      if fails { return false; }
      if path !in files || files[path] != content {
        files := files[path := content];
        history := history + [files];
      } else {
        assert files[path := content] == files;
      }
      ok := *;
    }
  }

  function Overwrite(files: Files, paths: set<string>, content: Content): Files {
    files + map path | path in paths :: content
  }

  function Revocations(pairs: set<Pair>): set<string> {
    set p | p in pairs :: p.0
  }

  function Distributions(pairs: set<Pair>): set<string> {
    set p | p in pairs :: p.1
  }

  /** The files with the revocation staged for some pairs and the distribution published for some. */
  function Cut(files: Files, plan: Plan, candidate: Revocation, staged: set<Pair>, published: set<Pair>): Files {
    Overwrite(Overwrite(files, Revocations(staged), RevocationText(candidate)),
              Distributions(published), DistributionText(TargetLease(plan, candidate)))
  }

  function Pairs(plan: Plan): set<Pair> {
    set m | m in plan.members :: PairOf(m)
  }

  /** Nothing is published before everything is staged. */
  predicate TwoPhase(plan: Plan, staged: set<Pair>, published: set<Pair>) {
    staged <= Pairs(plan) && published <= Pairs(plan) && (published != {} ==> staged == Pairs(plan))
  }

  ghost predicate IsCut(files: Files, plan: Plan, candidate: Revocation, now: Files) {
    exists staged, published :: TwoPhase(plan, staged, published) && now == Cut(files, plan, candidate, staged, published)
  }

  datatype PublishResult = PublishRejected | Partial(failed: seq<string>) | AllPublished

  lemma OverwriteMore(files: Files, paths: set<string>, path: string, content: Content)
    ensures Overwrite(files, paths, content)[path := content] == Overwrite(files, paths + {path}, content)
    ensures Overwrite(files, {}, content) == files
  {
  }

  lemma NothingCut(files: Files, plan: Plan, candidate: Revocation)
    ensures Cut(files, plan, candidate, {}, {}) == files
  {
  }

  lemma CutStages(files: Files, plan: Plan, candidate: Revocation, staged: set<Pair>, pair: Pair)
    ensures Cut(files, plan, candidate, staged, {})[pair.0 := RevocationText(candidate)] == Cut(files, plan, candidate, staged + {pair}, {})
  {
    var lease := DistributionText(TargetLease(plan, candidate));
    assert Revocations(staged + {pair}) == Revocations(staged) + {pair.0} && Distributions({}) == {};
    OverwriteMore(files, Revocations(staged), pair.0, RevocationText(candidate));
    OverwriteMore(Overwrite(files, Revocations(staged), RevocationText(candidate)), {}, "", lease);
    OverwriteMore(Overwrite(files, Revocations(staged + {pair}), RevocationText(candidate)), {}, "", lease);
  }

  lemma CutPublishes(files: Files, plan: Plan, candidate: Revocation, staged: set<Pair>, published: set<Pair>, pair: Pair)
    ensures Cut(files, plan, candidate, staged, published)[pair.1 := DistributionText(TargetLease(plan, candidate))]
            == Cut(files, plan, candidate, staged, published + {pair})
  {
    assert Distributions(published + {pair}) == Distributions(published) + {pair.1};
    OverwriteMore(Overwrite(files, Revocations(staged), RevocationText(candidate)), Distributions(published), pair.1,
                  DistributionText(TargetLease(plan, candidate)));
  }

  /** Every state since the first `start` is a cut of `files`. */
  ghost predicate OnlyCuts(history: seq<Files>, start: nat, files: Files, plan: Plan, candidate: Revocation) {
    start <= |history| && forall k :: start <= k < |history| ==> IsCut(files, plan, candidate, history[k])
  }

  /** One write of either phase. */
  method WriteTarget(path: string, content: Content, tree: FileTree, ghost files: Files, ghost start: nat, plan: Plan, candidate: Revocation)
    returns (ok: bool)
    requires OnlyCuts(tree.history, start, files, plan, candidate) && IsCut(files, plan, candidate, tree.files[path := content])
    modifies tree
    ensures OnlyCuts(tree.history, start, files, plan, candidate) && old(tree.history) <= tree.history
    ensures ok ==> tree.files == old(tree.files)[path := content]
  {
    ok := tree.Write(path, content);
  }

  /** `publishRollout`. The files only ever go through cuts; the pairs are taken in some order. */
  method PublishRollout(plan: Plan, candidate: Revocation, now: int, tree: FileTree) returns (r: PublishResult)
    modifies tree
    ensures r != PublishRejected <==>
              && now < plan.validUntil <= now + MAX_LEASE && now + plan.ackTimeout <= plan.validUntil
              && (forall m :: m in plan.members ==> Clear(old(tree.files), plan, candidate, m))
    ensures r == PublishRejected ==> tree.files == old(tree.files) && tree.history == old(tree.history)
    ensures r == AllPublished ==> tree.files == Cut(old(tree.files), plan, candidate, Pairs(plan), Pairs(plan))
    ensures OnlyCuts(tree.history, old(|tree.history|), old(tree.files), plan, candidate)
  {
    if !(now < plan.validUntil <= now + MAX_LEASE && now + plan.ackTimeout <= plan.validUntil) { return PublishRejected; }
    var preflight := Preflight(tree.files, plan, candidate);
    if preflight == None { return PublishRejected; }
    var pairs := preflight.value;
    var failed := Stage(plan, candidate, pairs.Keys, tree, |tree.history|);
    if failed.Some? { return Partial(pairs[failed.value]); }
    failed := PublishAll(plan, candidate, pairs.Keys, tree, old(tree.files), old(|tree.history|));
    if failed.Some? { return Partial(pairs[failed.value]); }
    return AllPublished;
  }

  method Stage(plan: Plan, candidate: Revocation, pairs: set<Pair>, tree: FileTree, ghost start: nat) returns (failed: Option<Pair>)
    requires pairs == Pairs(plan) && start == |tree.history|
    modifies tree
    ensures failed == None ==> tree.files == Cut(old(tree.files), plan, candidate, pairs, {})
    ensures failed.Some? ==> failed.value in pairs
    ensures OnlyCuts(tree.history, start, old(tree.files), plan, candidate)
  {
    var todo := pairs;
    ghost var staged: set<Pair> := {};
    NothingCut(tree.files, plan, candidate);
    while todo != {}
      invariant todo == pairs - staged && staged <= pairs
      invariant tree.files == Cut(old(tree.files), plan, candidate, staged, {})
      invariant OnlyCuts(tree.history, start, old(tree.files), plan, candidate)
    {
      var pair :| pair in todo;
      CutStages(old(tree.files), plan, candidate, staged, pair);
      staged := staged + {pair};
      assert TwoPhase(plan, staged, {});
      var ok := WriteTarget(pair.0, RevocationText(candidate), tree, old(tree.files), start, plan, candidate);
      if !ok { return Some(pair); }
      todo := todo - {pair};
    }
    assert staged == pairs;
    return None;
  }

  method PublishAll(plan: Plan, candidate: Revocation, pairs: set<Pair>, tree: FileTree, ghost files: Files, ghost start: nat)
    returns (failed: Option<Pair>)
    requires pairs == Pairs(plan) && tree.files == Cut(files, plan, candidate, pairs, {})
    requires OnlyCuts(tree.history, start, files, plan, candidate)
    modifies tree
    ensures failed == None ==> tree.files == Cut(files, plan, candidate, pairs, pairs)
    ensures failed.Some? ==> failed.value in pairs
    ensures OnlyCuts(tree.history, start, files, plan, candidate)
  {
    var todo := pairs;
    ghost var published: set<Pair> := {};
    while todo != {}
      invariant todo == pairs - published && published <= pairs
      invariant tree.files == Cut(files, plan, candidate, pairs, published)
      invariant OnlyCuts(tree.history, start, files, plan, candidate)
    {
      var pair :| pair in todo;
      CutPublishes(files, plan, candidate, pairs, published, pair);
      published := published + {pair};
      assert TwoPhase(plan, pairs, published);
      var ok := WriteTarget(pair.1, DistributionText(TargetLease(plan, candidate)), tree, files, start, plan, candidate);
      if !ok { return Some(pair); }
      todo := todo - {pair};
    }
    assert published == pairs;
    return None;
  }

  // ----- what an instance finds at a cut -----

  /** At every cut a member's files hold what they held before or exactly the target, the manifest
      never before the set it names. */
  lemma CutHolds(files: Files, plan: Plan, candidate: Revocation, staged: set<Pair>, published: set<Pair>, m: Member)
    requires Accepted(plan) && Uncrossed(plan.members) && m in plan.members && TwoPhase(plan, staged, published)
    ensures var cut := Cut(files, plan, candidate, staged, published);
            && LoadRevocation(cut, m.revocation) == (if PairOf(m) in staged then Some(candidate) else LoadRevocation(files, m.revocation))
            && (PairOf(m) in published ==> PairOf(m) in staged)
            && (PairOf(m) in published && plan.epoch > 0 ==> LoadDistribution(cut, m.distribution) == Ok(Some(TargetLease(plan, candidate))))
            && (PairOf(m) !in published ==> LoadDistribution(cut, m.distribution) == LoadDistribution(files, m.distribution))
  {
    TargetsApart(plan, m);
    StagedExactlyWhen(plan, staged, m);
    PublishedExactlyWhen(plan, published, m);
    assert Revocations(staged) <= Revocations(Pairs(plan)) && Distributions(published) <= Distributions(Pairs(plan));
    CutAt(files, plan, candidate, staged, published, m.revocation);
    CutAt(files, plan, candidate, staged, published, m.distribution);
  }

  /** What a cut has at one path. */
  lemma CutAt(files: Files, plan: Plan, candidate: Revocation, staged: set<Pair>, published: set<Pair>, path: string)
    ensures var cut := Cut(files, plan, candidate, staged, published);
            if path in Distributions(published) then path in cut && cut[path] == DistributionText(TargetLease(plan, candidate))
            else if path in Revocations(staged) then path in cut && cut[path] == RevocationText(candidate)
            else (path in cut <==> path in files) && (path in cut ==> cut[path] == files[path])
  {
  }

  lemma StagedExactlyWhen(plan: Plan, staged: set<Pair>, m: Member)
    requires Accepted(plan) && m in plan.members && staged <= Pairs(plan)
    ensures m.revocation in Revocations(staged) <==> PairOf(m) in staged
  {
    forall p | p in staged && p.0 == m.revocation ensures p == PairOf(m) { SharedTarget(plan, m, p); }
    assert PairOf(m).0 == m.revocation;
  }

  lemma PublishedExactlyWhen(plan: Plan, published: set<Pair>, m: Member)
    requires Accepted(plan) && m in plan.members && published <= Pairs(plan)
    ensures m.distribution in Distributions(published) <==> PairOf(m) in published
  {
    forall p | p in published && p.1 == m.distribution ensures p == PairOf(m) { SharedTarget(plan, m, p); }
    assert PairOf(m).1 == m.distribution;
  }

  lemma TargetsApart(plan: Plan, m: Member)
    requires Uncrossed(plan.members) && m in plan.members
    ensures PairOf(m) in Pairs(plan) && m.distribution !in Revocations(Pairs(plan)) && m.revocation !in Distributions(Pairs(plan))
  {
  }

  lemma SharedTarget(plan: Plan, m: Member, p: Pair)
    requires Accepted(plan) && m in plan.members && p in Pairs(plan) && (p.0 == m.revocation || p.1 == m.distribution)
    ensures p == PairOf(m)
  {
    var n :| n in plan.members && PairOf(n) == p;
    var i :| 0 <= i < |plan.members| && plan.members[i] == m;
    var j :| 0 <= j < |plan.members| && plan.members[j] == n;
    assert i < j ==> PairAccepted(plan.members[i], plan.members[j]);
    assert j < i ==> PairAccepted(plan.members[j], plan.members[i]);
  }

  function Manifest(files: Files, path: string): Option<Lease> {
    match LoadDistribution(files, path)
    case Ok(l) => l
    case Err(_) => None
  }

  /** Staged publication is safe at every cut. Whatever the plan, the files before and the set an instance has
      read: its reload is refused, or moves to the target with exactly the target's set, or to what its manifest
      named before the rollout with exactly that set. If its manifest was missing or named its own lease, then it
      keeps that lease or moves to the target. */
  lemma NeverAMixture(files: Files, plan: Plan, candidate: Revocation, cut: Files, path: string, current: Lease, read: Revocation, now: int)
    requires IsCut(files, plan, candidate, cut)
    ensures var target := TargetLease(plan, candidate);
            var before := Manifest(files, path);
            match LoadCandidate(current, Manifest(cut, path), read, now)
            case None => true
            case Some((lease, changed)) =>
              && lease.digest == Of(read.revoked)
              && (lease == target || Some(lease) == before)
              && (lease == target ==> read.revoked == candidate.revoked)
              && (before == None || before == Some(current) ==> (lease, changed) == (current, false) || (lease, changed) == (target, true))
  {
    ManifestAtACut(files, plan, candidate, cut, path);
  }

  lemma ManifestAtACut(files: Files, plan: Plan, candidate: Revocation, cut: Files, path: string)
    requires IsCut(files, plan, candidate, cut)
    ensures Manifest(cut, path) in {None, Some(TargetLease(plan, candidate)), Manifest(files, path)}
  {
    var staged, published :| TwoPhase(plan, staged, published) && cut == Cut(files, plan, candidate, staged, published);
    CutAt(files, plan, candidate, staged, published, path);
  }

  /** It moves exactly when the epoch is new to it, the lease runs, it has read the target's set, and its manifest
      is published, or named the target already and is not the place of some staged set. */
  lemma MovesExactlyWhen(files: Files, plan: Plan, candidate: Revocation, staged: set<Pair>, published: set<Pair>, path: string,
                         current: Lease, read: Revocation, now: int)
    ensures var target := TargetLease(plan, candidate);
            LoadCandidate(current, Manifest(Cut(files, plan, candidate, staged, published), path), read, now) == Some((target, true))
            <==> && current.epoch < plan.epoch && now < plan.validUntil <= now + MAX_LEASE && read.revoked == candidate.revoked
                 && (path in Distributions(published) || (path !in Revocations(staged) && Manifest(files, path) == Some(target)))
  {
    CutAt(files, plan, candidate, staged, published, path);
    assert TargetLease(plan, candidate).digest == Of(read.revoked) <==> read.revoked == candidate.revoked;
  }

  /** The steps of one reload up to the installation of what it read. */
  function Reloaded(instanceId: string, s: State, read: Revocation, file: Option<Lease>, now: int): State
    requires s.up && s.stage.Idle?
  {
    var t := RevocationInstance.Step(instanceId, RevocationInstance.Step(instanceId, s, ReadRevocation(read)), ReadDistribution(file, now));
    if !t.stage.Checked? then t else
      var u := RevocationInstance.Step(instanceId, t, Publish);
      if !u.stage.Published? then u else RevocationInstance.Step(instanceId, u, Install)
  }

  /** For every run of `PublishRollout`: an instance that reads its set after the i-th write and its manifest
      after the j-th stays as it is or comes to have exactly the set and lease of the target, or of what its
      manifest named before; never a mixture. */
  lemma ReloadDuringRollout(history: seq<Files>, start: nat, files: Files, plan: Plan, candidate: Revocation, i: nat, j: nat,
                            instanceId: string, s: State, revocationFile: string, distributionFile: string, now: int)
    requires OnlyCuts(history, start, files, plan, candidate) && start <= i < |history| && start <= j < |history|
    requires RevocationInstance.Inv(instanceId, s) && s.up && s.stage.Idle? && LoadRevocation(history[i], revocationFile).Some?
    ensures var read := LoadRevocation(history[i], revocationFile).value;
            var t := Reloaded(instanceId, s, read, Manifest(history[j], distributionFile), now);
            var before := Manifest(files, distributionFile);
            || t == s
            || (t.lease == TargetLease(plan, candidate) && t.current.revoked == candidate.revoked)
            || (Some(t.lease) == before && t.current.revoked == read.revoked && t.lease.digest == Of(read.revoked)
                && (before == Some(s.lease) ==> t.lease == s.lease && t.current == s.current))
  {
    var read := LoadRevocation(history[i], revocationFile).value;
    var file := Manifest(history[j], distributionFile);
    assert IsCut(files, plan, candidate, history[j]);
    NeverAMixture(files, plan, candidate, history[j], distributionFile, s.lease, read, now);
    RevocationInstance.ReloadIsAllOrNothing(instanceId, s, read, file, now);
  }

  ghost predicate Installed(files: Files, plan: Plan, candidate: Revocation, m: Member) {
    && LoadRevocation(files, m.revocation) == Some(candidate)
    && LoadDistribution(files, m.distribution) == Ok(Some(TargetLease(plan, candidate)))
  }

  /** A rollout that reports `published` has put every target in place exactly when the plan's targets
      do not cross; nothing in the plan's validation rules that out. */
  lemma PublishedInstallsExactlyWhen(files: Files, plan: Plan, candidate: Revocation)
    requires Accepted(plan) && plan.epoch > 0
    ensures var done := Cut(files, plan, candidate, Pairs(plan), Pairs(plan));
            (forall m :: m in plan.members ==> Installed(done, plan, candidate, m)) <==> Uncrossed(plan.members)
  {
    var done := Cut(files, plan, candidate, Pairs(plan), Pairs(plan));
    if Uncrossed(plan.members) {
      forall m | m in plan.members ensures Installed(done, plan, candidate, m) {
        CutHolds(files, plan, candidate, Pairs(plan), Pairs(plan), m);
      }
    } else {
      var m, n :| m in plan.members && n in plan.members && m.distribution == n.revocation;
      assert PairOf(m) in Pairs(plan) && m.distribution in Distributions(Pairs(plan));
      assert !Installed(done, plan, candidate, n);
    }
  }

  // ----- acknowledgements -----

  datatype AckStatus = Acknowledged | Pending | Conflicting

  /** What `collectAcks` makes of one member. */
  function StatusOf(files: Files, plan: Plan, candidate: Revocation, m: Member): AckStatus {
    match LoadAck(files, m.ack)
    case Err(_) => Conflicting
    case Ok(None) => Pending
    case Ok(Some(a)) =>
      if a.instanceId != m.id then Conflicting
      else if a.epoch < plan.epoch then Pending
      else if a.epoch > plan.epoch then Conflicting
      else if AckAuthority(a) != LeaseAuthority(TargetLease(plan, candidate)) || a.revision != candidate.revision || a.at > a.validUntil then Conflicting
      else Acknowledged
  }

  function Having(members: seq<Member>, k: nat, files: Files, plan: Plan, candidate: Revocation, status: AckStatus): seq<string>
    requires k <= |members|
  {
    if k == 0 then [] else
      Having(members, k - 1, files, plan, candidate, status)
      + (if StatusOf(files, plan, candidate, members[k - 1]) == status then [members[k - 1].id] else [])
  }

  method CollectAcks(files: Files, plan: Plan, candidate: Revocation) returns (r: Option<(seq<string>, seq<string>)>)
    ensures r == None <==> exists m :: m in plan.members && StatusOf(files, plan, candidate, m) == Conflicting
    ensures r.Some? ==>
              && r.value.0 == Having(plan.members, |plan.members|, files, plan, candidate, Acknowledged)
              && r.value.1 == Having(plan.members, |plan.members|, files, plan, candidate, Pending)
              && (r.value.1 == [] <==> forall m :: m in plan.members ==> StatusOf(files, plan, candidate, m) == Acknowledged)
  {
    var acknowledged, pending: seq<string> := [], [];
    for k := 0 to |plan.members|
      invariant acknowledged == Having(plan.members, k, files, plan, candidate, Acknowledged)
      invariant pending == Having(plan.members, k, files, plan, candidate, Pending)
      invariant forall i :: 0 <= i < k ==> StatusOf(files, plan, candidate, plan.members[i]) != Conflicting
      invariant pending == [] <==> forall i :: 0 <= i < k ==> StatusOf(files, plan, candidate, plan.members[i]) == Acknowledged
    {
      var m := plan.members[k];
      match StatusOf(files, plan, candidate, m) {
        case Conflicting => return None;
        case Pending => pending := pending + [m.id];
        case Acknowledged => acknowledged := acknowledged + [m.id];
      }
    }
    return Some((acknowledged, pending));
  }

  /** `validatePublishedTargets`, skipping pairs already seen. */
  method ValidateTargets(files: Files, plan: Plan, candidate: Revocation) returns (ok: bool)
    ensures ok <==> forall m :: m in plan.members ==> Installed(files, plan, candidate, m)
  {
    var seen: set<Pair> := {};
    for k := 0 to |plan.members|
      invariant forall i :: 0 <= i < k ==> Installed(files, plan, candidate, plan.members[i])
      invariant forall pair :: pair in seen ==> exists i :: 0 <= i < k && PairOf(plan.members[i]) == pair
    {
      var m := plan.members[k];
      if PairOf(m) !in seen {
        seen := seen + {PairOf(m)};
        if LoadRevocation(files, m.revocation) != Some(candidate) || LoadDistribution(files, m.distribution) != Ok(Some(TargetLease(plan, candidate))) {
          assert m in plan.members && !Installed(files, plan, candidate, m);
          return false;
        }
      }
    }
    return true;
  }

  // ----- waiting -----

  /** What one turn of the polling loop reads: the clock and the files. */
  datatype Sight = Sight(now: int, files: Files)

  datatype WaitResult = WaitRejected | Incomplete(reason: string) | Converged | StillPolling

  ghost predicate AllInstalled(files: Files, plan: Plan, candidate: Revocation) {
    forall m :: m in plan.members ==> Installed(files, plan, candidate, m)
  }

  ghost predicate AllAcknowledged(files: Files, plan: Plan, candidate: Revocation) {
    forall m :: m in plan.members ==> StatusOf(files, plan, candidate, m) == Acknowledged
  }

  /** A turn that goes on to sleep: sound so far, not all there, time left. */
  ghost predicate Sleeps(sights: seq<Sight>, k: nat, plan: Plan, candidate: Revocation)
    requires k < |sights|
  {
    var elapsed := sights[k].now - sights[0].now;
    && AllInstalled(sights[k].files, plan, candidate) && 0 <= elapsed < plan.ackTimeout && sights[k].now < plan.validUntil
    && (forall m :: m in plan.members ==> StatusOf(sights[k].files, plan, candidate, m) != Conflicting)
    && !AllAcknowledged(sights[k].files, plan, candidate)
  }

  /** When an instance's acknowledgement first counted, if it did in the first `turns` turns. */
  ghost function FirstAt(sights: seq<Sight>, turns: nat, plan: Plan, candidate: Revocation, id: string): Option<int>
    requires turns <= |sights|
  {
    if turns == 0 then None
    else if FirstAt(sights, turns - 1, plan, candidate, id).Some? then FirstAt(sights, turns - 1, plan, candidate, id)
    else if SeenAt(sights[turns - 1], plan, candidate, id) then Some(sights[turns - 1].now)
    else None
  }

  ghost predicate FirstSeen(observed: map<string, int>, sights: seq<Sight>, turns: nat, plan: Plan, candidate: Revocation)
    requires turns <= |sights|
  {
    forall id :: FirstAt(sights, turns, plan, candidate, id) == if id in observed then Some(observed[id]) else None
  }

  ghost predicate SeenAt(sight: Sight, plan: Plan, candidate: Revocation, id: string) {
    id in Having(plan.members, |plan.members|, sight.files, plan, candidate, Acknowledged)
  }

  /** `waitForAcks` over what it reads turn by turn; `sights` may end while it still polls. */
  method WaitForAcks(plan: Plan, candidate: Revocation, sights: seq<Sight>) returns (r: WaitResult, observed: map<string, int>, turns: nat)
    ensures turns <= |sights| && (r == StillPolling ==> turns == |sights|)
    ensures forall k :: 0 <= k < turns && (k < turns - 1 || r == StillPolling) ==> Sleeps(sights, k, plan, candidate)
    ensures r == Converged <==>
              && 0 < turns && AllInstalled(sights[turns - 1].files, plan, candidate) && sights[turns - 1].now >= sights[0].now
              && AllAcknowledged(sights[turns - 1].files, plan, candidate)
    ensures r.Incomplete? ==>
              && 0 < turns && !AllAcknowledged(sights[turns - 1].files, plan, candidate)
              && (r.reason == "lease_expired" <==> sights[turns - 1].now >= plan.validUntil)
              && (r.reason == "timeout" ==> sights[turns - 1].now - sights[0].now >= plan.ackTimeout)
    ensures r != WaitRejected ==> FirstSeen(observed, sights, turns, plan, candidate)
  {
    observed, turns := map[], 0;
    while turns < |sights|
      invariant turns <= |sights|
      invariant forall k :: 0 <= k < turns ==> Sleeps(sights, k, plan, candidate)
      invariant FirstSeen(observed, sights, turns, plan, candidate)
    {
      var current, elapsed := sights[turns], sights[turns].now - sights[0].now;
      turns := turns + 1;
      var valid := ValidateTargets(current.files, plan, candidate);
      if !valid || elapsed < 0 { return WaitRejected, observed, turns; }
      var acks := CollectAcks(current.files, plan, candidate);
      if acks == None { return WaitRejected, observed, turns; }
      observed := Observe(observed, acks.value.0, sights, turns - 1, plan, candidate);
      if acks.value.1 == [] { return Converged, observed, turns; }
      if current.now >= plan.validUntil { return Incomplete("lease_expired"), observed, turns; }
      if elapsed >= plan.ackTimeout { return Incomplete("timeout"), observed, turns; }
    }
    assert turns > 0 ==> Sleeps(sights, turns - 1, plan, candidate);
    return StillPolling, observed, turns;
  }

  method Observe(observed: map<string, int>, acknowledged: seq<string>, sights: seq<Sight>, k: nat, plan: Plan, candidate: Revocation)
    returns (r: map<string, int>)
    requires k < |sights| && FirstSeen(observed, sights, k, plan, candidate)
    requires acknowledged == Having(plan.members, |plan.members|, sights[k].files, plan, candidate, Acknowledged)
    ensures FirstSeen(r, sights, k + 1, plan, candidate)
  {
    r := observed;
    for i := 0 to |acknowledged|
      invariant forall id :: id in r <==> id in observed || id in acknowledged[..i]
      invariant forall id :: id in r ==> r[id] == if id in observed then observed[id] else sights[k].now
    {
      if acknowledged[i] !in r { r := r[acknowledged[i] := sights[k].now]; }
    }
    assert acknowledged[..|acknowledged|] == acknowledged;
  }

  // ----- convergence is real -----

  /** When waiting converges, every required instance has had exactly the candidate's revoked set and the
      plan's lease in force, and the epoch of its acknowledgement is a floor for ever exactly if that
      acknowledgement is durable, which its file does not show. */
  lemma ConvergenceIsReal(plan: Plan, candidate: Revocation, sight: Sight, m: Member, states: seq<State>, actions: seq<RevocationInstance.Action>)
    requires AllAcknowledged(sight.files, plan, candidate) && m in plan.members
    requires Path(m.id, states, actions) && Fresh(m.id, states[0])
    requires var s := states[|actions|];
             s.ack.visible == if m.ack in sight.files && sight.files[m.ack].AckText? then Some(sight.files[m.ack].ack) else None
    ensures var s := states[|actions|];
            && Authority(plan.epoch, Of(candidate.revoked), plan.validUntil) in s.installed
            && (plan.epoch > 1 ==> (IsFloor(m.id, s, plan.epoch) <==> forall left :: s.ack.Survives(left) ==> left.Some? && left.value.epoch >= plan.epoch))
  {
    assert StatusOf(sight.files, plan, candidate, m) == Acknowledged;
    AckIsEvidence(m.id, states, actions, sight.files[m.ack].ack, candidate.revoked);
    if plan.epoch > 1 {
      AckIsAFloorExactlyWhen(m.id, states[|actions|], plan.epoch);
    }
  }
}
