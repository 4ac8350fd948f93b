/** The issued-session credential runtime: issue, revoke, expire, account reload and recovery reset,
    each rewriting the transport's allow-set, then the credential provider, then the authenticator. */
module SessionCredentials {
  import opened Outcomes

  // ----- values -----

  /** A token digest; the credential id is taken from its first half. Tokens stand for their digests. */
  datatype Digest = Digest(high: string, low: string)

  datatype Account = Account(id: string, loginId: string, password: string, characterId: string, version: nat,
                             takeover: bool, disabled: bool)

  /** `durableAccountGeneration`: a hash over exactly these fields, taken as injective. */
  datatype Generation = Generation(id: string, loginId: string, password: string, characterId: string, version: nat, takeover: bool)

  function GenerationOf(a: Account): Generation {
    Generation(a.id, a.loginId, a.password, a.characterId, a.version, a.takeover)
  }

  /** `subject` and `generation` are empty for authenticators that have no generations. */
  datatype Grant = Grant(identity: string, takeover: bool, subject: string, generation: Option<Generation>)

  datatype Entry = Entry(digest: Digest, grant: Grant, expiresAt: int)

  datatype Provider = Provider(revision: nat, credentials: map<Digest, Entry>, byId: map<string, Entry>)

  datatype Authenticator = Durable(storeRevision: nat, recovery: bool, generations: map<string, Generation>) | RestartOnly

  datatype Definition = Definition(recovery: bool, revision: nat, accounts: seq<Account>)

  /** `newDurableSessionLoginAuthenticator`: a disabled account has no generation. */
  function FromDefinition(d: Definition): (a: Authenticator)
    ensures a.Durable?
  {
    Durable(d.revision, d.recovery, Generations(d.accounts))
  }

  function Generations(accounts: seq<Account>): map<string, Generation> {
    if accounts == [] then map[] else
      var a, before := accounts[|accounts| - 1], Generations(accounts[..|accounts| - 1]);
      if a.disabled then before else before[a.id := GenerationOf(a)]
  }

  predicate GenerationActive(a: Authenticator, subject: string, generation: Option<Generation>) {
    a.Durable? && subject != "" && generation.Some? && subject in a.generations && a.generations[subject] == generation.value
  }

  /** `grantCurrent`. */
  predicate GrantCurrent(a: Authenticator, g: Grant) {
    if g.subject == "" && g.generation == None then true
    else if g.subject == "" || g.generation == None then false
    else GenerationActive(a, g.subject, g.generation)
  }

  predicate Live(e: Entry, now: int) {
    now < e.expiresAt
  }

  // ----- provider snapshots -----

  /** Both tables hold the same entries, each under its own digest and credential id. */
  ghost predicate Consistent(p: Provider) {
    && (forall d :: d in p.credentials ==>
          p.credentials[d].digest == d && d.high in p.byId && p.byId[d.high] == p.credentials[d])
    && (forall h :: h in p.byId ==>
          p.byId[h].digest.high == h && p.byId[h].digest in p.credentials && p.credentials[p.byId[h].digest] == p.byId[h])
  }

  function Without(p: Provider, d: Digest): Provider {
    p.(credentials := p.credentials - {d}, byId := p.byId - {d.high})
  }

  lemma WithoutIsConsistent(p: Provider, d: Digest)
    requires Consistent(p) && d in p.credentials
    ensures Consistent(Without(p, d))
  {
    var q := Without(p, d);
    forall e | e in q.credentials ensures e.high in q.byId {
      assert e.high in p.byId && p.byId[e.high].digest == e;
    }
  }

  predicate Dropped(e: Entry, now: int, auth: Option<Authenticator>) {
    !Live(e, now)
    || (auth.Some? && e.grant.subject != "" && e.grant.generation.Some? && !GenerationActive(auth.value, e.grant.subject, e.grant.generation))
  }

  function Kept(credentials: map<Digest, Entry>, now: int, auth: Option<Authenticator>): map<Digest, Entry> {
    map d | d in credentials && !Dropped(credentials[d], now, auth) :: credentials[d]
  }

  function LiveKeys(credentials: map<Digest, Entry>, now: int): set<Digest> {
    set d | d in credentials && Live(credentials[d], now)
  }

  /** `pruneIssuedSessionCredentials`, and with an authenticator also the loop that drops the bearers
      whose account generation is not active in it. */
  method Prune(p: Provider, now: int, auth: Option<Authenticator>) returns (q: Provider)
    requires Consistent(p)
    ensures Consistent(q) && q.revision == p.revision
    ensures q.credentials == Kept(p.credentials, now, auth)
  {
    q := p;
    var todo := p.credentials.Keys;
    while todo != {}
      invariant todo <= p.credentials.Keys && Consistent(q) && q.revision == p.revision
      invariant q.credentials == map d | d in p.credentials && (d in todo || !Dropped(p.credentials[d], now, auth)) :: p.credentials[d]
    {
      var d :| d in todo;
      if Dropped(p.credentials[d], now, auth) {
        WithoutIsConsistent(q, d);
        q := Without(q, d);
      }
      todo := todo - {d};
    }
  }

  /** `activeTrustedCharacterAuthenticationScopes`: the scope of an entry is its digest. */
  method ActiveScopes(p: Provider, now: int) returns (scopes: set<Digest>)
    requires Consistent(p)
    ensures scopes == LiveKeys(p.credentials, now)
  {
    scopes := {};
    var todo := p.byId.Values;
    while todo != {}
      invariant todo <= p.byId.Values
      invariant scopes == set e | e in p.byId.Values && e !in todo && Live(e, now) :: e.digest
    {
      var e :| e in todo;
      if Live(e, now) { scopes := scopes + {e.digest}; }
      todo := todo - {e};
    }
    forall d | d in p.credentials ensures p.credentials[d] in p.byId.Values {
      assert p.byId[d.high] == p.credentials[d];
    }
    forall e | e in p.byId.Values ensures e.digest in p.credentials && p.credentials[e.digest] == e {
      var h :| h in p.byId && p.byId[h] == e;
    }
  }

  // ----- what readers can see -----

  /** One published state. `removed` are the bearers taken away by then. */
  datatype View = View(allow: set<Digest>, credentials: map<Digest, Entry>, auth: Authenticator, removed: set<Digest>)

  /** A bearer works: it resolves, and its scope is in the allow-set. */
  predicate Usable(v: View, d: Digest) {
    d in v.credentials && d in v.allow
  }

  /** What works has an active account generation; what is taken away is fenced off first; and what is
      issued resolves only behind its fence. */
  ghost predicate Good(v: View) {
    && (forall d :: Usable(v, d) ==> GrantCurrent(v.auth, v.credentials[d].grant))
    && v.allow !! v.removed
    && v.credentials.Keys <= v.allow + v.removed
  }

  /** What is taken away stays so; what resolves goes on resolving to the same entry until it is taken away. */
  ghost predicate Follows(v: View, w: View) {
    && v.removed <= w.removed
    && forall d :: d in v.credentials && d !in w.removed ==> d in w.credentials && w.credentials[d] == v.credentials[d]
  }

  ghost predicate Growing(views: seq<View>) {
    forall i, j :: 0 <= i <= j < |views| ==> Follows(views[i], views[j])
  }

  lemma GrowsBy(views: seq<View>, v: View)
    requires views != [] && Growing(views) && Follows(views[|views| - 1], v) && Follows(v, v)
    ensures Growing(views + [v])
  {
    var more := views + [v];
    forall i, j | 0 <= i <= j < |more| ensures Follows(more[i], more[j]) {
      if i < |views| { assert Follows(views[i], views[|views| - 1]); }
    }
  }

  datatype LoginError = RuntimeUnavailable | Rejected | RandomCollision | RevisionNotAdvanced | ProviderChanged | StoreFailed

  const MAX_ATTEMPTS: nat := 4

  class SessionLoginRuntime {
    const ttl: int
    const recovers: bool              // a recovery provider is configured
    var auth: Authenticator
    var provider: Provider
    var allow: set<Digest>            // the transport's allow-set, behind `replaceScopes`
    var revision: nat
    ghost var minted: set<Digest>     // every digest ever issued
    ghost var views: seq<View>        // every state published, in order

    ghost predicate Valid()
      reads this
    {
      && Consistent(provider) && provider.revision == revision
      && provider.credentials.Keys <= minted && allow == provider.credentials.Keys
      && (forall d :: d in provider.credentials ==> GrantCurrent(auth, provider.credentials[d].grant))
      && Recorded()
      && views[|views| - 1] == View(allow, provider.credentials, auth, minted - provider.credentials.Keys)
    }

    ghost predicate Recorded()
      reads this
    {
      && views != [] && Growing(views)
      && forall v :: v in views ==> Good(v)
    }

    constructor (ttl: int, recovers: bool, auth: Authenticator)
      requires ttl > 0
      ensures Valid() && minted == {} && this.auth == auth && this.ttl == ttl && this.recovers == recovers
    {
      this.ttl, this.recovers, this.auth := ttl, recovers, auth;
      provider, allow, revision := Provider(0, map[], map[]), {}, 0;
      minted := {};
      views := [View({}, map[], auth, {})];
    }

    /** One of the three published variables has been replaced. */
    ghost method Publish(removed: set<Digest>)
      requires Recorded() && Follows(views[|views| - 1], View(allow, provider.credentials, auth, removed))
      requires Good(View(allow, provider.credentials, auth, removed))
      modifies this`views
      ensures Recorded() && old(views) < views && views[|views| - 1] == View(allow, provider.credentials, auth, removed)
      ensures |views| == |old(views)| + 1
    {
      GrowsBy(views, View(allow, provider.credentials, auth, removed));
      views := views + [View(allow, provider.credentials, auth, removed)];
    }

    /** The order all operations share: allow-set first, then the provider. `mint` is what they mint. */
    method Replace(next: Provider, now: int, ghost mint: set<Digest>)
      requires Valid() && Consistent(next) && next.revision == revision + 1
      requires mint !! minted && mint <= next.credentials.Keys <= provider.credentials.Keys + mint
      requires forall d :: d in next.credentials && d in provider.credentials ==> next.credentials[d] == provider.credentials[d]
      requires forall d :: d in mint ==> GrantCurrent(auth, next.credentials[d].grant)
      requires forall d :: d in next.credentials ==> Live(next.credentials[d], now)
      modifies this`allow, this`provider, this`revision, this`views, this`minted
      ensures Valid() && provider == next && minted == old(minted) + mint
      ensures old(views) < views && views[|old(views)|].removed == minted - next.credentials.Keys
    {
      minted := minted + mint;
      ghost var removed := minted - next.credentials.Keys;
      allow := ActiveScopes(next, now);
      Publish(removed);
      provider, revision := next, next.revision;
      Publish(removed);
    }

    /** Draw up to four tokens until one is not in use. */
    method Draw(next: Provider, tokens: seq<Digest>) returns (d: Option<Digest>)
      ensures d.Some? ==> d.value in tokens && d.value !in next.credentials
      ensures d == None <==> forall k :: 0 <= k < |tokens| && k < MAX_ATTEMPTS ==> tokens[k] in next.credentials
    {
      for k := 0 to if |tokens| < MAX_ATTEMPTS then |tokens| else MAX_ATTEMPTS
        invariant forall j :: 0 <= j < k ==> tokens[j] in next.credentials
      {
        if tokens[k] !in next.credentials { return Some(tokens[k]); }
      }
      return None;
    }

    /** A token that is not in use has never been issued, and shares its credential id with none. */
    ghost predicate FreshTokens(tokens: seq<Digest>, now: int)
      reads this
    {
      forall t :: t in tokens ==>
                    || (t in provider.credentials && Live(provider.credentials[t], now))
                    || forall m :: m in minted ==> m.high != t.high
    }

    /** `Issue`. The grant may have been authenticated under an older authenticator. */
    method Issue(grant: Grant, now: int, tokens: seq<Digest>) returns (r: Result<Entry, LoginError>)
      requires Valid() && FreshTokens(tokens, now) && ttl > 0
      modifies this`allow, this`provider, this`revision, this`views, this`minted
      ensures Valid() && old(views) <= views
      ensures r.Ok? ==>
                && GrantCurrent(auth, grant) && r.value == Entry(r.value.digest, grant, now + ttl)
                && r.value.digest in tokens && r.value.digest !in old(minted) && minted == old(minted) + {r.value.digest}
                && provider.credentials == Kept(old(provider).credentials, now, None)[r.value.digest := r.value]
      ensures r.Err? ==> provider == old(provider) && allow == old(allow) && minted == old(minted) && views == old(views)
      ensures !GrantCurrent(auth, grant) <==> r == Err(Rejected)
    {
      if !GrantCurrent(auth, grant) { return Err(Rejected); }
      var next := Prune(provider, now, None);
      var drawn := Draw(next, tokens);
      if drawn == None { return Err(RandomCollision); }
      var entry := Entry(drawn.value, grant, now + ttl);
      assert forall d :: d in provider.credentials ==> d.high != drawn.value.high;
      next := Provider(revision + 1, next.credentials[entry.digest := entry], next.byId[entry.digest.high := entry]);
      Replace(next, now, {entry.digest});
      return Ok(entry);
    }

    /** `Revoke`. */
    method Revoke(digest: Digest, now: int) returns (revoked: bool)
      requires Valid()
      modifies this`allow, this`provider, this`revision, this`views, this`minted
      ensures Valid() && old(views) <= views && minted == old(minted)
      ensures revoked <==> digest in old(provider).credentials
      ensures revoked ==> provider.credentials == Kept(Without(old(provider), digest).credentials, now, None)
      ensures !revoked ==> provider == old(provider) && views == old(views)
    {
      if digest !in provider.credentials { return false; }
      WithoutIsConsistent(provider, digest);
      var next := Prune(Without(provider, digest), now, None);
      Replace(next.(revision := revision + 1), now, {});
      return true;
    }

    /** `expireAt`. */
    method ExpireAt(now: int) returns (changed: bool)
      requires Valid()
      modifies this`allow, this`provider, this`revision, this`views, this`minted
      ensures Valid() && old(views) <= views && minted == old(minted)
      ensures provider.credentials == Kept(old(provider).credentials, now, None)
      ensures !changed ==> provider == old(provider) && views == old(views)
      ensures changed ==> provider.credentials != old(provider).credentials
    {
      var next := Prune(provider, now, None);
      var same := SameCount(next.credentials, provider.credentials, now);
      if same { return false; }
      Replace(next.(revision := revision + 1), now, {});
      return true;
    }

    /** What a commit of the accounts takes away is removed from the first state it publishes. */
    ghost predicate Fenced(before: map<Digest, Entry>, from: nat, now: int, next: Authenticator)
      reads this
    {
      from < |views| && forall d :: d in before && Dropped(before[d], now, Some(next)) ==> d in views[from].removed
    }

    /** The commit both account changes share: fence, provider, then the authenticator. */
    method Commit(next: Authenticator, now: int)
      requires Valid() && next.Durable?
      modifies this`allow, this`provider, this`revision, this`views, this`minted, this`auth
      ensures Valid() && auth == next && old(views) <= views && minted == old(minted)
      ensures provider.credentials == Kept(old(provider).credentials, now, Some(next))
      ensures Fenced(old(provider).credentials, |old(views)|, now, next)
    {
      var kept := Prune(provider, now, Some(next));
      Replace(kept.(revision := revision + 1), now, {});
      auth := next;
      Publish(minted - provider.credentials.Keys);
    }

    /** `reloadDurableAccounts`. `previous` is the store revision read before the lock was taken,
        `loaded` what the account file gave. */
    method ReloadDurableAccounts(previous: nat, loaded: Option<Authenticator>, now: int) returns (fault: Option<LoginError>)
      requires Valid()
      modifies this`allow, this`provider, this`revision, this`views, this`minted, this`auth
      ensures Valid() && old(views) <= views && minted == old(minted)
      ensures fault == None <==>
                && loaded.Some? && loaded.value.Durable? && (recovers ==> loaded.value.recovery)
                && previous < loaded.value.storeRevision && old(auth).Durable? && old(auth).storeRevision == previous
      ensures fault == None ==>
                && auth == loaded.value && Fenced(old(provider).credentials, |old(views)|, now, auth)
                && provider.credentials == Kept(old(provider).credentials, now, Some(auth))
      ensures fault.Some? ==> auth == old(auth) && provider == old(provider) && views == old(views)
    {
      if loaded == None || !loaded.value.Durable? { return Some(RuntimeUnavailable); }
      if recovers && !loaded.value.recovery { return Some(RuntimeUnavailable); }
      if loaded.value.storeRevision <= previous { return Some(RevisionNotAdvanced); }
      if !auth.Durable? || auth.storeRevision != previous { return Some(ProviderChanged); }
      Commit(loaded.value, now);
      return None;
    }

    /** `resetDurableAccountFromRecovery`. On success the account file and the authenticator carry the
        next credential version, and no bearer of an earlier generation of the account is left. */
    method ResetFromRecovery(accountId: string, version: nat, password: string, now: int, file: AccountFile)
      returns (fault: Option<LoginError>, ghost k: nat)
      requires Valid() && UniqueIds(file.definition.accounts)
      modifies this`allow, this`provider, this`revision, this`views, this`minted, this`auth, file
      ensures Valid() && old(views) <= views && minted == old(minted)
      ensures fault == None ==>
                && k < |old(file.definition).accounts|
                && var a := old(file.definition).accounts[k];
                && a.id == accountId && !a.disabled && a.version == version
                && file.definition == old(file.definition).(
                     revision := old(file.definition).revision + 1,
                     accounts := old(file.definition).accounts[k := WithPassword(a, password)])
                && auth == FromDefinition(file.definition)
                && (forall d :: d in provider.credentials && provider.credentials[d].grant.subject == accountId ==>
                      provider.credentials[d].grant.generation == Some(GenerationOf(WithPassword(a, password))))
      ensures fault == None ==> Fenced(old(provider).credentials, |old(views)|, now, auth)
      ensures fault.Some? ==> auth == old(auth) && provider == old(provider) && views == old(views) && file.definition == old(file.definition)
    {
      k := 0;
      if accountId == "" { return Some(RuntimeUnavailable), k; }
      if !auth.Durable? || !auth.recovery { return Some(RuntimeUnavailable), k; }
      var readFails: bool := *;
      if readFails { return Some(StoreFailed), k; }
      var definition := file.definition;
      if !definition.recovery || definition.revision != auth.storeRevision { return Some(RuntimeUnavailable), k; }
      var found := FindAccount(definition.accounts, accountId);
      k := found;
      if found == |definition.accounts| { return Some(Rejected), k; }
      var account := definition.accounts[found];
      if account.disabled || account.version != version || version == MAX_UINT64 { return Some(Rejected), k; }
      if definition.revision == MAX_UINT64 { return Some(RuntimeUnavailable), k; }
      var next := definition.(revision := definition.revision + 1,
                              accounts := definition.accounts[found := WithPassword(account, password)]);
      var saved := file.SaveIfRevision(definition.revision, next);
      if !saved { return Some(StoreFailed), k; }
      ChangedGeneration(next.accounts, found);
      Commit(FromDefinition(next), now);
      return None, k;
    }

    /** Once taken away, a bearer never works again, whatever is issued, revoked or reloaded later and even
        if its account generation comes back; and what works at any published state belongs to an account
        generation active in the authenticator of that state. */
    lemma FenceIsForever(i: nat, j: nat, d: Digest)
      requires Valid() && i <= j < |views|
      ensures d in views[i].removed ==> !Usable(views[j], d)
      ensures Usable(views[j], d) ==> GrantCurrent(views[j].auth, views[j].credentials[d].grant)
    {
      assert views[j] in views && Follows(views[i], views[j]);
    }

    /** A handshake that resolves its bearer in one view and looks into the allow-set in a later one gets through
        only with a bearer that has not been taken away by then and whose generation is still the active one. */
    lemma HandshakeIsFenced(i: nat, j: nat, d: Digest)
      requires Valid() && i <= j < |views| && d in views[i].credentials && d in views[j].allow
      ensures Usable(views[j], d) && views[j].credentials[d] == views[i].credentials[d]
      ensures GrantCurrent(views[j].auth, views[i].credentials[d].grant)
      ensures forall k :: 0 <= k <= j ==> d !in views[k].removed
    {
      assert views[j] in views && Follows(views[i], views[j]);
      forall k | 0 <= k <= j ensures d !in views[k].removed {
        assert Follows(views[k], views[j]);
      }
    }
  }

  function WithPassword(a: Account, password: string): Account {
    a.(version := a.version + 1, password := password)
  }

  /** The account file. `SaveIfRevision` is one atomic step. */
  class AccountFile {
    var definition: Definition

    constructor (definition: Definition)
      ensures this.definition == definition
    {
      this.definition := definition;
    }

    method SaveIfRevision(expected: nat, next: Definition) returns (ok: bool)
      modifies this
      ensures ok ==> old(definition).revision == expected && definition == next
      ensures !ok ==> definition == old(definition)
    {
      if definition.revision != expected { return false; }
      var writeFails: bool := *;
      if writeFails { return false; }
      definition := next;
      return true;
    }
  }

  ghost predicate UniqueIds(accounts: seq<Account>) {
    forall i, j :: 0 <= i < j < |accounts| ==> accounts[i].id != accounts[j].id
  }

  method FindAccount(accounts: seq<Account>, id: string) returns (k: nat)
    ensures k <= |accounts| && (k < |accounts| ==> accounts[k].id == id)
    ensures k == |accounts| ==> forall i :: 0 <= i < |accounts| ==> accounts[i].id != id
  {
    k := 0;
    while k < |accounts| && accounts[k].id != id
      invariant k <= |accounts| && forall i :: 0 <= i < k ==> accounts[i].id != id
    {
      k := k + 1;
    }
  }

  /** With unique ids each enabled account's generation is the active one, and a disabled account has none. */
  lemma {:induction false} GenerationsAt(accounts: seq<Account>, id: string)
    requires UniqueIds(accounts)
    ensures forall k :: 0 <= k < |accounts| && accounts[k].id == id ==>
                          if accounts[k].disabled then id !in Generations(accounts)
                          else id in Generations(accounts) && Generations(accounts)[id] == GenerationOf(accounts[k])
    ensures (forall k :: 0 <= k < |accounts| ==> accounts[k].id != id) ==> id !in Generations(accounts)
  {
    if accounts != [] {
      var before := accounts[..|accounts| - 1];
      GenerationsAt(before, id);
      assert forall k :: 0 <= k < |before| ==> before[k] == accounts[k];
    }
  }

  lemma ChangedGeneration(accounts: seq<Account>, k: nat)
    requires k < |accounts| && UniqueIds(accounts) && !accounts[k].disabled
    ensures accounts[k].id in Generations(accounts) && Generations(accounts)[accounts[k].id] == GenerationOf(accounts[k])
  {
    GenerationsAt(accounts, accounts[k].id);
  }

  /** Pruning only removes, so comparing the counts tells whether anything went. */
  method SameCount(kept: map<Digest, Entry>, credentials: map<Digest, Entry>, now: int) returns (same: bool)
    requires kept == Kept(credentials, now, None)
    ensures same <==> kept == credentials
  {
    same := |kept| == |credentials|;
    if same { AllKept(credentials, now); }
  }

  lemma AllKept(credentials: map<Digest, Entry>, now: int)
    requires |Kept(credentials, now, None)| == |credentials|
    ensures Kept(credentials, now, None) == credentials
  {
    var kept := Kept(credentials, now, None);
    if d :| d in credentials && d !in kept {
      assert kept.Keys <= credentials.Keys - {d};
      SubsetSize(kept.Keys, credentials.Keys - {d});
    }
  }

  lemma SubsetSize(a: set<Digest>, b: set<Digest>)
    requires a <= b
    ensures |a| <= |b|
  {
    if d :| d in a {
      SubsetSize(a - {d}, b - {d});
    }
  }
}
