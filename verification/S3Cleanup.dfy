/**
 The paginated deletion of a prefix (pkg/csi/s3_cleanup.go:56-135) against an object store that
 lists keys in order, a page at a time, while they are being deleted.
 */
module S3Cleanup {
  import opened Options
  import opened GoStrings
  import opened S3Location

  // ---- Keys in order ----

  /** The order in which S3 lists keys. */
  predicate Less(a: string, b: string) {
    if b == "" then false
    else if a == "" then true
    else a[0] < b[0] || (a[0] == b[0] && Less(a[1..], b[1..]))
  }

  lemma {:induction false} LessTransitive(a: string, b: string, c: string)
    requires Less(a, b) && Less(b, c)
    ensures Less(a, c)
  {
    if a != "" && a[0] == b[0] == c[0] {
      LessTransitive(a[1..], b[1..], c[1..]);
    }
  }

  lemma {:induction false} LessAsymmetric(a: string, b: string)
    requires Less(a, b)
    ensures !Less(b, a)
  {
    if a != "" && a[0] == b[0] {
      LessAsymmetric(a[1..], b[1..]);
    }
  }

  ghost predicate Sorted(keys: seq<string>) {
    forall i, j :: 0 <= i < j < |keys| ==> Less(keys[i], keys[j])
  }

  function Filter(keys: seq<string>, p: string -> bool): (r: seq<string>)
    ensures forall k :: k in r <==> k in keys && p(k)
    ensures |r| <= |keys|
  {
    if keys == [] then []
    else if p(keys[0]) then [keys[0]] + Filter(keys[1..], p)
    else Filter(keys[1..], p)
  }

  lemma {:induction false} FilterSorted(keys: seq<string>, p: string -> bool)
    requires Sorted(keys)
    ensures Sorted(Filter(keys, p))
  {
    if keys != [] {
      FilterSorted(keys[1..], p);
      var r := Filter(keys[1..], p);
      forall k | k in r ensures Less(keys[0], k) {
        var i :| 0 <= i < |keys[1..]| && keys[1..][i] == k;
        assert keys[i + 1] == k;
      }
    }
  }

  lemma {:induction false} FilterAgrees(keys: seq<string>, p: string -> bool, q: string -> bool)
    requires forall k :: k in keys ==> p(k) == q(k)
    ensures Filter(keys, p) == Filter(keys, q)
  {
    if keys != [] {
      FilterAgrees(keys[1..], p, q);
    }
  }

  lemma {:induction false} FilterTwice(keys: seq<string>, p: string -> bool, q: string -> bool)
    ensures Filter(Filter(keys, p), q) == Filter(keys, k => p(k) && q(k))
  {
    if keys != [] {
      FilterTwice(keys[1..], p, q);
      assert p(keys[0]) ==> Filter(keys, p)[1..] == Filter(keys[1..], p);
    }
  }

  lemma {:induction false} FilterSuffix(keys: seq<string>, n: nat, p: string -> bool)
    requires n <= |keys|
    requires forall i :: 0 <= i < |keys| ==> (p(keys[i]) <==> i >= n)
    ensures Filter(keys, p) == keys[n..]
  {
    if keys != [] {
      assert p(keys[0]) <==> n == 0;
      forall i | 0 <= i < |keys[1..]| ensures p(keys[1..][i]) <==> i >= (if n == 0 then 0 else n - 1) {
        assert keys[1..][i] == keys[i + 1];
      }
      FilterSuffix(keys[1..], if n == 0 then 0 else n - 1, p);
    }
  }

  // ---- Listing ----

  /** Where a listing stands: nowhere yet, or behind the last key it returned. */
  type Token = Option<string>

  predicate Ahead(prefix: string, token: Token, k: string) {
    prefix <= k && (token.None? || Less(token.value, k))
  }

  /** The keys that a listing has still to return. */
  function Pending(keys: seq<string>, prefix: string, token: Token): seq<string> {
    Filter(keys, k => Ahead(prefix, token, k))
  }

  function Moved(token: Token, page: seq<string>): Token {
    if page == [] then token else Some(page[|page| - 1])
  }

  lemma LessIrreflexive(a: string)
    ensures !Less(a, a)
  {
    if Less(a, a) {
      LessAsymmetric(a, a);
    }
  }

  lemma AheadShrinks(prefix: string, token: Token, last: string, k: string)
    requires Ahead(prefix, token, last) && Ahead(prefix, Some(last), k)
    ensures Ahead(prefix, token, k)
  {
    if token.Some? {
      LessTransitive(token.value, last, k);
    }
  }

  /** The token divides what was pending into the page and the rest. */
  lemma TokenDivides(pending: seq<string>, prefix: string, token: Token, n: nat, i: nat)
    requires Sorted(pending) && n <= |pending| && i < |pending|
    requires forall k :: k in pending ==> Ahead(prefix, token, k)
    ensures Ahead(prefix, Moved(token, pending[..n]), pending[i]) <==> i >= n
  {
    assert pending[i] in pending;
    if n > 0 {
      var last := pending[n - 1];
      assert Moved(token, pending[..n]) == Some(last);
      if i < n - 1 {
        LessAsymmetric(pending[i], last);
      } else if i == n - 1 {
        LessIrreflexive(last);
      }
    }
  }

  /** A listing resumed behind a page returns the rest of what was pending. */
  lemma RestIsPending(keys: seq<string>, prefix: string, token: Token, n: nat)
    requires Sorted(keys) && n <= |Pending(keys, prefix, token)|
    ensures var pending := Pending(keys, prefix, token);
            Pending(keys, prefix, Moved(token, pending[..n])) == pending[n..]
  {
    var pending := Pending(keys, prefix, token);
    var moved := Moved(token, pending[..n]);
    var ahead, beyond := k => Ahead(prefix, token, k), k => Ahead(prefix, moved, k);
    FilterSorted(keys, ahead);
    forall i | 0 <= i < |pending| ensures beyond(pending[i]) <==> i >= n {
      TokenDivides(pending, prefix, token, n, i);
    }
    FilterSuffix(pending, n, beyond);
    FilterTwice(keys, ahead, beyond);
    forall k | k in keys ensures beyond(k) == (ahead(k) && beyond(k)) {
      if n > 0 && beyond(k) {
        assert pending[n - 1] in pending;
        AheadShrinks(prefix, token, pending[n - 1], k);
      }
    }
    FilterAgrees(keys, beyond, k => ahead(k) && beyond(k));
  }

  function Without(keys: seq<string>, gone: set<string>): seq<string> {
    Filter(keys, k => k !in gone)
  }

  /** Deleting keys of the page just listed does not disturb what comes after it. */
  lemma ListingResumes(keys: seq<string>, prefix: string, token: Token, n: nat, gone: set<string>)
    requires Sorted(keys) && n <= |Pending(keys, prefix, token)|
    requires forall k :: k in gone ==> k in Pending(keys, prefix, token)[..n]
    ensures var pending := Pending(keys, prefix, token);
            Pending(Without(keys, gone), prefix, Moved(token, pending[..n])) == pending[n..]
  {
    var pending := Pending(keys, prefix, token);
    var moved := Moved(token, pending[..n]);
    var stays, beyond := k => k !in gone, k => Ahead(prefix, moved, k);
    RestIsPending(keys, prefix, token, n);
    FilterTwice(keys, stays, beyond);
    forall k | k in gone ensures !beyond(k) {
      var i :| 0 <= i < n && pending[i] == k;
      FilterSorted(keys, x => Ahead(prefix, token, x));
      TokenDivides(pending, prefix, token, n, i);
    }
    FilterAgrees(keys, beyond, k => stays(k) && beyond(k));
  }

  // ---- The object store ----

  /** How one round of listing and deleting goes. */
  datatype Turn = Turn(listFails: bool, limit: nat, moreAnyway: bool, deleteFails: bool, partly: set<string>)

  /** The answers of the store. Keys in locked stay where they are although the call that deletes
      them reports no error; behind the given turns every call succeeds with full pages. */
  datatype StoreWorld = StoreWorld(clientFails: bool, locked: set<string>, turns: seq<Turn>)

  const PAGE_SIZE: nat := 1000

  function TurnAt(world: StoreWorld, i: nat): Turn {
    if i < |world.turns| then world.turns[i] else Turn(false, PAGE_SIZE, false, false, {})
  }

  datatype DeleteConfig =
    DeleteConfig(endpoint: string, region: string, allowHTTP: bool, accessKeyID: string, secretKey: string)

  datatype Outcome = Done | Failed

  /** What deletion is meant to leave of a bucket. */
  function Survivors(keys: seq<string>, prefix: string, locked: set<string>): seq<string> {
    Filter(keys, k => !(prefix <= k) || k in locked)
  }

  /** Objects by bucket, each bucket's keys in order. */
  type Buckets = map<string, seq<string>>

  class ObjectStore {
    var buckets: Buckets

    ghost predicate Valid()
      reads this
    {
      forall b :: b in buckets ==> Sorted(buckets[b])
    }

    constructor (initial: Buckets)
      requires forall b :: b in initial ==> Sorted(initial[b])
      ensures Valid() && buckets == initial
    {
      buckets := initial;
    }

    /** ListObjectsV2: the next keys under the prefix, and whether to ask again. */
    method NextPage(bucket: string, prefix: string, token: Token, turn: Turn)
      returns (failed: bool, page: seq<string>, more: bool)
      requires Valid()
      ensures failed <==> turn.listFails || bucket !in buckets
      ensures !failed ==>
                var pending := Pending(buckets[bucket], prefix, token);
                && |page| <= |pending| && |page| <= PAGE_SIZE && page == pending[..|page|]
                && (!more ==> |page| == |pending|)
                && (more && !turn.moreAnyway && turn.limit > 0 ==> page != [])
    {
      if turn.listFails || bucket !in buckets {
        return true, [], false;
      }
      var pending := Pending(buckets[bucket], prefix, token);
      var limit := if turn.limit < PAGE_SIZE then turn.limit else PAGE_SIZE;
      page := if limit < |pending| then pending[..limit] else pending;
      more := turn.moreAnyway || limit < |pending|;
      failed := false;
    }

    /** DeleteObjects: at most a page of keys at a time; a failed call may have removed some. */
    method DeleteObjects(bucket: string, objs: seq<string>, locked: set<string>, turn: Turn)
      returns (failed: bool, ghost gone: set<string>)
      requires Valid() && bucket in buckets && |objs| <= PAGE_SIZE
      modifies this
      ensures Valid() && failed == turn.deleteFails
      ensures gone == set k | k in objs && k !in locked && (turn.deleteFails ==> k in turn.partly)
      ensures buckets == old(buckets)[bucket := Without(old(buckets[bucket]), gone)]
    {
      var removed := set k | k in objs && k !in locked && (turn.deleteFails ==> k in turn.partly);
      FilterSorted(buckets[bucket], k => k !in removed);
      buckets := buckets[bucket := Without(buckets[bucket], removed)];
      gone := removed;
      failed := turn.deleteFails;
    }
  }

  predicate Named(k: string) { k != "" }

  lemma {:induction false} FilterAll(keys: seq<string>, p: string -> bool)
    requires forall k :: k in keys ==> p(k)
    ensures Filter(keys, p) == keys
  {
    if keys != [] {
      FilterAll(keys[1..], p);
    }
  }

  /** The keys that a page contributes to the delete request. */
  method CollectKeys(page: seq<string>) returns (objs: seq<string>)
    ensures objs == Filter(page, Named)
    ensures forall k :: k in objs <==> k in page && k != ""
  {
    objs := [];
    var i := 0;
    while i < |page|
      invariant 0 <= i <= |page|
      invariant objs + Filter(page[i..], Named) == Filter(page, Named)
    {
      assert page[i..][1..] == page[i + 1..];
      if page[i] != "" {
        objs := objs + [page[i]];
      }
      i := i + 1;
    }
  }

  // ---- The page loop ----

  /** After some pages: what is gone lay under the prefix, and what should be gone is or is pending. */
  ghost predicate Swept(was: seq<string>, keys: seq<string>, prefix: string, token: Token,
                        locked: set<string>, gone: set<string>) {
    && keys == Without(was, gone)
    && (forall k :: k in gone ==> prefix <= k && k !in locked)
    && (forall k :: k in was && prefix <= k ==> k in gone || k in locked || k in Pending(keys, prefix, token))
  }

  lemma WithoutTwice(keys: seq<string>, a: set<string>, b: set<string>)
    ensures Without(Without(keys, a), b) == Without(keys, a + b)
  {
    FilterTwice(keys, k => k !in a, k => k !in b);
    FilterAgrees(keys, k => (k => k !in a)(k) && (k => k !in b)(k), k => k !in a + b);
  }

  /** One page, listed and deleted, keeps the sweep exact. */
  lemma SweepStep(was: seq<string>, keys: seq<string>, prefix: string, token: Token,
                  locked: set<string>, gone: set<string>, n: nat, removed: set<string>)
    requires Sorted(keys) && Swept(was, keys, prefix, token, locked, gone) && n <= |Pending(keys, prefix, token)|
    requires removed == set k | k in Pending(keys, prefix, token)[..n] && k !in locked
    ensures var pending := Pending(keys, prefix, token);
            var keys', token' := Without(keys, removed), Moved(token, pending[..n]);
            && Swept(was, keys', prefix, token', locked, gone + removed)
            && Pending(keys', prefix, token') == pending[n..]
  {
    var pending := Pending(keys, prefix, token);
    ListingResumes(keys, prefix, token, n, removed);
    WithoutTwice(was, gone, removed);
    assert pending == pending[..n] + pending[n..];
    forall k | k in removed ensures prefix <= k {
      assert k in pending;
    }
  }

  /** When nothing is pending, the sweep has left exactly the survivors. */
  lemma SweepDone(was: seq<string>, keys: seq<string>, prefix: string, token: Token,
                  locked: set<string>, gone: set<string>)
    requires Swept(was, keys, prefix, token, locked, gone) && Pending(keys, prefix, token) == []
    ensures keys == Survivors(was, prefix, locked)
  {
    FilterAgrees(was, k => k !in gone, k => !(prefix <= k) || k in locked);
  }

  /** Every call to the store succeeds. */
  predicate NoTurnFails(world: StoreWorld) {
    forall i :: 0 <= i < |world.turns| ==> !world.turns[i].listFails && !world.turns[i].deleteFails
  }

  /** Keys are lost under the prefix at most, and in no other bucket. */
  lemma OnlyUnderSpares(was: Buckets, now: Buckets, bucket: string, prefix: string)
    requires OnlyUnder(was, now, bucket, prefix)
    ensures now.Keys == was.Keys
    ensures forall b, k :: b in was && k in now[b] ==> k in was[b]
    ensures forall b, k :: b in was && k in was[b] && (b != bucket || !(prefix <= k)) ==> k in now[b]
  {
  }

  /** The bucket lost keys under the prefix at most, and no other bucket changed. */
  ghost predicate OnlyUnder(was: Buckets, now: Buckets, bucket: string, prefix: string) {
    now == was ||
    (bucket in was &&
     exists gone: set<string> ::
       (forall k :: k in gone ==> prefix <= k) && now == was[bucket := Without(was[bucket], gone)])
  }

  /** The store while the pages of one bucket are being deleted. */
  ghost predicate Underway(was: Buckets, now: Buckets, bucket: string, prefix: string, gone: set<string>) {
    && (bucket !in was ==> now == was)
    && (bucket in was ==> now == was[bucket := Without(was[bucket], gone)] && forall k :: k in gone ==> prefix <= k)
  }

  lemma UnderwayIsOnlyUnder(was: Buckets, now: Buckets, bucket: string, prefix: string, gone: set<string>)
    requires Underway(was, now, bucket, prefix, gone)
    ensures OnlyUnder(was, now, bucket, prefix)
  {
  }

  /** Deletes everything under the prefix: on success exactly the survivors are left of the bucket,
      whatever the pages; on failure nothing outside the prefix has been touched. */
  method DeleteS3Prefix(store: ObjectStore, cfg: DeleteConfig, loc: Location, world: StoreWorld) returns (r: Outcome)
    requires store.Valid()
    modifies store
    ensures store.Valid()
    ensures cfg.endpoint == "" || loc.bucket == "" || TrimSpace(loc.prefix) == "" ==>
              r == Failed && store.buckets == old(store.buckets)
    ensures !cfg.allowHTTP && "http://" <= cfg.endpoint ==> r == Failed && store.buckets == old(store.buckets)
    ensures r == Done ==>
              && loc.bucket in old(store.buckets)
              && store.buckets == old(store.buckets)[loc.bucket :=
                   Survivors(old(store.buckets[loc.bucket]), TrimSpace(loc.prefix), world.locked)]
    ensures r == Done ==>
              forall k :: k in store.buckets[loc.bucket] <==>
                k in old(store.buckets[loc.bucket]) && (!(TrimSpace(loc.prefix) <= k) || k in world.locked)
    ensures OnlyUnder(old(store.buckets), store.buckets, loc.bucket, TrimSpace(loc.prefix))
    ensures (&& cfg.endpoint != "" && (cfg.allowHTTP || !("http://" <= cfg.endpoint))
             && loc.bucket in old(store.buckets) && loc.bucket != "" && TrimSpace(loc.prefix) != ""
             && !world.clientFails
             && (forall i :: 0 <= i < |world.turns| ==> !world.turns[i].listFails && !world.turns[i].deleteFails)) ==>
              r == Done
  {
    if cfg.endpoint == "" {
      return Failed;
    }
    if !cfg.allowHTTP && "http://" <= cfg.endpoint {
      return Failed;
    }
    if loc.bucket == "" {
      return Failed;
    }
    if TrimSpace(loc.prefix) == "" {
      return Failed;
    }
    if world.clientFails {
      return Failed;
    }
    r := DeletePages(store, loc.bucket, TrimSpace(loc.prefix), world);
  }

  /** What one round of the loop has done to the bucket when it ends without an error. */
  ghost predicate Advanced(was: seq<string>, before: seq<string>, after: seq<string>, prefix: string,
                           token: Token, moved: Token, world: StoreWorld, turn: Turn, more: bool, gone: set<string>) {
    var pending, left := Pending(before, prefix, token), Pending(after, prefix, moved);
    && Swept(was, after, prefix, moved, world.locked, gone)
    && |left| <= |pending|
    && (!more ==> left == [])
    && (more && !turn.moreAnyway && turn.limit > 0 ==> |left| < |pending|)
  }

  lemma PendingKeysAreNamed(keys: seq<string>, prefix: string, token: Token, n: nat)
    requires prefix != "" && n <= |Pending(keys, prefix, token)|
    ensures Filter(Pending(keys, prefix, token)[..n], Named) == Pending(keys, prefix, token)[..n]
  {
    var page := Pending(keys, prefix, token)[..n];
    forall k | k in page ensures Named(k) {
      assert k in Pending(keys, prefix, token);
    }
    FilterAll(page, Named);
  }

  /** One round of the loop: list a page, delete its keys. */
  method DeletePage(store: ObjectStore, bucket: string, prefix: string, token: Token, world: StoreWorld, turn: Turn,
                    ghost was: seq<string>, ghost gone: set<string>)
      returns (failed: bool, moved: Token, more: bool, ghost gone': set<string>)
    requires store.Valid() && prefix != ""
    requires bucket in store.buckets ==> Swept(was, store.buckets[bucket], prefix, token, world.locked, gone)
    modifies store
    ensures store.Valid() && store.buckets.Keys == old(store.buckets).Keys
    ensures bucket !in store.buckets ==> failed && store.buckets == old(store.buckets)
    ensures failed ==> bucket !in store.buckets || turn.listFails || turn.deleteFails
    ensures bucket in store.buckets ==>
              && store.buckets == old(store.buckets)[bucket := Without(was, gone')]
              && (forall k :: k in gone' ==> prefix <= k)
    ensures !failed ==>
              Advanced(was, old(store.buckets[bucket]), store.buckets[bucket], prefix, token, moved,
                       world, turn, more, gone')
  {
    var page: seq<string>;
    failed, page, more := store.NextPage(bucket, prefix, token, turn);
    moved, gone' := Moved(token, page), gone;
    if failed {
      return;
    }
    ghost var keys := store.buckets[bucket];
    ghost var pending := Pending(keys, prefix, token);
    ghost var removed: set<string> := {};
    if page != [] {
      var objs := CollectKeys(page);
      PendingKeysAreNamed(keys, prefix, token, |page|);
      failed, removed := store.DeleteObjects(bucket, objs, world.locked, turn);
      WithoutTwice(was, gone, removed);
      assert forall k :: k in removed ==> k in pending;
      gone' := gone + removed;
    } else {
      FilterAll(keys, k => k !in removed);
    }
    if !failed {
      SweepStep(was, keys, prefix, token, world.locked, gone, |page|, removed);
    }
  }

  /** The page loop: HasMorePages holds at first and then follows the last page. */
  method DeletePages(store: ObjectStore, bucket: string, prefix: string, world: StoreWorld) returns (r: Outcome)
    requires store.Valid() && prefix != ""
    modifies store
    ensures store.Valid()
    ensures r == Done ==>
              && bucket in old(store.buckets)
              && store.buckets == old(store.buckets)[bucket :=
                   Survivors(old(store.buckets[bucket]), prefix, world.locked)]
    ensures OnlyUnder(old(store.buckets), store.buckets, bucket, prefix)
    ensures bucket in old(store.buckets) && NoTurnFails(world) ==> r == Done
  {
    var token: Token, more, i := None, true, 0;
    ghost var all, gone: set<string> := store.buckets, {};
    ghost var was := if bucket in all then all[bucket] else [];
    ghost var left := |Pending(was, prefix, token)|;
    FilterAll(was, k => k !in gone);
    while more
      invariant store.Valid() && Underway(all, store.buckets, bucket, prefix, gone)
      invariant bucket !in all ==> more
      invariant bucket in all ==> Swept(was, store.buckets[bucket], prefix, token, world.locked, gone)
      invariant bucket in all ==> left == |Pending(store.buckets[bucket], prefix, token)|
      invariant !more ==> left == 0
      decreases if i < |world.turns| then |world.turns| - i else 0, left, more
    {
      var failed;
      failed, token, more, gone := DeletePage(store, bucket, prefix, token, world, TurnAt(world, i), was, gone);
      assert Underway(all, store.buckets, bucket, prefix, gone);
      if failed {
        UnderwayIsOnlyUnder(all, store.buckets, bucket, prefix, gone);
        return Failed;
      }
      i := i + 1;
      left := |Pending(store.buckets[bucket], prefix, token)|;
    }
    SweepDone(was, store.buckets[bucket], prefix, token, world.locked, gone);
    UnderwayIsOnlyUnder(all, store.buckets, bucket, prefix, gone);
    return Done;
  }
}
