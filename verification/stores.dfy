/** The two content stores of the XID canister, `BTreeMap<String, _>` keyed
    by uuid: upload, delete and mint as map operations, the paged listing in
    key order, and the lookup by a list of uuids. */
module Stores {
  import opened Results
  import opened Lex
  import opened XidTypes

  type Store<C> = map<string, Entry<C>>

  /** Every entry is filed under its own uuid. */
  ghost predicate StoreKeyed<C>(m: Store<C>) {
    forall k | k in m :: m[k].uuid == k
  }

  /** Adding an entry under a uuid not yet used; a used one is refused. */
  function Add<C>(m: Store<C>, e: Entry<C>): (r: Result<Store<C>, XidError>)
    ensures r.Err? <==> e.uuid in m
    ensures r.Err? ==> r.error == UuidRepeat
    ensures r.Ok? ==> r.value.Keys == m.Keys + {e.uuid} && r.value[e.uuid] == e
    ensures r.Ok? ==> forall k | k in m :: r.value[k] == m[k]
    ensures r.Ok? && StoreKeyed(m) ==> StoreKeyed(r.value)
  {
    if e.uuid in m then Err(UuidRepeat) else Ok(m[e.uuid := e])
  }

  /** `BTreeMap::remove`, reporting a missing uuid. */
  function Delete<C>(m: Store<C>, uuid: string): (r: Result<Store<C>, XidError>)
    ensures r.Ok? <==> uuid in m
    ensures r.Err? ==> r.error == UuidNotExist
    ensures r.Ok? ==> r.value.Keys == m.Keys - {uuid}
    ensures r.Ok? ==> forall k | k in r.value :: r.value[k] == m[k]
    ensures r.Ok? && StoreKeyed(m) ==> StoreKeyed(r.value)
  {
    if uuid in m then Ok(m - {uuid}) else Err(UuidNotExist)
  }

  /** Marking an entry minted at `now`; everything else about it is kept. */
  function Mint<C>(m: Store<C>, uuid: string, now: string): (r: Result<Store<C>, XidError>)
    ensures r.Ok? <==> uuid in m
    ensures r.Err? ==> r.error == UuidNotExist
    ensures r.Ok? ==> r.value.Keys == m.Keys
    ensures r.Ok? ==> forall k | k in m && k != uuid :: r.value[k] == m[k]
    ensures r.Ok? ==>
      var e, e' := m[uuid], r.value[uuid];
      && e'.isMinted && e'.mintTime == now
      && e'.owner == e.owner && e'.uuid == e.uuid && e'.content == e.content
      && e'.dPlatform == e.dPlatform && e'.uploadTime == e.uploadTime
    ensures r.Ok? && StoreKeyed(m) ==> StoreKeyed(r.value)
  {
    if uuid in m then Ok(m[uuid := m[uuid].(isMinted := true, mintTime := now)]) else Err(UuidNotExist)
  }

  /** Deleting what was just uploaded gives back the store. */
  lemma AddThenDelete<C>(m: Store<C>, e: Entry<C>)
    requires e.uuid !in m
    ensures Delete(Add(m, e).value, e.uuid) == Ok(m)
  {
    var back := m[e.uuid := e] - {e.uuid};
    assert back.Keys == m.Keys;
    assert back == m;
  }

  /** Minting twice differs from minting once only in the mint time. */
  lemma MintTwice<C>(m: Store<C>, uuid: string, t1: string, t2: string)
    requires uuid in m
    ensures Mint(Mint(m, uuid, t1).value, uuid, t2) == Mint(m, uuid, t2)
  {
    var once := m[uuid := m[uuid].(isMinted := true, mintTime := t1)];
    assert once[uuid].(isMinted := true, mintTime := t2) == m[uuid].(isMinted := true, mintTime := t2);
    assert once[uuid := once[uuid].(isMinted := true, mintTime := t2)] == m[uuid := m[uuid].(isMinted := true, mintTime := t2)];
  }

  /** A fresh upload record: owned by the canister's owner, not minted. */
  function Fresh<C>(s: State, arg: StoreArg, c: C, now: string): (e: Entry<C>)
    ensures e.owner == s.pubKey && e.uuid == arg.uuid && e.content == c && e.dPlatform == arg.dPlatform
    ensures !e.isMinted && e.mintTime == "" && e.uploadTime == now
  {
    Entry(s.pubKey, arg.uuid, c, arg.dPlatform, false, "", now)
  }

  /** `uploadStore`: files the content in the store of its kind; a repeated
      uuid is refused and changes nothing. */
  function UploadStore(s: State, caller: string, arg: StoreArg, now: string)
    : (r: Step<Result<XidResponse, XidError>>)
    ensures !IsAuthorized(s, caller) ==> r == Refused(s)
    ensures IsAuthorized(s, caller) ==> r.reply.Replied? && r.sent == []
    ensures IsAuthorized(s, caller) && arg.content.TwitterContents? ==>
      && r.post == s.(twitterStore := r.post.twitterStore)
      && (arg.uuid in s.twitterStore ==> r.reply.value == Err(UuidRepeat) && r.post == s)
      && (arg.uuid !in s.twitterStore ==>
            && r.reply.value == Ok(StoreOk)
            && r.post.twitterStore.Keys == s.twitterStore.Keys + {arg.uuid}
            && r.post.twitterStore[arg.uuid] == Fresh(s, arg, arg.content.twitter, now)
            && (forall k | k in s.twitterStore :: r.post.twitterStore[k] == s.twitterStore[k]))
    ensures IsAuthorized(s, caller) && arg.content.OffChainContents? ==>
      && r.post == s.(offStore := r.post.offStore)
      && (arg.uuid in s.offStore ==> r.reply.value == Err(UuidRepeat) && r.post == s)
      && (arg.uuid !in s.offStore ==>
            && r.reply.value == Ok(StoreOk)
            && r.post.offStore.Keys == s.offStore.Keys + {arg.uuid}
            && r.post.offStore[arg.uuid] == Fresh(s, arg, arg.content.offChain, now)
            && (forall k | k in s.offStore :: r.post.offStore[k] == s.offStore[k]))
  {
    if !IsAuthorized(s, caller) then Refused(s)
    else match arg.content
      case TwitterContents(t) =>
        (match Add(s.twitterStore, Fresh(s, arg, t, now))
         case Err(e) => Step(Replied(Err(e)), s, [])
         case Ok(m) => Step(Replied(Ok(StoreOk)), s.(twitterStore := m), []))
      case OffChainContents(o) =>
        (match Add(s.offStore, Fresh(s, arg, o, now))
         case Err(e) => Step(Replied(Err(e)), s, [])
         case Ok(m) => Step(Replied(Ok(StoreOk)), s.(offStore := m), []))
  }

  /** `deleteStore`: removes the entry from the store of the given kind. */
  function DeleteStore(s: State, caller: string, arg: ContentUuid): (r: Step<Result<XidResponse, XidError>>)
    ensures !IsAuthorized(s, caller) ==> r == Refused(s)
    ensures IsAuthorized(s, caller) ==> r.reply.Replied? && r.sent == []
    ensures IsAuthorized(s, caller) && arg.contentType == Twitter ==>
      && r.post == s.(twitterStore := r.post.twitterStore)
      && (r.reply.value.Ok? <==> arg.uuid in s.twitterStore)
      && (r.reply.value.Ok? ==> r.reply.value.value == DeleteOk && r.post.twitterStore == s.twitterStore - {arg.uuid})
      && (r.reply.value.Err? ==> r.reply.value.error == UuidNotExist && r.post == s)
    ensures IsAuthorized(s, caller) && arg.contentType == OffChain ==>
      && r.post == s.(offStore := r.post.offStore)
      && (r.reply.value.Ok? <==> arg.uuid in s.offStore)
      && (r.reply.value.Ok? ==> r.reply.value.value == DeleteOk && r.post.offStore == s.offStore - {arg.uuid})
      && (r.reply.value.Err? ==> r.reply.value.error == UuidNotExist && r.post == s)
  {
    if !IsAuthorized(s, caller) then Refused(s)
    else match arg.contentType
      case Twitter =>
        (match Delete(s.twitterStore, arg.uuid)
         case Err(e) => Step(Replied(Err(e)), s, [])
         case Ok(m) => Step(Replied(Ok(DeleteOk)), s.(twitterStore := m), []))
      case OffChain =>
        (match Delete(s.offStore, arg.uuid)
         case Err(e) => Step(Replied(Err(e)), s, [])
         case Ok(m) => Step(Replied(Ok(DeleteOk)), s.(offStore := m), []))
  }

  /** `setMintStatus`: marks the entry minted at `now` in the store of the
      given kind. */
  function SetMintStatus(s: State, caller: string, arg: ContentUuid, now: string)
    : (r: Step<Result<XidResponse, XidError>>)
    ensures !IsAuthorized(s, caller) ==> r == Refused(s)
    ensures IsAuthorized(s, caller) ==> r.reply.Replied? && r.sent == []
    ensures IsAuthorized(s, caller) && arg.contentType == Twitter ==>
      && r.post == s.(twitterStore := r.post.twitterStore)
      && (r.reply.value.Ok? <==> arg.uuid in s.twitterStore)
      && (r.reply.value.Ok? ==> r.reply.value.value == MintOk && Mint(s.twitterStore, arg.uuid, now) == Ok(r.post.twitterStore))
      && (r.reply.value.Err? ==> r.reply.value.error == UuidNotExist && r.post == s)
    ensures IsAuthorized(s, caller) && arg.contentType == OffChain ==>
      && r.post == s.(offStore := r.post.offStore)
      && (r.reply.value.Ok? <==> arg.uuid in s.offStore)
      && (r.reply.value.Ok? ==> r.reply.value.value == MintOk && Mint(s.offStore, arg.uuid, now) == Ok(r.post.offStore))
      && (r.reply.value.Err? ==> r.reply.value.error == UuidNotExist && r.post == s)
  {
    if !IsAuthorized(s, caller) then Refused(s)
    else match arg.contentType
      case Twitter =>
        (match Mint(s.twitterStore, arg.uuid, now)
         case Err(e) => Step(Replied(Err(e)), s, [])
         case Ok(m) => Step(Replied(Ok(MintOk)), s.(twitterStore := m), []))
      case OffChain =>
        (match Mint(s.offStore, arg.uuid, now)
         case Err(e) => Step(Replied(Err(e)), s, [])
         case Ok(m) => Step(Replied(Ok(MintOk)), s.(offStore := m), []))
  }

  /** The three store handlers keep every entry filed under its own uuid. */
  lemma StoreHandlersKeepKeying(s: State, caller: string, arg: StoreArg, cu: ContentUuid, now: string)
    requires StoreKeyed(s.twitterStore) && StoreKeyed(s.offStore)
    ensures var p := UploadStore(s, caller, arg, now).post; StoreKeyed(p.twitterStore) && StoreKeyed(p.offStore)
    ensures var p := DeleteStore(s, caller, cu).post; StoreKeyed(p.twitterStore) && StoreKeyed(p.offStore)
    ensures var p := SetMintStatus(s, caller, cu, now).post; StoreKeyed(p.twitterStore) && StoreKeyed(p.offStore)
  {
  }

  /** The store handlers are rejected exactly when the owner guard refuses
      the caller, with the guard's own message. */
  lemma StoreGuardDecidesRejection(s: State, caller: string, arg: StoreArg, cu: ContentUuid, now: string)
    ensures var g := Authorize(s.pubKey, caller);
      && (UploadStore(s, caller, arg, now).reply.Rejected? <==> g.Err?)
      && (DeleteStore(s, caller, cu).reply.Rejected? <==> g.Err?)
      && (SetMintStatus(s, caller, cu, now).reply.Rejected? <==> g.Err?)
      && (g.Err? ==> UploadStore(s, caller, arg, now).reply == Rejected(g.error))
  {
  }

  // ---- listing ---------------------------------------------------------

  function AsTwitter(e: TwitterStorage): (r: Storage)
    ensures r.content == TwitterContents(e.content)
  {
    Entry(e.owner, e.uuid, TwitterContents(e.content), e.dPlatform, e.isMinted, e.mintTime, e.uploadTime)
  }

  function AsOffChain(e: OffStorage): (r: Storage)
    ensures r.content == OffChainContents(e.content)
  {
    Entry(e.owner, e.uuid, OffChainContents(e.content), e.dPlatform, e.isMinted, e.mintTime, e.uploadTime)
  }

  /** A store's entries as `values()` yields them: in ascending uuid order,
      each as a listing record. */
  ghost function TwitterListing(m: Store<TwitterContent>): (r: seq<Storage>)
    ensures |r| == |m|
    ensures forall i | 0 <= i < |r| :: r[i] == AsTwitter(m[KeyOrder(m.Keys)[i]])
  {
    var ks := KeyOrder(m.Keys);
    seq(|ks|, i requires 0 <= i < |ks| => AsTwitter(m[ks[i]]))
  }

  ghost function OffChainListing(m: Store<OffChainContent>): (r: seq<Storage>)
    ensures |r| == |m|
    ensures forall i | 0 <= i < |r| :: r[i] == AsOffChain(m[KeyOrder(m.Keys)[i]])
  {
    var ks := KeyOrder(m.Keys);
    seq(|ks|, i requires 0 <= i < |ks| => AsOffChain(m[ks[i]]))
  }

  /** The source's listing loop: walk every entry with a position counter
      starting at `st`, keeping those whose position lies in `[lo, hi)`. */
  function Scan<T>(vals: seq<T>, st: nat, lo: nat, hi: nat): (r: seq<T>)
    ensures |r| <= |vals|
    ensures hi <= lo ==> r == []
    decreases |vals|
  {
    if vals == [] then []
    else (if lo <= st < hi then [vals[0]] else []) + Scan(vals[1..], st + 1, lo, hi)
  }

  function Clip(x: int, n: nat): (r: nat)
    ensures r <= n
  {
    if x < 0 then 0 else if x > n then n else x
  }

  function Min(a: nat, b: nat): nat {
    if a <= b then a else b
  }

  /** A slice of the tail is the slice one further along. */
  lemma SliceShift<T>(vals: seq<T>, a: nat, b: nat)
    requires a <= b <= |vals| - 1
    ensures vals[1..][a..b] == vals[a + 1..b + 1]
  {
  }

  /** Past the window the loop keeps nothing. */
  lemma {:induction false} ScanPast<T>(vals: seq<T>, st: nat, lo: nat, hi: nat)
    requires hi <= st
    ensures Scan(vals, st, lo, hi) == []
    decreases |vals|
  {
    if vals != [] {
      ScanPast(vals[1..], st + 1, lo, hi);
    }
  }

  /** Inside the window the loop keeps the entries up to its end. */
  lemma {:induction false} ScanInside<T>(vals: seq<T>, st: nat, lo: nat, hi: nat)
    requires lo <= st <= hi
    ensures Scan(vals, st, lo, hi) == vals[..Min(hi - st, |vals|)]
    decreases |vals|
  {
    if vals != [] {
      if st == hi {
        ScanPast(vals, st, lo, hi);
      } else {
        ScanInside(vals[1..], st + 1, lo, hi);
        assert vals[1..][..Min(hi - st - 1, |vals| - 1)] == vals[1..Min(hi - st, |vals|)];
        assert vals[..Min(hi - st, |vals|)] == [vals[0]] + vals[1..Min(hi - st, |vals|)];
      }
    }
  }

  /** Before the window the loop skips up to its start. */
  lemma {:induction false} ScanBefore<T>(vals: seq<T>, st: nat, lo: nat, hi: nat)
    requires st <= lo <= hi
    ensures Scan(vals, st, lo, hi) == vals[Min(lo - st, |vals|)..Min(hi - st, |vals|)]
    decreases |vals|
  {
    if vals != [] {
      if st == lo {
        ScanInside(vals, st, lo, hi);
      } else {
        ScanBefore(vals[1..], st + 1, lo, hi);
        assert Scan(vals, st, lo, hi) == Scan(vals[1..], st + 1, lo, hi);
        var n := |vals|;
        var a, b := Min(lo - st - 1, n - 1), Min(hi - st - 1, n - 1);
        assert Min(lo - st, n) == a + 1 && Min(hi - st, n) == b + 1;
        SliceShift(vals, a, b);
      }
    }
  }

  /** The loop keeps exactly the contiguous run of positions `[lo, hi)` that
      the sequence has. */
  lemma ScanIsSlice<T>(vals: seq<T>, st: nat, lo: nat, hi: nat)
    requires lo <= hi
    ensures Scan(vals, st, lo, hi) == vals[Clip(lo - st, |vals|)..Clip(hi - st, |vals|)]
  {
    if st <= lo {
      ScanBefore(vals, st, lo, hi);
    } else if st <= hi {
      ScanInside(vals, st, lo, hi);
    } else {
      ScanPast(vals, st, lo, hi);
    }
  }

  /** A scan from position 0 keeps the run from `start` of at most `count`
      entries. */
  lemma ScanFrom<T>(vals: seq<T>, start: nat, count: nat)
    requires start <= |vals|
    ensures Scan(vals, 0, start, start + count) == vals[start..Min(start + count, |vals|)]
  {
    ScanIsSlice(vals, 0, start, start + count);
    assert Clip(start, |vals|) == start;
    assert Clip(start + count, |vals|) == Min(start + count, |vals|);
  }

  /** The paging of the Twitter branch: `start` past the end is
      `FieldOutOfRange`; otherwise the count is cut to what remains and the
      entries at positions `[start, start + count)` are returned. */
  function Page<T>(vals: seq<T>, start: nat, offset: nat): (r: Result<seq<T>, XidError>)
    ensures r.Err? <==> start >= |vals|
    ensures r.Err? ==> r.error == FieldOutOfRange
    ensures r.Ok? ==> |r.value| == Min(offset, |vals| - start)
    ensures r.Ok? ==> forall i | 0 <= i < |r.value| :: r.value[i] == vals[start + i]
  {
    if start >= |vals| then Err(FieldOutOfRange)
    else
      var count := if start + offset > |vals| then |vals| - start else offset;
      var window := Scan(vals, 0, start, start + count);
      ScanIsSlice(vals, 0, start, start + count);
      assert Clip(start, |vals|) == start && Clip(start + count, |vals|) == start + count;
      assert window == vals[start..start + count];
      Ok(window)
  }

  /** `getStoreList` as written. Its OffChain branch cuts the count with the
      Twitter store's length; when that length is below `start`, the `usize`
      subtraction underflows, modelled as a trap. */
  ghost function GetStoreList(s: State, kind: ContentType, start: nat, offset: nat)
    : (r: Reply<Result<seq<Storage>, XidError>>)
    ensures kind == Twitter ==> r == Replied(Page(TwitterListing(s.twitterStore), start, offset))
    ensures kind == OffChain ==> (r.Replied? && r.value.Err? <==> start >= |s.offStore|)
  {
    match kind
    case Twitter => Replied(Page(TwitterListing(s.twitterStore), start, offset))
    case OffChain => PageCutBy(OffChainListing(s.offStore), |s.twitterStore|, start, offset)
  }

  /** The OffChain branch's paging: the count is cut with an outside `bound`
      in place of the length of `vals`; `bound - start` underflows, and the
      call traps, when `bound` is below `start`. */
  function PageCutBy<T>(vals: seq<T>, bound: nat, start: nat, offset: nat)
    : (r: Reply<Result<seq<T>, XidError>>)
    ensures start >= |vals| ==> r == Replied(Err(FieldOutOfRange))
    ensures start < |vals| ==> (r.Trapped? <==> start + offset > bound && bound < start)
    ensures start < |vals| && !r.Trapped? ==>
      var count := if start + offset > bound then bound - start else offset;
      r == Replied(Ok(vals[start..Min(start + count, |vals|)]))
  {
    if start >= |vals| then Replied(Err(FieldOutOfRange))
    else if start + offset > bound && bound < start then Trapped
    else
      var count := if start + offset > bound then bound - start else offset;
      ScanFrom(vals, start, count);
      Replied(Ok(Scan(vals, 0, start, start + count)))
  }

  /** The Twitter listing: the `min(offset, len - start)` entries that follow
      position `start` in uuid order. */
  lemma TwitterListingWindow(s: State, start: nat, offset: nat)
    requires start < |s.twitterStore|
    ensures var r := GetStoreList(s, Twitter, start, offset);
      var keys := KeyOrder(s.twitterStore.Keys);
      && r.Replied? && r.value.Ok?
      && |r.value.value| == Min(offset, |s.twitterStore| - start)
      && forall i | 0 <= i < |r.value.value| :: r.value.value[i] == AsTwitter(s.twitterStore[keys[start + i]])
  {
  }

  /** The OffChain listing as written still returns a contiguous run from
      `start` in uuid order, but its length follows the Twitter store. */
  lemma OffChainListingAsWritten(s: State, start: nat, offset: nat)
    requires start < |s.offStore|
    ensures var r := GetStoreList(s, OffChain, start, offset);
      var bound := |s.twitterStore|;
      && (r.Trapped? <==> start + offset > bound && bound < start)
      && (!r.Trapped? ==>
            var count := if start + offset > bound then bound - start else offset;
            r == Replied(Ok(OffChainListing(s.offStore)[start..Min(start + count, |s.offStore|)])))
   {
    var vals := OffChainListing(s.offStore);
    assert |vals| == |s.offStore|;
    assert GetStoreList(s, OffChain, start, offset) == PageCutBy(vals, |s.twitterStore|, start, offset);
  }

  /** The input that shows the OffChain cut is wrong: with no Twitter entries
      and one OffChain entry, asking for one entry from position 0 returns
      none. */
  lemma OffChainListingCounterexample(s: State, e: OffStorage)
    requires s.twitterStore == map[] && s.offStore == map["u" := e]
    ensures GetStoreList(s, OffChain, 0, 1) == Replied(Ok([]))
    ensures |OffChainListing(s.offStore)| == 1
  {
    ScanIsSlice(OffChainListing(s.offStore), 0, 0, 0);
  }

  /** `getStoreList` with both branches paging their own store, as the
      Twitter branch does. */
  ghost function GetStoreListIntended(s: State, kind: ContentType, start: nat, offset: nat)
    : (r: Result<seq<Storage>, XidError>)
    ensures var vals := if kind == Twitter then TwitterListing(s.twitterStore) else OffChainListing(s.offStore);
      && (r.Err? <==> start >= |vals|)
      && (r.Ok? ==> |r.value| == Min(offset, |vals| - start))
      && (r.Ok? ==> forall i | 0 <= i < |r.value| :: r.value[i] == vals[start + i])
  {
    match kind
    case Twitter => Page(TwitterListing(s.twitterStore), start, offset)
    case OffChain => Page(OffChainListing(s.offStore), start, offset)
  }

  /** The corrected listing agrees with the source on Twitter and, on the
      counterexample's input, returns the one OffChain entry. */
  lemma IntendedListingFixesCounterexample(s: State, e: OffStorage, start: nat, offset: nat)
    requires s.twitterStore == map[] && s.offStore == map["u" := e]
    ensures GetStoreListIntended(s, OffChain, 0, 1) == Ok([AsOffChain(e)])
    ensures GetStoreList(s, Twitter, start, offset) == Replied(GetStoreListIntended(s, Twitter, start, offset))
  {
    var keys := KeyOrder(s.offStore.Keys);
    assert "u" in keys;
    assert keys == ["u"];
    var vals := OffChainListing(s.offStore);
    assert vals[0] == AsOffChain(e);
    var r := Page(vals, 0, 1).value;
    assert |r| == 1 && r[0] == vals[0];
    assert r == [AsOffChain(e)];
  }

  // ---- lookup by uuid ---------------------------------------------------

  /** One `getStoreByUuid` probe. */
  function Lookup(s: State, cu: ContentUuid): (r: Option<Storage>)
    ensures cu.contentType == Twitter ==>
      (r.Some? <==> cu.uuid in s.twitterStore) && (r.Some? ==> r.value == AsTwitter(s.twitterStore[cu.uuid]))
    ensures cu.contentType == OffChain ==>
      (r.Some? <==> cu.uuid in s.offStore) && (r.Some? ==> r.value == AsOffChain(s.offStore[cu.uuid]))
  {
    match cu.contentType
    case Twitter => if cu.uuid in s.twitterStore then Some(AsTwitter(s.twitterStore[cu.uuid])) else None
    case OffChain => if cu.uuid in s.offStore then Some(AsOffChain(s.offStore[cu.uuid])) else None
  }

  /** `getStoreByUuid`: the entries found, in the order asked for; a uuid
      not present is skipped. */
  function GetStoreByUuid(s: State, args: seq<ContentUuid>): (r: seq<Storage>)
    ensures |r| <= |args|
    ensures (forall i | 0 <= i < |args| :: Lookup(s, args[i]).Some?) ==>
      |r| == |args| && forall i | 0 <= i < |r| :: Lookup(s, args[i]) == Some(r[i])
    ensures (forall i | 0 <= i < |args| :: Lookup(s, args[i]).None?) ==> r == []
    decreases |args|
  {
    if args == [] then []
    else
      var tail := GetStoreByUuid(s, args[1..]);
      assert forall i | 1 <= i < |args| :: args[1..][i - 1] == args[i];
      Found(s, args[0]) + tail
  }

  /** What one probe contributes to the answer. */
  function Found(s: State, cu: ContentUuid): (r: seq<Storage>)
    ensures |r| <= 1 && (r == [] <==> Lookup(s, cu).None?)
    ensures r != [] ==> Lookup(s, cu) == Some(r[0])
  {
    match Lookup(s, cu) case Some(e) => [e] case None => []
  }

  /** The lookup is order preserving: the answer for a concatenated list is
      the concatenation of the answers. */
  lemma {:induction false} ByUuidConcat(s: State, a: seq<ContentUuid>, b: seq<ContentUuid>)
    ensures GetStoreByUuid(s, a + b) == GetStoreByUuid(s, a) + GetStoreByUuid(s, b)
    decreases |a|
  {
    if a != [] {
      assert (a + b)[0] == a[0];
      assert (a + b)[1..] == a[1..] + b;
      ByUuidConcat(s, a[1..], b);
      var h := Found(s, a[0]);
      assert GetStoreByUuid(s, a + b) == h + GetStoreByUuid(s, a[1..] + b);
      assert GetStoreByUuid(s, a) == h + GetStoreByUuid(s, a[1..]);
    } else {
      assert a + b == b;
    }
  }

  /** A uuid that is not present contributes nothing, wherever it stands. */
  lemma MissingSkipped(s: State, a: seq<ContentUuid>, x: ContentUuid, b: seq<ContentUuid>)
    requires Lookup(s, x).None?
    ensures GetStoreByUuid(s, a + [x] + b) == GetStoreByUuid(s, a + b)
  {
    ByUuidConcat(s, a + [x], b);
    ByUuidConcat(s, a, [x]);
    ByUuidConcat(s, a, b);
  }
}
