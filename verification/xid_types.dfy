/** The XID canister's records and state: the error and response enums, the
    content entries, the nine-field `State` and its `StableState` snapshot,
    the two guards, and the upgrade hooks. */
module XidTypes {
  import opened Results
  import opened Identity
  import VerifyCanister

  datatype XidError =
    | DataNotExist
    | UuidRepeat
    | UuidNotExist
    | IDNotExist
    | MainIdBan
    | FieldOutOfRange
    | XidNotExist
    | XidCNoNameErr

  datatype XidResponse = VerifyOk | StoreOk | DeleteOk | MintOk | ChangeIdOk

  /** The errors of the external identity registry. */
  datatype XidCenterError =
    | Invalid_Operation
    | Invalid_Platform
    | NotXidOwner
    | XidNotExist
    | IDExist
    | IDNotExist

  datatype SimpleId = SimpleId(platform: string, identity: string)

  datatype TwitterContent = TwitterContent(
    url: string,
    textContent: string,
    textUrl: string,
    imageUrls: seq<string>,
    videoUrl: string,
    postTime: string)

  datatype OffChainContent = OffChainContent(
    localContentType: string,
    fileType: string,
    textContent: string,
    url: string)

  /** `Contents`: the content of one upload, of either kind. */
  datatype Contents = TwitterContents(twitter: TwitterContent) | OffChainContents(offChain: OffChainContent)

  datatype ContentType = Twitter | OffChain

  datatype StoreArg = StoreArg(uuid: string, dPlatform: string, content: Contents)

  datatype ContentUuid = ContentUuid(contentType: ContentType, uuid: string)

  /** One stored upload. `TwitterStorage`, `OffStorage` and the listing
      record `Storage` differ only in the content they carry. */
  datatype Entry<C> = Entry(
    owner: string,
    uuid: string,
    content: C,
    dPlatform: string,
    isMinted: bool,
    mintTime: string,
    uploadTime: string)

  type TwitterStorage = Entry<TwitterContent>
  type OffStorage = Entry<OffChainContent>
  type Storage = Entry<Contents>

  datatype Avatar = Avatar(imageData: seq<byte>, imageType: string)

  const EmptyAvatar: Avatar := Avatar([], "")

  datatype State = State(
    pubKey: string,
    name: string,
    mainId: ID,
    ids: IdSet,
    icVerify: string,
    avatarUrl: string,
    avatar: Avatar,
    twitterStore: map<string, TwitterStorage>,
    offStore: map<string, OffStorage>)

  datatype StableState = StableState(
    pubKey: string,
    name: string,
    mainId: ID,
    ids: IdSet,
    icVerify: string,
    avatarUrl: string,
    avatar: Avatar,
    twitterStore: map<string, TwitterStorage>,
    offStore: map<string, OffStorage>)

  /** `State::default()`. */
  const EmptyState: State := State("", "", Empty, map[], "", "", EmptyAvatar, map[], map[])

  /** The main-identity invariant: the main identity is either unset (empty
      `identity`) or a bound identity, and the bound set is well keyed. */
  ghost predicate LedgerInvariant(s: State) {
    && WellKeyed(s.ids)
    && (s.mainId.identity == "" || Contains(s.ids, s.mainId))
  }

  /** `init`: the owner's principal text, everything else empty; the main
      identity starts as the empty sentinel. */
  function Init(owner: string): (s: State)
    ensures s.pubKey == owner && s.mainId == Empty && s.ids == map[] && s.icVerify == ""
    ensures LedgerInvariant(s)
  {
    EmptyState.(pubKey := owner)
  }

  /** The message a guard rejects a call with. */
  const NotAuthorized: string := "Caller is not authorized"

  /** The comparison both guards make: the caller's principal text against
      the text the state holds, rejecting with `NotAuthorized`. */
  function Authorize(expected: string, caller: string): (r: Result<(), string>)
    ensures r.Ok? <==> caller == expected
    ensures r.Err? ==> r.error == NotAuthorized
  {
    if expected == caller then Ok(()) else Err(NotAuthorized)
  }

  /** `is_authorized`: the caller is the owner. */
  predicate IsAuthorized(s: State, caller: string): (r: bool)
    ensures r <==> caller == s.pubKey
  {
    Authorize(s.pubKey, caller).Ok?
  }

  /** `is_ic_authorized`: the caller's text is the pending ticket. */
  predicate IsIcAuthorized(s: State, caller: string): (r: bool)
    ensures r <==> caller == s.icVerify
  {
    Authorize(s.icVerify, caller).Ok?
  }

  /** The inter-canister requests a handler issues, in order. */
  datatype Request =
    | MsgInCall(arg: VerifyCanister.MsgInArg)
    | PutId(id: SimpleId)
    | DeleteId(id: SimpleId)

  /** One handler invocation: its reply, the state after it, and the
      requests it sent on the way. */
  datatype Step<+T> = Step(reply: Reply<T>, post: State, sent: seq<Request>)

  /** A guard's refusal: the handler does not run. */
  function Refused<T>(s: State): (r: Step<T>)
    ensures r.reply == Rejected(NotAuthorized) && r.post == s && r.sent == []
  {
    Step(Rejected(NotAuthorized), s, [])
  }

  /** `do_clear`: empties every field except the main identity and the
      avatar, which it leaves as they are. It is not a handler and does not
      keep `LedgerInvariant`: a main identity that was set now points outside
      the emptied set (see `DoClearOrphansMain`). Its only caller,
      `post_upgrade`, overwrites every field right after. */
  function DoClear(s: State): (r: State)
    ensures r.pubKey == "" && r.name == "" && r.ids == map[] && r.icVerify == ""
    ensures r.avatarUrl == "" && r.twitterStore == map[] && r.offStore == map[]
    ensures r.mainId == s.mainId && r.avatar == s.avatar
  {
    s.(pubKey := "", name := "", ids := map[], icVerify := "", avatarUrl := "",
       twitterStore := map[], offStore := map[])
  }

  /** After `do_clear` the invariant holds exactly when no main identity was
      set. */
  lemma DoClearOrphansMain(s: State)
    ensures LedgerInvariant(DoClear(s)) <==> s.mainId.identity == ""
  {
  }

  /** `pre_upgrade`: every field is taken into the snapshot, leaving the
      default state behind. */
  function PreUpgrade(s: State): (r: (StableState, State))
    ensures r.0.pubKey == s.pubKey && r.0.name == s.name && r.0.mainId == s.mainId
    ensures r.0.ids == s.ids && r.0.icVerify == s.icVerify && r.0.avatarUrl == s.avatarUrl
    ensures r.0.avatar == s.avatar && r.0.twitterStore == s.twitterStore && r.0.offStore == s.offStore
    ensures r.1 == EmptyState
  {
    (StableState(s.pubKey, s.name, s.mainId, s.ids, s.icVerify, s.avatarUrl, s.avatar,
                 s.twitterStore, s.offStore),
     EmptyState)
  }

  /** `post_upgrade`: `do_clear`, then every field replaced from the
      snapshot. */
  function PostUpgrade(current: State, saved: StableState): (r: State)
    ensures r.pubKey == saved.pubKey && r.name == saved.name && r.mainId == saved.mainId
    ensures r.ids == saved.ids && r.icVerify == saved.icVerify && r.avatarUrl == saved.avatarUrl
    ensures r.avatar == saved.avatar && r.twitterStore == saved.twitterStore && r.offStore == saved.offStore
  {
    var cleared := DoClear(current);
    cleared.(pubKey := saved.pubKey, name := saved.name, mainId := saved.mainId, ids := saved.ids,
             icVerify := saved.icVerify, avatarUrl := saved.avatarUrl, avatar := saved.avatar,
             twitterStore := saved.twitterStore, offStore := saved.offStore)
  }

  /** The upgrade is an exact round trip: restoring the snapshot gives back
      the state it was taken from, whatever state it is restored into, so
      the ledger invariant survives an upgrade too. */
  lemma UpgradeRoundTrip(s: State, between: State)
    ensures PostUpgrade(between, PreUpgrade(s).0) == s
    ensures PostUpgrade(PreUpgrade(s).1, PreUpgrade(s).0) == s
    ensures LedgerInvariant(s) ==> LedgerInvariant(PostUpgrade(between, PreUpgrade(s).0))
  {
  }
}
