# XID contract: identity ledger, binding protocols and signature check

This project models the core of the XID contract, two Internet Computer
canisters written in Rust, and proves properties of the model in Dafny.

- **XID canister** (`crates/xid`). One owner binds several external identities
  (`ID`: platform, identity, bind time) to one record. It keeps a main identity
  and the bound set, a single pending ticket for host-principal binding, and
  two content stores keyed by uuid. The handlers are `changeMainId`,
  `unboundId`, `verifyIcPre`, `verifyIcPost`, `verifyID`, `uploadStore`,
  `deleteStore`, `setMintStatus`, `getStoreList`, `getStoreByUuid` and the
  avatar route of `http_request`. The upgrade hooks copy the whole state to a
  snapshot and back.
- **Verify canister** (`crates/verify`). `msg_in` decodes a signed JSON binding
  message, consumes its uuid in a replay guard, builds the Ethereum
  "personal_sign" digest (EIP-191 version 0x45) of the raw text, and checks the
  signature. `verify` gates on a 32-byte digest and a 64-byte compact
  signature, then reads the public-key field by its length: 65 bytes is an
  uncompressed SEC 1 point (section 2.3.3 of SEC 1 v2), 64 is raw x‖y, 33 is
  compressed, and 1 is a recovery id.

Each handler is one pure state transition (`Binding`, `Stores`,
`VerifyCanister`). Everything the handler learns from outside is a parameter:

- the caller's principal text;
- the time, as its decimal text;
- `Principal::from_text`;
- the outcome of every inter-canister call: a reply, or a transport failure.

Every request a handler sends is recorded in its `Step`. The foreign
libraries enter as uninterpreted function-valued parameters, and nothing is
assumed about them:

- secp256k1 parsing, recovery and verification (`SigVerify.Curve`);
- Keccak-256, base64 and `serde_json` (`VerifyCanister.Codecs`).

What is verified is the branching, the ordering and the state effects around
these functions.

Modelling choices:

- `ID` equality and order look only at `platform + identity`, so the bound
  `BTreeSet<ID>` is a map from that joined key to the element stored under it
  (`Identity.IdSet`). The aliasing this allows is kept:
  `("ab","c")` equals `("a","bc")`.
- `String` order is code-point lexicographic (`Lex.Cmp`). This is the same
  order as Rust's byte-wise comparison, because UTF-8 preserves code-point
  order. `BTreeMap` iteration order is `Lex.KeyOrder`.
- The JSON text and the signature text of `MsgIn` are modelled as their UTF-8
  bytes. `payload.len()` is their byte length.
- A guard (`is_authorized`, `is_ic_authorized`) that refuses a call is a
  `Rejected` reply with the state unchanged. A panic is `Trapped`, with the
  state changes of that call discarded, as the runtime does.
- A callee that rejects or traps looks like a transport failure to the caller
  (`Results.Deliver`).

Behaviour of the code worth knowing:

- A caller whose text differs from the pending ticket is refused by the
  `is_ic_authorized` guard (crates/xid/src/lib.rs:576-584) before
  `verifyIcPost` runs, so the ticket stays and no `VerifyErr` is returned
  (`Scenarios.WrongPrincipalKeepsTicket`). Once the guard has passed, the
  handler's own parse and comparison cannot fail for a principal text that
  parses back to itself (`Binding.TicketChecksFollowGuard`).
- The host-principal platform string is `"ic"`.
- The local bind (`BTreeSet::insert`, crates/xid/src/lib.rs:353) never fails
  on a duplicate. An equal entry already bound is
  kept, together with its bind time. Only the registry's `IDExist` answer
  reports a duplicate.
- A transport failure of `putID` still binds locally, and a transport failure
  of `msg_in` binds the empty default payload (crates/xid/src/lib.rs:362-374).
  A local bind therefore follows every registry outcome except a refusal the
  registry actually sends.

## Model

| member | source | states |
|---|---|---|
| Lex.Cmp | crates/xid/src/types.rs:57 | the `String::cmp` both `ID` comparisons use: a prefix sorts before its longer extensions, and only strings of one length compare `Equal` |
| Lex.CmpEqualIff | crates/xid/src/types.rs:56-58 | string `cmp` answers `Equal` exactly for identical strings |
| Lex.CmpAntisymmetric | crates/xid/src/types.rs:56-58 | swapping the two strings reverses the answer of `cmp` |
| Lex.BelowTransitive | crates/xid/src/types.rs:56-58 | the strict string order is transitive |
| Lex.KeyOrder | crates/xid/src/lib.rs:98-101 | B-tree iteration visits every key exactly once, in strictly ascending order |
| Identity.Eq | crates/xid/src/types.rs:45-49 | `eq` is reflexive, equal `ID`s have equal joined lengths, and with a shared identity it is plain platform equality |
| Identity.PartialCmp | crates/xid/src/types.rs:50-54 | `partial_cmp` always answers, and answers `Equal` exactly for `eq` elements |
| Identity.IdCmp | crates/xid/src/types.rs:55-59 | `cmp` answers `Equal` exactly for `eq` elements |
| Identity.BindTimeIgnored | crates/xid/src/types.rs:45-59 | changing either bind time changes neither `eq` nor `cmp` |
| Identity.SamePlatformEq | crates/xid/src/types.rs:47 | for equal platforms, `eq` holds iff the identities are equal |
| Identity.AliasNeedsPrefixPlatform | crates/xid/src/types.rs:47 | equal `ID`s with different platforms have one platform a proper prefix of the other |
| Identity.AliasExample | crates/xid/src/types.rs:47 | ("ab","c") and ("a","bc") are `eq` though they are different records |
| Identity.CmpAgreesWithEq | crates/xid/src/types.rs:50-59 | `cmp` is `Equal` iff `eq`, reverses under swap, and `partial_cmp` is always `Some(cmp)` |
| Identity.OnePerKey | crates/xid/src/types.rs:169 | the bound set holds at most one element per joined key, and that element is found by any equal `ID` |
| Identity.Insert | crates/xid/src/lib.rs:353 | insert keeps an existing equal element untouched, otherwise adds exactly `x`; membership afterwards is old membership or equal to `x` |
| Identity.Remove | crates/xid/src/lib.rs:245-249 | remove drops exactly the elements equal to `x`, keeps all others, and shrinks the set by one when `x` was present |
| SigVerify.ParseRecoveryId | crates/verify/src/lib.rs:129-132 | a recovery byte is accepted iff it is below 4 |
| SigVerify.ResolveKey | crates/verify/src/lib.rs:113-139 | a key is produced only for a field of 65, 64, 33 or 1 bytes, and never for a recovery byte of 4 or more |
| SigVerify.Verify | crates/verify/src/lib.rs:100-141 | false when the message is not 32 bytes, the signature not 64 bytes, either fails to parse, the key field has another length, or a recovery byte is 4 or more |
| SigVerify.KeyFieldDispatch | crates/verify/src/lib.rs:113-141 | after the gates pass, a 65/64/33-byte field is parsed as Full/Raw/Compressed and a 1-byte field is used for recovery; the answer is the library check on that key |
| SigVerify.VerifyMeansAccepts | crates/verify/src/lib.rs:100-141 | `verify` is true iff the inputs are right-sized and parse and some key the field denotes passes the library check |
| SigVerify.Decimal | crates/verify/src/lib.rs:145 | the length is rendered as non-empty ASCII digits without a leading zero |
| SigVerify.DecimalRoundTrip | crates/verify/src/lib.rs:145 | the rendered digits read back as the number |
| SigVerify.HashKeccak256 | crates/verify/src/lib.rs:144-149 | the digest is the Keccak-256 parameter applied to the 26-byte prefix, the decimal byte length and the payload, in that order |
| SigVerify.Preimage | crates/verify/src/lib.rs:144-149 | what `hash_keccak256` hands to Keccak-256: the preimage is the 26-byte prefix, then the payload's byte length in decimal, then the payload |
| SigVerify.PreimageInjective | crates/verify/src/lib.rs:145 | distinct payloads never share a preimage |
| VerifyCanister.CheckAndConsume | crates/verify/src/lib.rs:72-81 | a uuid passes iff it is not yet in the set, and is in the set afterwards |
| VerifyCanister.ConsumeOnce | crates/verify/src/lib.rs:72-81 | checking the same uuid twice never passes the second time |
| VerifyCanister.MsgIn | crates/verify/src/lib.rs:65-97 | bad JSON gives `MsgDecodeErr` and a seen uuid gives `ReplayErr`, both with no change; otherwise the uuid is consumed unless the call traps; the set never shrinks; `Ok` carries the decoded payload of a fresh uuid |
| VerifyCanister.MsgInSignatureCheck | crates/verify/src/lib.rs:82-96 | after a fresh uuid: undecodable signature gives `SigDecoErr`; fewer than 64 bytes traps; otherwise `Ok` iff `verify` accepts the digest, the first 64 bytes and the trusted key, read as compressed; else `VerifyErr` |
| VerifyCanister.ReplayRefused | crates/verify/src/lib.rs:72-81 | after a call that decoded and did not trap, any message with the same uuid is `ReplayErr` with no change |
| VerifyCanister.DoClear | crates/verify/src/lib.rs:152-156 | the wipe empties the uuid set |
| VerifyCanister.PreUpgrade | crates/verify/src/lib.rs:158-164 | the snapshot holds the uuid set and leaves an empty one behind |
| VerifyCanister.PostUpgrade | crates/verify/src/lib.rs:166-175 | after restore the set is exactly the saved set |
| VerifyCanister.UpgradeRoundTrip | crates/verify/src/lib.rs:158-175 | restoring a snapshot gives back the saved state, whatever state it is restored into |
| XidTypes.Authorize | crates/xid/src/lib.rs:566-584 | the check both guards make: `Ok(())` exactly when the caller's text is the expected text, otherwise `Err("Caller is not authorized")` |
| XidTypes.IsAuthorized | crates/xid/src/lib.rs:566-574 | the owner guard passes exactly when the caller's text is `pub_key` |
| XidTypes.IsIcAuthorized | crates/xid/src/lib.rs:576-584 | the host-principal guard passes exactly when the caller's text is the pending `ic_verify` ticket |
| XidTypes.Init | crates/xid/src/lib.rs:24-30 | the owner is set, the main identity is the empty sentinel, nothing is bound, the invariant holds |
| XidTypes.DoClear | crates/xid/src/lib.rs:586-596 | every field is emptied except the main identity and the avatar |
| XidTypes.DoClearOrphansMain | crates/xid/src/lib.rs:586-596 | after `do_clear` the ledger invariant holds exactly when no main identity was set, because `main_id` is kept while `ids` is emptied |
| XidTypes.PreUpgrade | crates/xid/src/lib.rs:598-612 | the snapshot carries all nine fields and leaves the default state behind |
| XidTypes.PostUpgrade | crates/xid/src/lib.rs:614-631 | every one of the nine fields is replaced from the snapshot |
| XidTypes.UpgradeRoundTrip | crates/xid/src/lib.rs:598-631 | save then restore gives back the state exactly, whatever is in between, so the invariant survives |
| Binding.PutErrorOf | crates/xid/src/lib.rs:393-401 | registry `IDExist`/`XidNotExist` map to the same-named error, every other kind to `XidCNoNameErr` |
| Binding.DeleteErrorOf | crates/xid/src/lib.rs:270-278 | registry `IDNotExist`/`XidNotExist` map to the same-named error, every other kind to `XidCNoNameErr` |
| Binding.Commit | crates/xid/src/lib.rs:405-412 | the id becomes bound (an equal entry is kept), becomes main only when the main identity is unset, nothing else changes, and the invariant is kept |
| Binding.ChangeMainId | crates/xid/src/lib.rs:219-230 | for the owner: succeeds iff `arg` is bound, then main is `arg` as passed; otherwise `IDNotExist` with no change; the bound set never changes |
| Binding.UnboundId | crates/xid/src/lib.rs:232-286 | unbound `arg`: `IDNotExist`, no change, no request; bound: removed locally, main reset to empty iff equal to `arg`, `deleteID(arg)` sent, refusals mapped but not rolled back, transport failure reported as success |
| Binding.VerifyIcPre | crates/xid/src/lib.rs:289-296 | the owner's call overwrites the ticket and returns true |
| Binding.VerifyIcPost | crates/xid/src/lib.rs:299-356 | admitted only when the caller text equals the ticket; the ticket is then spent on every path; parse failure gives `IcPrincipalErr`, mismatch `VerifyErr`; else `putID("ic", ticket)` and a commit unless the registry refuses |
| Binding.PayloadOf | crates/xid/src/lib.rs:362-374 | the verifier's payload, or the empty default payload on transport failure |
| Binding.VerifyId | crates/xid/src/lib.rs:358-414 | a verifier error is returned as is with no registry request; else `putID` of the payload's identity and a commit unless the registry refuses, in which case nothing changes |
| Binding.ChangeMainIdKeepsInvariant | crates/xid/src/lib.rs:221-230 | main is unset or bound, before and after `changeMainId` |
| Binding.UnboundIdKeepsInvariant | crates/xid/src/lib.rs:234-254 | main is unset or bound, before and after `unboundId` |
| Binding.VerifyIcPreKeepsInvariant | crates/xid/src/lib.rs:291-296 | main is unset or bound, before and after `verifyIcPre` |
| Binding.VerifyIcPostKeepsInvariant | crates/xid/src/lib.rs:347-355 | main is unset or bound, before and after `verifyIcPost` |
| Binding.VerifyIdKeepsInvariant | crates/xid/src/lib.rs:405-412 | main is unset or bound, before and after `verifyID` |
| Binding.GuardDecidesRejection | crates/xid/src/lib.rs:566-584 | each ledger handler is rejected exactly when its guard refuses the caller, with the guard's message; a caller the guard passes always gets the handler's own reply |
| Binding.UnbindMainLeavesNoMain | crates/xid/src/lib.rs:237-250 | unbinding the main identity leaves main empty and keeps every other member bound; no promotion |
| Binding.UnbindIgnoresRegistry | crates/xid/src/lib.rs:255-283 | the state after `unboundId` and the requests sent are the same for every registry outcome |
| Binding.BindWaitsForRegistry | crates/xid/src/lib.rs:385-404 | when the registry refuses, `verifyID` changes nothing and `verifyIcPost` leaves the bound set and main unchanged |
| Binding.VerifierFailureBindsEmptyIdentity | crates/xid/src/lib.rs:362-374 | with the verifier unreachable and no registry refusal, the empty identity ("","") is bound |
| Binding.TicketSingleUse | crates/xid/src/lib.rs:302-307 | after one confirmation, the same principal calling again is refused by the guard with no change |
| Binding.TicketChecksFollowGuard | crates/xid/src/lib.rs:313-316 | once the guard passed and the caller text parses to itself, neither `IcPrincipalErr` nor `VerifyErr` is possible and `putID("ic", caller)` is sent |
| Binding.RebindKeepsFirst | crates/xid/src/lib.rs:405-412 | binding an equal id again keeps the first entry and its bind time |
| Binding.AliasedUnbind | crates/xid/src/lib.rs:255-266 | unbinding ("a","bc") removes a bound ("ab","c") and asks the registry to delete ("a","bc") |
| Stores.Add | crates/xid/src/lib.rs:453-465 | a used uuid is `UuidRepeat`; otherwise exactly one entry is added and the others are kept |
| Stores.Delete | crates/xid/src/lib.rs:496-503 | succeeds iff the uuid is present, removing exactly that entry; otherwise `UuidNotExist` |
| Stores.Mint | crates/xid/src/lib.rs:527-541 | succeeds iff the uuid is present; the entry becomes minted at `now` with owner, uuid, content, platform and upload time kept, and other entries untouched |
| Stores.AddThenDelete | crates/xid/src/lib.rs:447-518 | deleting a just-uploaded uuid restores the store |
| Stores.MintTwice | crates/xid/src/lib.rs:520-564 | minting twice equals minting once at the later time |
| Stores.Fresh | crates/xid/src/lib.rs:456-464 | a new upload is owned by the canister owner, not minted, with an empty mint time |
| Stores.UploadStore | crates/xid/src/lib.rs:445-487 | only the store of the content's kind changes: `UuidRepeat` with no change, or one fresh entry added |
| Stores.DeleteStore | crates/xid/src/lib.rs:489-518 | only the selected store changes: the entry is removed, or `UuidNotExist` with no change |
| Stores.SetMintStatus | crates/xid/src/lib.rs:520-564 | only the selected store changes: the entry is minted, or `UuidNotExist` with no change |
| Stores.StoreGuardDecidesRejection | crates/xid/src/lib.rs:566-574 | upload, delete and mint are rejected exactly when the owner guard refuses the caller, with the guard's message |
| Stores.StoreHandlersKeepKeying | crates/xid/src/lib.rs:447-564 | upload, delete and mint keep every entry filed under its own uuid |
| Stores.TwitterListing | crates/xid/src/lib.rs:98-113 | the Twitter entries as listing records, in ascending uuid order |
| Stores.OffChainListing | crates/xid/src/lib.rs:131-146 | the OffChain entries as listing records, in ascending uuid order |
| Stores.Scan | crates/xid/src/lib.rs:102-115 | the position-counter loop of both listings (also lines 135-148): never more entries than there are, and none for an empty window |
| Stores.ScanPast | crates/xid/src/lib.rs:102-115 | positions past the window are never pushed |
| Stores.ScanInside | crates/xid/src/lib.rs:102-115 | from inside the window the loop pushes every entry up to the window's end |
| Stores.ScanBefore | crates/xid/src/lib.rs:102-115 | from before the window the loop skips up to its start, then pushes up to its end |
| Stores.ScanIsSlice | crates/xid/src/lib.rs:102-115 | the listing loop keeps exactly the contiguous run of positions `[lo, hi)` that exist |
| Stores.Page | crates/xid/src/lib.rs:87-116 | `start` past the end gives `FieldOutOfRange`; otherwise `min(offset, len - start)` entries from position `start`, in order |
| Stores.GetStoreList | crates/xid/src/lib.rs:81-154 | the Twitter branch is `Page` of the Twitter listing; the OffChain branch errs iff `start` is past its own store |
| Stores.TwitterListingWindow | crates/xid/src/lib.rs:86-117 | the Twitter result has `min(offset, len - start)` entries, the ones at key-order positions from `start` |
| Stores.PageCutBy | crates/xid/src/lib.rs:119-151 | the OffChain paging: `FieldOutOfRange` past the OffChain store, a trap when the Twitter length is below `start`, and otherwise the run from `start` cut by the Twitter length |
| Stores.OffChainListingAsWritten | crates/xid/src/lib.rs:119-151 | the OffChain result is the run from `start` cut by a count from the Twitter length; it traps when that length is below `start` |
| Stores.OffChainListingCounterexample | crates/xid/src/lib.rs:124-125 | with no Twitter entry and one OffChain entry, asking for one entry from 0 returns none |
| Stores.GetStoreListIntended | crates/xid/src/lib.rs:86-117 | both kinds paged by their own store: `min(offset, len - start)` entries from `start` |
| Stores.IntendedListingFixesCounterexample | crates/xid/src/lib.rs:119-151 | the corrected listing returns the one OffChain entry and agrees with the source on Twitter |
| Stores.Lookup | crates/xid/src/lib.rs:164-196 | a probe finds an entry iff its uuid is in the store of its kind, and returns that entry |
| Stores.GetStoreByUuid | crates/xid/src/lib.rs:156-202 | at most one result per probe; all present gives results aligned with the probes; none present gives nothing |
| Stores.ByUuidConcat | crates/xid/src/lib.rs:163-198 | the answer for a concatenated probe list is the concatenation of the answers |
| Stores.MissingSkipped | crates/xid/src/lib.rs:178 | a probe for a missing uuid contributes nothing wherever it stands |
| HttpRoute.SplitLastEmpty | crates/xid/src/lib.rs:208 | the last piece of `split` is empty exactly when the URL is empty or ends with the separator |
| HttpRoute.SplitTerminator | crates/xid/src/lib.rs:208 | `split_terminator` is `split` without its last piece when the URL is empty or ends with the separator, and `split` otherwise; no piece holds the separator |
| HttpRoute.IsAvatarRoute | crates/xid/src/lib.rs:208-210 | the route test, restated on plain `split`: three pieces with "avatar" second and a non-empty third, or four with an empty fourth |
| HttpRoute.Split | crates/xid/src/lib.rs:208 | splitting gives at least one piece and no piece holds the separator |
| HttpRoute.JoinSplit | crates/xid/src/lib.rs:208 | joining the pieces with the separator gives back the URL |
| HttpRoute.SplitJoin | crates/xid/src/lib.rs:208 | splitting a join of separator-free pieces gives back the pieces |
| HttpRoute.HttpRequest | crates/xid/src/lib.rs:204-217 | the avatar is served iff the URL is on the avatar route, with the stored bytes and type |
| HttpRoute.AvatarRouteShape | crates/xid/src/lib.rs:208-213 | every accepted URL is `a/avatar/b` with `b` non-empty, or `a/avatar/b/`, with no slash in `a`, `b` |
| HttpRoute.AvatarRouteAccepts | crates/xid/src/lib.rs:208-213 | every URL of that shape is accepted |
| HttpRoute.AvatarRouteRejects | crates/xid/src/lib.rs:208-215 | `a/avatar/` and the deeper `a/avatar/b/c` get the not-found page |
| Scenarios.FreshEnvelopeBinds | crates/xid/src/lib.rs:358-414 | a fresh signed envelope the registry does not refuse is bound, and becomes main when main was unset |
| Scenarios.ReplayedEnvelopeNeverReachesRegistry | crates/xid/src/lib.rs:363-374 | resubmitting a consumed uuid gives `ReplayErr` before any registry request, with the ledger untouched |
| Scenarios.ShortSignatureBindsEmptyIdentity | crates/verify/src/lib.rs:85-92 | a signature decoding to fewer than 64 bytes traps the verifier, and `verifyID` then binds ("","") |
| Scenarios.HostPrincipalBinds | crates/xid/src/lib.rs:289-356 | ticket filed, then confirmed by that principal, binds ("ic", ticket) and spends the ticket |
| Scenarios.WrongPrincipalKeepsTicket | crates/xid/src/lib.rs:576-584 | a different principal is refused by the guard, the ticket stays, and the right principal still succeeds |

## Left out

- secp256k1 (`Message::parse_slice`, `Signature::parse_standard_slice`, `PublicKey::parse_slice`, `recover`, `verify`), Keccak-256, base64 and `serde_json` are foreign libraries. They are uninterpreted parameters, so the model proves nothing about signature soundness or about a single-bit change in a message, signature or key.
- `RecoveryId::parse` is modelled as accepting the bytes 0 to 3, which is the rule of the secp256k1 library.
- `Principal::from_text`, `caller()` and `ic_cdk::api::time()` become parameters. The time is passed as its decimal text.
- Inter-canister transport becomes a `CallOutcome` parameter. The hard-coded canister ids of the registry and the verifier are not modelled.
- Interleaving of other calls at the `.await` points is not modelled. Each handler is one atomic transition given its call outcomes.
- `msg_in` is a query method. Its uuid insert is modelled as persistent, as the code expresses it.
- `getVersion`, `getCycleBalance`, `getXid`, `getMainId` and `getStoreSize` are plain reads with nothing to prove. `setXid` and `uploadAvatar` are unconditional field overwrites.
- The candid stable-memory encoding is not modelled. A failed `stable_save` or `stable_restore`, which panics through `expect`, is not modelled either: the snapshot is a plain value.
- crates/xid/src/http.rs (fixed response builders and streaming types), crates/xid/src/verify.rs (duplicate type declarations) and `rc_bytes` are not part of this model. The route test of `http_request` is modelled.
- Stores.GetStoreList: `start + offset` cannot overflow on `nat`. The OffChain `usize` underflow (Twitter length below `start`) is modelled as a trap, which is what a build with overflow checks does. The release-build wrap-around is not modelled.

## Findings

| source | as written | input that shows it | evidently intended | confidence | as-written member | corrected member |
|---|---|---|---|---|---|---|
| crates/xid/src/lib.rs:124-125 | the OffChain branch of `getStoreList` cuts the count with `twitter_store.len()` | no Twitter entry, one OffChain entry "u", `start = 0`, `offset = 1`: the result is empty | cut the count with `off_store.len()`, as the Twitter branch does with its own store, returning `min(offset, len - start)` entries | high (not executed) | Stores.OffChainListingCounterexample | Stores.GetStoreListIntended |
