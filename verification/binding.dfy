/** The identity-ledger handlers of the XID canister: `changeMainId`,
    `unboundId`, `verifyIcPre`, `verifyIcPost` and `verifyID`. Each is one
    atomic transition; whatever it learns from outside (the caller's
    principal text, the time, principal parsing, and the outcome of every
    inter-canister call) is a parameter, and every request it sends is
    recorded in the step. */
module Binding {
  import opened Results
  import opened Identity
  import opened XidTypes
  import V = VerifyCanister

  /** The outcome of `putID` / `deleteID` on the registry. */
  type RegistryOutcome = CallOutcome<Result<(), XidCenterError>>

  /** The outcome of `msg_in` on the verify canister. */
  type VerifierOutcome = CallOutcome<Result<V.Payload, V.VerifyError>>

  /** How a `putID` refusal is reported. */
  function PutErrorOf(e: XidCenterError): (r: V.VerifyError)
    ensures r == V.VerifyError.IDExist <==> e == XidCenterError.IDExist
    ensures r == V.VerifyError.XidNotExist <==> e == XidCenterError.XidNotExist
    ensures r in {V.VerifyError.IDExist, V.VerifyError.XidNotExist, V.VerifyError.XidCNoNameErr}
  {
    match e
    case IDExist => V.VerifyError.IDExist
    case XidNotExist => V.VerifyError.XidNotExist
    case _ => V.VerifyError.XidCNoNameErr
  }

  /** How a `deleteID` refusal is reported. */
  function DeleteErrorOf(e: XidCenterError): (r: XidError)
    ensures r == XidError.IDNotExist <==> e == XidCenterError.IDNotExist
    ensures r == XidError.XidNotExist <==> e == XidCenterError.XidNotExist
    ensures r in {XidError.IDNotExist, XidError.XidNotExist, XidError.XidCNoNameErr}
  {
    match e
    case IDNotExist => XidError.IDNotExist
    case XidNotExist => XidError.XidNotExist
    case _ => XidError.XidCNoNameErr
  }

  /** The registry refused the request (as opposed to accepting it or the
      call failing in transport). */
  predicate Refuses(registry: RegistryOutcome) {
    registry.Delivered? && registry.value.Err?
  }

  /** The local half of a bind: `id` joins the bound set (an equal entry
      already there stays, with its own bind time), and becomes the main
      identity only if the main identity is unset. */
  function Commit(s: State, id: ID): (r: State)
    ensures Contains(r.ids, id)
    ensures forall y :: Contains(r.ids, y) <==> Contains(s.ids, y) || Eq(y, id)
    ensures Contains(s.ids, id) ==> r.ids == s.ids
    ensures r.mainId == (if s.mainId.identity == "" then id else s.mainId)
    ensures r == s.(mainId := r.mainId, ids := r.ids)
    ensures LedgerInvariant(s) ==> LedgerInvariant(r)
  {
    var main := if s.mainId.identity == "" then id else s.mainId;
    s.(mainId := main, ids := Insert(s.ids, id))
  }

  /** `changeMainId`: a bound identity (up to key equality) becomes the main
      identity exactly as the caller passed it, bind time included; the
      bound set never changes. */
  function ChangeMainId(s: State, caller: string, arg: ID): (r: Step<Result<XidResponse, XidError>>)
    ensures !IsAuthorized(s, caller) ==> r == Refused(s)
    ensures IsAuthorized(s, caller) ==>
      && r.reply.Replied? && r.sent == [] && r.post.ids == s.ids
      && (r.reply.value.Ok? <==> Contains(s.ids, arg))
    ensures IsAuthorized(s, caller) && Contains(s.ids, arg) ==>
      r.reply.value == Ok(ChangeIdOk) && r.post == s.(mainId := arg)
    ensures IsAuthorized(s, caller) && !Contains(s.ids, arg) ==>
      r.reply.value == Err(XidError.IDNotExist) && r.post == s
  {
    if !IsAuthorized(s, caller) then Refused(s)
    else if Contains(s.ids, arg) then Step(Replied(Ok(ChangeIdOk)), s.(mainId := arg), [])
    else Step(Replied(Err(XidError.IDNotExist)), s, [])
  }

  /** `unboundId`. The local removal happens first and is kept whatever the
      registry answers: a refusal is reported but not rolled back, and a
      failed call still reports success. A main identity equal to `arg` is
      reset to the empty sentinel; no other member is promoted. The delete
      request names `arg`'s own platform and identity. */
  function UnboundId(s: State, caller: string, arg: ID, registry: RegistryOutcome)
    : (r: Step<Result<XidResponse, XidError>>)
    ensures !IsAuthorized(s, caller) ==> r == Refused(s)
    ensures IsAuthorized(s, caller) && !Contains(s.ids, arg) ==>
      r == Step(Replied(Err(XidError.IDNotExist)), s, [])
    ensures IsAuthorized(s, caller) && Contains(s.ids, arg) ==>
      && r.sent == [DeleteId(SimpleId(arg.platform, arg.identity))]
      && r.post.ids == Remove(s.ids, arg)
      && r.post.mainId == (if Eq(s.mainId, arg) then Empty else s.mainId)
      && r.post == s.(ids := r.post.ids, mainId := r.post.mainId)
      && (Refuses(registry) ==> r.reply == Replied(Err(DeleteErrorOf(registry.value.error))))
      && (!Refuses(registry) ==> r.reply == Replied(Ok(ChangeIdOk)))
  {
    if !IsAuthorized(s, caller) then Refused(s)
    else if !Contains(s.ids, arg) then Step(Replied(Err(XidError.IDNotExist)), s, [])
    else
      var main := if Eq(s.mainId, arg) then Empty else s.mainId;
      var post := s.(mainId := main, ids := Remove(s.ids, arg));
      var reply := if Refuses(registry) then Err(DeleteErrorOf(registry.value.error)) else Ok(ChangeIdOk);
      Step(Replied(reply), post, [DeleteId(SimpleId(arg.platform, arg.identity))])
  }

  /** `verifyIcPre`: the owner records the principal text expected to
      confirm, replacing any earlier ticket. */
  function VerifyIcPre(s: State, caller: string, ticket: string): (r: Step<bool>)
    ensures !IsAuthorized(s, caller) ==> r == Refused(s)
    ensures IsAuthorized(s, caller) ==> r == Step(Replied(true), s.(icVerify := ticket), [])
  {
    if !IsAuthorized(s, caller) then Refused(s)
    else Step(Replied(true), s.(icVerify := ticket), [])
  }

  /** `verifyIcPost`, run by the principal named in the ticket. The ticket is
      cleared before anything is checked, so it is spent whatever the
      outcome. `fromText` is `Principal::from_text`, giving the canonical
      text of the parsed principal. */
  function VerifyIcPost(s: State, caller: string, fromText: string -> Option<string>,
                        registry: RegistryOutcome, now: string)
    : (r: Step<Result<XidResponse, V.VerifyError>>)
    ensures !IsIcAuthorized(s, caller) ==> r == Refused(s)
    ensures IsIcAuthorized(s, caller) ==> r.reply.Replied? && r.post.icVerify == ""
    ensures IsIcAuthorized(s, caller) && fromText(s.icVerify).None? ==>
      r == Step(Replied(Err(V.VerifyError.IcPrincipalErr)), s.(icVerify := ""), [])
    ensures IsIcAuthorized(s, caller) && fromText(s.icVerify).Some? && fromText(s.icVerify).value != caller ==>
      r == Step(Replied(Err(V.VerifyError.VerifyErr)), s.(icVerify := ""), [])
    ensures IsIcAuthorized(s, caller) && fromText(s.icVerify) == Some(caller) ==>
      && r.sent == [PutId(SimpleId("ic", s.icVerify))]
      && (Refuses(registry) ==>
            r.reply.value == Err(PutErrorOf(registry.value.error)) && r.post == s.(icVerify := ""))
      && (!Refuses(registry) ==>
            r.reply.value == Ok(VerifyOk) && r.post == Commit(s.(icVerify := ""), ID("ic", s.icVerify, now)))
  {
    if !IsIcAuthorized(s, caller) then Refused(s)
    else
      var ticket := s.icVerify;
      var spent := s.(icVerify := "");
      match fromText(ticket)
      case None => Step(Replied(Err(V.VerifyError.IcPrincipalErr)), spent, [])
      case Some(p) =>
        if p != caller then Step(Replied(Err(V.VerifyError.VerifyErr)), spent, [])
        else
          var sent := [PutId(SimpleId("ic", ticket))];
          if Refuses(registry) then Step(Replied(Err(PutErrorOf(registry.value.error))), spent, sent)
          else Step(Replied(Ok(VerifyOk)), Commit(spent, ID("ic", ticket, now)), sent)
  }

  /** The payload `verifyID` binds: the verifier's, or the empty default when
      the call to the verifier failed in transport. */
  function PayloadOf(verifier: VerifierOutcome): (p: V.Payload)
    requires !(verifier.Delivered? && verifier.value.Err?)
    ensures verifier.Delivered? ==> p == verifier.value.value
    ensures verifier.TransportFailed? ==> p == V.EmptyPayload
  {
    if verifier.Delivered? then verifier.value.value else V.EmptyPayload
  }

  /** `verifyID`: the owner relays a signed message. A verifier error is
      returned as it is, before the registry is asked; otherwise the
      identity the payload names is put to the registry and bound locally
      unless the registry refuses. */
  function VerifyId(s: State, caller: string, msg: V.MsgInArg, verifier: VerifierOutcome,
                    registry: RegistryOutcome, now: string)
    : (r: Step<Result<XidResponse, V.VerifyError>>)
    ensures !IsAuthorized(s, caller) ==> r == Refused(s)
    ensures IsAuthorized(s, caller) && verifier.Delivered? && verifier.value.Err? ==>
      r == Step(Replied(Err(verifier.value.error)), s, [MsgInCall(msg)])
    ensures IsAuthorized(s, caller) && !(verifier.Delivered? && verifier.value.Err?) ==>
      var p := PayloadOf(verifier);
      && r.sent == [MsgInCall(msg), PutId(SimpleId(p.platform, p.identity))]
      && (Refuses(registry) ==> r.reply == Replied(Err(PutErrorOf(registry.value.error))) && r.post == s)
      && (!Refuses(registry) ==>
            r.reply == Replied(Ok(VerifyOk)) && r.post == Commit(s, ID(p.platform, p.identity, now)))
  {
    if !IsAuthorized(s, caller) then Refused(s)
    else if verifier.Delivered? && verifier.value.Err? then
      Step(Replied(Err(verifier.value.error)), s, [MsgInCall(msg)])
    else
      var p := PayloadOf(verifier);
      var sent := [MsgInCall(msg), PutId(SimpleId(p.platform, p.identity))];
      if Refuses(registry) then Step(Replied(Err(PutErrorOf(registry.value.error))), s, sent)
      else Step(Replied(Ok(VerifyOk)), Commit(s, ID(p.platform, p.identity, now)), sent)
  }

  // ---- properties over all inputs ---------------------------------------

  /** The main-identity invariant survives every handler, for every caller,
      every external outcome and every argument. */
  lemma ChangeMainIdKeepsInvariant(s: State, caller: string, arg: ID)
    requires LedgerInvariant(s)
    ensures LedgerInvariant(ChangeMainId(s, caller, arg).post)
  {
  }

  lemma UnboundIdKeepsInvariant(s: State, caller: string, arg: ID, registry: RegistryOutcome)
    requires LedgerInvariant(s)
    ensures LedgerInvariant(UnboundId(s, caller, arg, registry).post)
  {
  }

  lemma VerifyIcPreKeepsInvariant(s: State, caller: string, ticket: string)
    requires LedgerInvariant(s)
    ensures LedgerInvariant(VerifyIcPre(s, caller, ticket).post)
  {
  }

  lemma VerifyIcPostKeepsInvariant(s: State, caller: string, fromText: string -> Option<string>,
                                   registry: RegistryOutcome, now: string)
    requires LedgerInvariant(s)
    ensures LedgerInvariant(VerifyIcPost(s, caller, fromText, registry, now).post)
  {
  }

  lemma VerifyIdKeepsInvariant(s: State, caller: string, msg: V.MsgInArg, verifier: VerifierOutcome,
                               registry: RegistryOutcome, now: string)
    requires LedgerInvariant(s)
    ensures LedgerInvariant(VerifyId(s, caller, msg, verifier, registry, now).post)
  {
  }

  /** A handler is rejected exactly when its guard refuses the caller, with
      the guard's own message, and a caller the guard passes always gets a
      reply from the handler itself. */
  lemma GuardDecidesRejection(s: State, caller: string, arg: ID, ticket: string,
                              fromText: string -> Option<string>, msg: V.MsgInArg,
                              verifier: VerifierOutcome, registry: RegistryOutcome, now: string)
    ensures var g := Authorize(s.pubKey, caller);
      && (ChangeMainId(s, caller, arg).reply.Rejected? <==> g.Err?)
      && (UnboundId(s, caller, arg, registry).reply.Rejected? <==> g.Err?)
      && (VerifyIcPre(s, caller, ticket).reply.Rejected? <==> g.Err?)
      && (VerifyId(s, caller, msg, verifier, registry, now).reply.Rejected? <==> g.Err?)
      && (g.Err? ==> ChangeMainId(s, caller, arg).reply == Rejected(g.error))
    ensures var g := Authorize(s.icVerify, caller);
      && (VerifyIcPost(s, caller, fromText, registry, now).reply.Rejected? <==> g.Err?)
      && (g.Err? ==> VerifyIcPost(s, caller, fromText, registry, now).reply == Rejected(g.error))
  {
  }

  /** No auto-promotion: unbinding the main identity leaves the main
      identity empty even when other identities remain bound. */
  lemma UnbindMainLeavesNoMain(s: State, caller: string, registry: RegistryOutcome)
    requires IsAuthorized(s, caller) && Contains(s.ids, s.mainId)
    ensures var post := UnboundId(s, caller, s.mainId, registry).post;
      && post.mainId == Empty
      && !Contains(post.ids, s.mainId)
      && (forall y :: Contains(s.ids, y) && !Eq(y, s.mainId) ==> Contains(post.ids, y))
  {
  }

  /** Unbind does not roll back: the state after the call is the same for
      every registry outcome. */
  lemma UnbindIgnoresRegistry(s: State, caller: string, arg: ID, a: RegistryOutcome, b: RegistryOutcome)
    ensures UnboundId(s, caller, arg, a).post == UnboundId(s, caller, arg, b).post
    ensures UnboundId(s, caller, arg, a).sent == UnboundId(s, caller, arg, b).sent
  {
  }

  /** Bind commits only after the registry: when the registry refuses,
      `verifyID` leaves the state exactly as it was, and `verifyIcPost`
      changes nothing but the spent ticket. */
  lemma BindWaitsForRegistry(s: State, caller: string, msg: V.MsgInArg, verifier: VerifierOutcome,
                             fromText: string -> Option<string>, registry: RegistryOutcome, now: string)
    requires Refuses(registry)
    ensures VerifyId(s, caller, msg, verifier, registry, now).post == s
    ensures VerifyIcPost(s, caller, fromText, registry, now).post.ids == s.ids
    ensures VerifyIcPost(s, caller, fromText, registry, now).post.mainId == s.mainId
  {
  }

  /** With the verifier unreachable and the registry not refusing,
      `verifyID` binds the empty default payload's identity ("", ""). */
  lemma VerifierFailureBindsEmptyIdentity(s: State, caller: string, msg: V.MsgInArg,
                                          registry: RegistryOutcome, now: string)
    requires IsAuthorized(s, caller) && !Refuses(registry)
    ensures var r := VerifyId(s, caller, msg, TransportFailed, registry, now);
      && r.reply == Replied(Ok(VerifyOk))
      && Contains(r.post.ids, ID("", "", now))
      && r.sent[1] == PutId(SimpleId("", ""))
  {
  }

  /** The ticket is single use: once a confirmation has run, the same
      principal calling again is refused by the guard and changes nothing.
      (A principal's text is never empty.) */
  lemma TicketSingleUse(s: State, caller: string, fromText: string -> Option<string>,
                        r1: RegistryOutcome, r2: RegistryOutcome, t1: string, t2: string)
    requires caller != "" && IsIcAuthorized(s, caller)
    ensures var mid := VerifyIcPost(s, caller, fromText, r1, t1).post;
      VerifyIcPost(mid, caller, fromText, r2, t2) == Refused(mid)
  {
  }

  /** Once the guard has matched the caller's own text against the ticket,
      the parse and comparison in the handler cannot fail for a principal
      text that parses back to itself. */
  lemma TicketChecksFollowGuard(s: State, caller: string, fromText: string -> Option<string>,
                                registry: RegistryOutcome, now: string)
    requires IsIcAuthorized(s, caller) && fromText(caller) == Some(caller)
    ensures VerifyIcPost(s, caller, fromText, registry, now).sent == [PutId(SimpleId("ic", caller))]
    ensures VerifyIcPost(s, caller, fromText, registry, now).reply.value
      !in {Err(V.VerifyError.IcPrincipalErr), Err(V.VerifyError.VerifyErr)}
  {
  }

  /** Binding an identity that is already bound (up to key equality) keeps
      the earlier entry and its bind time. */
  lemma RebindKeepsFirst(s: State, id: ID, again: ID)
    requires WellKeyed(s.ids) && Eq(id, again)
    ensures var once := Commit(s, id);
      && Commit(once, again).ids == once.ids
      && once.ids[Key(again)] == (if Contains(s.ids, id) then s.ids[Key(id)] else id)
  {
  }

  /** Key aliasing reaches the ledger: unbinding ("a", "bc") removes a bound
      ("ab", "c"), and the registry is asked to delete ("a", "bc"). */
  lemma AliasedUnbind(s: State, caller: string, registry: RegistryOutcome)
    requires IsAuthorized(s, caller) && Contains(s.ids, ID("ab", "c", ""))
    ensures var r := UnboundId(s, caller, ID("a", "bc", ""), registry);
      && !Contains(r.post.ids, ID("ab", "c", ""))
      && r.sent == [DeleteId(SimpleId("a", "bc"))]
  {
    AliasExample();
  }
}
