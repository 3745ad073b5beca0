/** End-to-end runs across the two canisters: the verify canister's reply
    to `msg_in` is what `verifyID` receives as its verifier outcome. */
module Scenarios {
  import opened Results
  import opened Identity
  import opened XidTypes
  import opened Binding
  import V = VerifyCanister
  import SigVerify

  /** A fresh, correctly signed envelope that the registry accepts is bound;
      on a ledger with no main identity it becomes the main identity. */
  lemma FreshEnvelopeBinds(codecs: V.Codecs, c: SigVerify.Curve, vs: V.State, s: State, owner: string,
                           msg: V.MsgInArg, registry: RegistryOutcome, now: string)
    requires IsAuthorized(s, owner) && !Refuses(registry)
    requires V.MsgIn(codecs, c, vs, msg).reply.Replied? && V.MsgIn(codecs, c, vs, msg).reply.value.Ok?
    ensures var p := codecs.json(msg.msg).value;
      var r := VerifyId(s, owner, msg, Deliver(V.MsgIn(codecs, c, vs, msg).reply), registry, now);
      && p.uuid !in vs.uuids
      && r.reply == Replied(Ok(VerifyOk))
      && Contains(r.post.ids, ID(p.platform, p.identity, now))
      && (s.mainId.identity == "" ==> r.post.mainId == ID(p.platform, p.identity, now))
  {
  }

  /** Resubmitting an envelope whose uuid was consumed is answered with
      `ReplayErr` before any registry request, and the ledger is untouched. */
  lemma ReplayedEnvelopeNeverReachesRegistry(codecs: V.Codecs, c: SigVerify.Curve, vs: V.State, s: State,
                                             owner: string, msg: V.MsgInArg,
                                             registry: RegistryOutcome, now: string)
    requires IsAuthorized(s, owner)
    requires codecs.json(msg.msg).Some? && !V.MsgIn(codecs, c, vs, msg).reply.Trapped?
    ensures var vs1 := V.MsgIn(codecs, c, vs, msg).post;
      var second := V.MsgIn(codecs, c, vs1, msg);
      var r := VerifyId(s, owner, msg, Deliver(second.reply), registry, now);
      && second.post == vs1
      && r == Step(Replied(Err(V.VerifyError.ReplayErr)), s, [MsgInCall(msg)])
  {
    V.ReplayRefused(codecs, c, vs, msg, msg);
  }

  /** A signature that decodes to fewer than 64 bytes traps the verify
      canister; `verifyID` sees a failed call and, unless the registry
      refuses, binds the empty identity ("", "") without any signature
      having been checked. */
  lemma ShortSignatureBindsEmptyIdentity(codecs: V.Codecs, c: SigVerify.Curve, vs: V.State, s: State,
                                         owner: string, msg: V.MsgInArg,
                                         registry: RegistryOutcome, now: string)
    requires IsAuthorized(s, owner) && !Refuses(registry)
    requires codecs.json(msg.msg).Some? && codecs.json(msg.msg).value.uuid !in vs.uuids
    requires codecs.base64(msg.sig).Some? && |codecs.base64(msg.sig).value| < 64
    ensures var r := VerifyId(s, owner, msg, Deliver(V.MsgIn(codecs, c, vs, msg).reply), registry, now);
      && V.MsgIn(codecs, c, vs, msg) == V.Handled(Trapped, vs)
      && r.reply == Replied(Ok(VerifyOk))
      && Contains(r.post.ids, ID("", "", now))
  {
    V.MsgInSignatureCheck(codecs, c, vs, msg);
  }

  /** The host-principal protocol end to end: the owner files the ticket,
      the named principal confirms, the registry does not refuse, and the
      identity ("ic", ticket) is bound with the ticket spent. */
  lemma HostPrincipalBinds(s: State, owner: string, ticket: string, fromText: string -> Option<string>,
                           registry: RegistryOutcome, now: string)
    requires IsAuthorized(s, owner) && fromText(ticket) == Some(ticket) && !Refuses(registry)
    ensures var mid := VerifyIcPre(s, owner, ticket).post;
      var r := VerifyIcPost(mid, ticket, fromText, registry, now);
      && r.reply == Replied(Ok(VerifyOk))
      && Contains(r.post.ids, ID("ic", ticket, now))
      && r.post.icVerify == ""
  {
  }

  /** A confirmation from a principal other than the ticket's is refused by
      the guard before the handler runs, so the ticket stays in place and a
      later confirmation by the right principal still succeeds. */
  lemma WrongPrincipalKeepsTicket(s: State, owner: string, ticket: string, other: string,
                                  fromText: string -> Option<string>, registry: RegistryOutcome, now: string)
    requires IsAuthorized(s, owner) && other != ticket
    requires fromText(ticket) == Some(ticket) && !Refuses(registry)
    ensures var mid := VerifyIcPre(s, owner, ticket).post;
      var wrong := VerifyIcPost(mid, other, fromText, registry, now);
      && wrong == Refused(mid)
      && wrong.post.icVerify == ticket
      && VerifyIcPost(wrong.post, ticket, fromText, registry, now).reply == Replied(Ok(VerifyOk))
  {
  }
}
