/** The verify canister: `msg_in` decodes a signed binding message, consumes
    its uuid in the replay guard, and checks the signature against the one
    trusted key. JSON, base64 and Keccak-256 are foreign code and enter as
    the uninterpreted functions of `Codecs`. */
module VerifyCanister {
  import opened Results
  import opened SigVerify

  datatype VerifyError =
    | SigDecoErr
    | VerifyErr
    | MsgDecodeErr
    | IcPrincipalErr
    | IDExist
    | XidNotExist
    | XidCNoNameErr
    | ReplayErr

  /** The decoded message. */
  datatype Payload = Payload(
    action: string,
    createdAt: string,
    identity: string,
    persona: string,
    platform: string,
    uuid: string)

  /** `Payload::default()`. */
  const EmptyPayload: Payload := Payload("", "", "", "", "", "")

  /** `MsgIn`: the JSON text and the base64 signature text, as the bytes of
      their UTF-8 encodings. */
  datatype MsgInArg = MsgInArg(msg: seq<byte>, sig: seq<byte>)

  /** `serde_json::from_str`, `base64::decode` and Keccak-256. */
  datatype Codecs = Codecs(
    json: seq<byte> -> Option<Payload>,
    base64: seq<byte> -> Option<seq<byte>>,
    keccak: seq<byte> -> Digest)

  /** The canister state: the consumed uuids. */
  datatype State = State(uuids: set<string>)

  datatype StableState = StableState(uuids: set<string>)

  /** The trusted signer's key, SEC 1 compressed. */
  const TrustedKey: seq<byte> :=
    [2, 142, 36, 253, 150, 84, 241, 44, 121, 61, 61, 55, 108, 21, 247, 171, 229,
     62, 15, 189, 83, 120, 132, 163, 169, 141, 16, 210, 220, 109, 81, 59, 78]

  /** A handler's reply and the state it leaves. */
  datatype Handled = Handled(reply: Reply<Result<Payload, VerifyError>>, post: State)

  /** The replay guard's check-and-insert: a uuid is fresh the first time
      only, and is in the set afterwards either way. */
  function CheckAndConsume(uuids: set<string>, u: string): (r: (bool, set<string>))
    ensures r.0 <==> u !in uuids
    ensures r.1 == uuids + {u}
    ensures !r.0 ==> r.1 == uuids
  {
    if u in uuids then (false, uuids) else (true, uuids + {u})
  }

  /** Only the first of two checks of the same uuid passes. */
  lemma ConsumeOnce(uuids: set<string>, u: string)
    ensures !CheckAndConsume(CheckAndConsume(uuids, u).1, u).0
  {
  }

  /** The digest `msg_in` verifies: the hash of the raw message text. */
  function MsgDigest(codecs: Codecs, arg: MsgInArg): Digest {
    HashKeccak256(codecs.keccak, arg.msg)
  }

  /** `msg_in`. A signature that decodes to fewer than 64 bytes makes the
      slice `[0..64]` panic, so the call traps and keeps no change; a longer
      one is cut to its first 64 bytes. */
  function MsgIn(codecs: Codecs, c: Curve, st: State, arg: MsgInArg): (r: Handled)
    ensures codecs.json(arg.msg).None? ==> r == Handled(Replied(Err(MsgDecodeErr)), st)
    ensures codecs.json(arg.msg).Some? && codecs.json(arg.msg).value.uuid in st.uuids ==>
      r == Handled(Replied(Err(ReplayErr)), st)
    ensures r.reply.Trapped? ==> r.post == st
    ensures codecs.json(arg.msg).Some? && !r.reply.Trapped? ==>
      r.post.uuids == st.uuids + {codecs.json(arg.msg).value.uuid}
    ensures st.uuids <= r.post.uuids
    ensures r.reply.Replied? && r.reply.value.Ok? ==>
      && codecs.json(arg.msg).Some?
      && r.reply.value.value == codecs.json(arg.msg).value
      && r.reply.value.value.uuid !in st.uuids
  {
    match codecs.json(arg.msg)
    case None => Handled(Replied(Err(MsgDecodeErr)), st)
    case Some(p) =>
      var guard := CheckAndConsume(st.uuids, p.uuid);
      if !guard.0 then Handled(Replied(Err(ReplayErr)), st)
      else
        var st' := State(guard.1);
        var digest := MsgDigest(codecs, arg);
        match codecs.base64(arg.sig)
        case None => Handled(Replied(Err(SigDecoErr)), st')
        case Some(sig) =>
          if |sig| < 64 then Handled(Trapped, st)
          else if Verify(c, Verification(digest, sig[..64], TrustedKey)) then Handled(Replied(Ok(p)), st')
          else Handled(Replied(Err(VerifyErr)), st')
  }

  /** A decoded message with a fresh uuid and a decodable signature of at
      least 64 bytes is accepted exactly when `verify` accepts its digest,
      the first 64 signature bytes and the trusted key; since that key is 33
      bytes long, `verify` reads it as a compressed point. The uuid stays
      consumed when the answer is `SigDecoErr` or `VerifyErr`. */
  lemma MsgInSignatureCheck(codecs: Codecs, c: Curve, st: State, arg: MsgInArg)
    requires codecs.json(arg.msg).Some? && codecs.json(arg.msg).value.uuid !in st.uuids
    ensures codecs.base64(arg.sig).None? ==> MsgIn(codecs, c, st, arg).reply == Replied(Err(SigDecoErr))
    ensures MsgIn(codecs, c, st, arg).reply.Trapped? <==>
      codecs.base64(arg.sig).Some? && |codecs.base64(arg.sig).value| < 64
    ensures codecs.base64(arg.sig).Some? && |codecs.base64(arg.sig).value| >= 64 ==>
      var sig := codecs.base64(arg.sig).value[..64];
      var ok := MsgIn(codecs, c, st, arg).reply == Replied(Ok(codecs.json(arg.msg).value));
      && (ok <==> Verify(c, Verification(MsgDigest(codecs, arg), sig, TrustedKey)))
      && (ok <==>
           && c.parseMessage(MsgDigest(codecs, arg)).Some?
           && c.parseSignature(sig).Some?
           && Checks(c, c.parseMessage(MsgDigest(codecs, arg)).value, c.parseSignature(sig).value,
                     c.parseKey(TrustedKey, Compressed)))
      && (!ok ==> MsgIn(codecs, c, st, arg).reply == Replied(Err(VerifyErr)))
  {
    if codecs.base64(arg.sig).Some? && |codecs.base64(arg.sig).value| >= 64 {
      var sig := codecs.base64(arg.sig).value[..64];
      var v := Verification(MsgDigest(codecs, arg), sig, TrustedKey);
      if c.parseMessage(v.message).Some? && c.parseSignature(sig).Some? {
        KeyFieldDispatch(c, v, c.parseMessage(v.message).value, c.parseSignature(sig).value);
      }
    }
  }

  /** A uuid is accepted at most once: after any call that decoded the
      message and did not trap, every later message carrying the same uuid
      is refused with `ReplayErr` and leaves the state alone. */
  lemma ReplayRefused(codecs: Codecs, c: Curve, st: State, first: MsgInArg, again: MsgInArg)
    requires codecs.json(first.msg).Some? && !MsgIn(codecs, c, st, first).reply.Trapped?
    requires codecs.json(again.msg).Some?
    requires codecs.json(again.msg).value.uuid == codecs.json(first.msg).value.uuid
    ensures var mid := MsgIn(codecs, c, st, first).post;
      MsgIn(codecs, c, mid, again) == Handled(Replied(Err(ReplayErr)), mid)
  {
  }

  /** `do_clear`: the administrative wipe, the one way uuids leave the set. */
  function DoClear(st: State): (r: State)
    ensures r.uuids == {}
  {
    State({})
  }

  /** `pre_upgrade`: the saved snapshot, and the drained state `take()`
      leaves behind. */
  function PreUpgrade(st: State): (r: (StableState, State))
    ensures r.0.uuids == st.uuids
    ensures r.1.uuids == {}
  {
    (StableState(st.uuids), State({}))
  }

  /** `post_upgrade`: clear, then install the snapshot. */
  function PostUpgrade(current: State, saved: StableState): (r: State)
    ensures r.uuids == saved.uuids
  {
    var cleared := DoClear(current);
    cleared.(uuids := saved.uuids)
  }

  /** Saving and restoring gives back exactly the consumed set, whatever the
      state was in between. */
  lemma UpgradeRoundTrip(st: State, between: State)
    ensures PostUpgrade(between, PreUpgrade(st).0) == st
    ensures PostUpgrade(PreUpgrade(st).1, PreUpgrade(st).0) == st
  {
  }
}
