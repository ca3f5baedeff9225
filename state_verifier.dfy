/** The semantic checks of the fabtoken state verifier
    (token/core/fabtoken/state.go): proofs of existence of a pledged token,
    of non-existence of a token claimed on its origin network, and of
    existence of a token carrying origin metadata. The cryptographic
    verification of a proof is a flag; decoders and key builders are
    parameters. */
module FabTokenState {
  import opened Results
  import opened Tokens

  /** A token management service id; only its namespace locates state. */
  datatype TMSID = TMSID(network: string, channel: string, namespace: string)

  /** The read set of a proof: the value read under a namespace and a key,
      and the namespace-key pairs whose lookup fails. */
  datatype RWSet = RWSet(state: map<(string, string), Bytes>, failing: set<(string, string)>)

  /** A decoded relay proof: whether it verifies cryptographically, and its
      read set (None when it cannot be extracted). */
  datatype Proof = Proof(verifies: bool, rwset: Option<RWSet>)

  /** A locally recorded pledge. */
  datatype PledgeInfo = PledgeInfo(source: string, tokenID: TokenID, amount: uint64, tokenType: string, script: PledgeScript)

  /** The claim stored by a proof of non-existence. */
  datatype NonExistenceProof = NonExistenceProof(tokenID: TokenID, origin: string, deadline: int)

  /** The claim stored by a proof of existence of a token with metadata. */
  datatype MetadataExistenceProof = MetadataExistenceProof(tokenID: TokenID, origin: string)

  /** The verifier's network and the decoders and key builders it relies on;
      None stands for an error. */
  datatype VerifierEnv = VerifierEnv(
    networkURL: string,
    proofFromBytes: Bytes -> Option<Proof>,
    urlToTMSID: string -> Option<TMSID>,
    fabricURL: TMSID -> string,
    existenceKey: TokenID -> Option<string>,
    nonExistenceKey: (TokenID, string) -> Option<string>,
    metadataExistenceKey: (TokenID, string) -> Option<string>,
    decodeToken: Bytes -> Option<Token>,
    decodeNonExistence: Bytes -> Option<NonExistenceProof>,
    decodeMetadataExistence: Bytes -> Option<MetadataExistenceProof>,
    parseQuantity: string -> Option<int>,
    codecs: Codecs)

  datatype Rejection =
    | URLInvalid
    | ProofMalformed
    | ProofInvalid
    | RWSetUnavailable
    | KeyUnavailable
    | StateReadFailed
    | TokenMalformed
    | PledgeLookupFailed
    | PledgeCountMismatch(count: nat)
    | TypeMismatch
    | QuantityMalformed(cause: QuantityError)
    | QuantityMismatch
    | OwnerMalformed
    | OwnerNotPledge
    | ScriptMalformed
    | RecipientInvalid
    | RecipientMismatch
    | DeadlineMismatch
    | DestinationMismatch
    | ClaimNotFound
    | ClaimMalformed
    | TokenIDMismatch
    | OriginMismatch

  datatype Verdict = Accepted | Rejected(reason: Rejection)

  /** The value a proof read under key in the verifier's own namespace; None
      when nothing was written there. */
  function ReadState(env: VerifierEnv, proof: Proof, key: Option<string>): (r: Result<Option<Bytes>, Rejection>)
    ensures proof.rwset.None? ==> r == Err(RWSetUnavailable)
    ensures proof.rwset.Some? && key.None? ==> r == Err(KeyUnavailable)
    ensures proof.rwset.Some? && key.Some? && env.urlToTMSID(env.networkURL).None? ==> r == Err(URLInvalid)
    ensures (proof.rwset.Some? && key.Some? && env.urlToTMSID(env.networkURL).Some? &&
             (env.urlToTMSID(env.networkURL).value.namespace, key.value) in proof.rwset.value.failing) ==>
      r == Err(StateReadFailed)
    ensures r.Ok? <==>
      proof.rwset.Some? && key.Some? && env.urlToTMSID(env.networkURL).Some? &&
      (env.urlToTMSID(env.networkURL).value.namespace, key.value) !in proof.rwset.value.failing
    ensures r.Ok? ==>
      var k := (env.urlToTMSID(env.networkURL).value.namespace, key.value);
      r.value == (if k in proof.rwset.value.state then Some(proof.rwset.value.state[k]) else None)
  {
    match proof.rwset
    case None => Err(RWSetUnavailable)
    case Some(rw) =>
      match key
      case None => Err(KeyUnavailable)
      case Some(k) =>
        match env.urlToTMSID(env.networkURL)
        case None => Err(URLInvalid)
        case Some(tms) =>
          if (tms.namespace, k) in rw.failing then Err(StateReadFailed)
          else if (tms.namespace, k) in rw.state then Ok(Some(rw.state[(tms.namespace, k)]))
          else Ok(None)
  }

  // ---- proof of existence ----

  /** The token a proof of existence shows: the proof must decode and verify
      before its read set is looked at; a missing value does not decode. */
  function ExistenceClaim(env: VerifierEnv, proofRaw: Bytes, tokenID: TokenID): (r: Result<Token, Rejection>)
    // the cryptographic check comes before anything is read from the proof
    ensures env.proofFromBytes(proofRaw).None? ==> r == Err(ProofMalformed)
    ensures env.proofFromBytes(proofRaw).Some? && !env.proofFromBytes(proofRaw).value.verifies ==> r == Err(ProofInvalid)
    // then a failed read is passed on, and a missing or undecodable value is a malformed token
    ensures env.proofFromBytes(proofRaw).Some? && env.proofFromBytes(proofRaw).value.verifies ==>
      var st := ReadState(env, env.proofFromBytes(proofRaw).value, env.existenceKey(tokenID));
      (st.Err? ==> r == Err(st.error)) &&
      (st == Ok(None) ==> r == Err(TokenMalformed)) &&
      (st.Ok? && st.value.Some? && env.decodeToken(st.value.value).None? ==> r == Err(TokenMalformed))
    // a token loads exactly when the proof verifies and the value under the existence key decodes to it
    ensures r.Ok? <==>
      env.proofFromBytes(proofRaw).Some? && env.proofFromBytes(proofRaw).value.verifies &&
      var st := ReadState(env, env.proofFromBytes(proofRaw).value, env.existenceKey(tokenID));
      st.Ok? && st.value.Some? && env.decodeToken(st.value.value).Some?
    ensures r.Ok? ==>
      var st := ReadState(env, env.proofFromBytes(proofRaw).value, env.existenceKey(tokenID));
      env.decodeToken(st.value.value) == Some(r.value)
  {
    match env.proofFromBytes(proofRaw)
    case None => Err(ProofMalformed)
    case Some(proof) =>
      if !proof.verifies then Err(ProofInvalid)
      else match ReadState(env, proof, env.existenceKey(tokenID))
        case Err(e) => Err(e)
        case Ok(None) => Err(TokenMalformed)
        case Ok(Some(raw)) =>
          match env.decodeToken(raw)
          case None => Err(TokenMalformed)
          case Some(tok) => Ok(tok)
  }

  /** The checks of the pledge script of a proven pledge owner against the
      recorded pledge. */
  function ScriptChecks(env: VerifierEnv, owner: RawOwner, info: PledgeInfo): (v: Verdict)
    ensures v.Accepted? <==>
      env.codecs.pledgeScript(owner.identity).Some? &&
      var s := env.codecs.pledgeScript(owner.identity).value;
      !IsNone(s.recipient) && s.recipient == info.script.recipient &&
      s.deadline == info.script.deadline && s.destinationNetwork == info.script.destinationNetwork
    ensures env.codecs.pledgeScript(owner.identity).None? ==> v == Rejected(ScriptMalformed)
    // then recipient, deadline and destination network are compared in that order
    ensures env.codecs.pledgeScript(owner.identity).Some? ==>
      var s := env.codecs.pledgeScript(owner.identity).value;
      (IsNone(s.recipient) ==> v == Rejected(RecipientInvalid)) &&
      (!IsNone(s.recipient) && s.recipient != info.script.recipient ==> v == Rejected(RecipientMismatch)) &&
      (!IsNone(s.recipient) && s.recipient == info.script.recipient && s.deadline != info.script.deadline ==>
        v == Rejected(DeadlineMismatch)) &&
      ((!IsNone(s.recipient) && s.recipient == info.script.recipient && s.deadline == info.script.deadline &&
        s.destinationNetwork != info.script.destinationNetwork) ==> v == Rejected(DestinationMismatch))
  {
    match env.codecs.pledgeScript(owner.identity)
    case None => Rejected(ScriptMalformed)
    case Some(s) =>
      if IsNone(s.recipient) then Rejected(RecipientInvalid)
      else if s.recipient != info.script.recipient then Rejected(RecipientMismatch)
      else if s.deadline != info.script.deadline then Rejected(DeadlineMismatch)
      else if s.destinationNetwork != info.script.destinationNetwork then Rejected(DestinationMismatch)
      else Accepted
  }

  /** The pledge record and proven owner a proven token is checked against:
      exactly one pledge for the token id, of the same type and, compared as a
      number, the same quantity, and an owner that decodes. */
  function PledgeMatch(env: VerifierEnv, tok: Token, pledges: Option<seq<PledgeInfo>>): (r: Result<(PledgeInfo, RawOwner), Rejection>)
    // zero or several pledges are both rejected
    ensures pledges.None? ==> r == Err(PledgeLookupFailed)
    ensures pledges.Some? && |pledges.value| != 1 ==> r == Err(PledgeCountMismatch(|pledges.value|))
    ensures r.Ok? <==>
      pledges.Some? && |pledges.value| == 1 && tok.typ == pledges.value[0].tokenType &&
      ToQuantity(env.parseQuantity, tok.quantity, 64).Ok? &&
      ToQuantity(env.parseQuantity, tok.quantity, 64).value == pledges.value[0].amount as int &&
      env.codecs.rawOwner(tok.owner).Some?
    ensures r.Ok? ==> r.value == (pledges.value[0], env.codecs.rawOwner(tok.owner).value)
    // the type is checked before the quantity, and a different amount is rejected
    ensures pledges.Some? && |pledges.value| == 1 && tok.typ != pledges.value[0].tokenType ==> r == Err(TypeMismatch)
    ensures (pledges.Some? && |pledges.value| == 1 && tok.typ == pledges.value[0].tokenType &&
             ToQuantity(env.parseQuantity, tok.quantity, 64).Ok? &&
             ToQuantity(env.parseQuantity, tok.quantity, 64).value != pledges.value[0].amount as int) ==>
      r == Err(QuantityMismatch)
  {
    match pledges
    case None => Err(PledgeLookupFailed)
    case Some(ps) =>
      if |ps| != 1 then Err(PledgeCountMismatch(|ps|))
      else
        var info := ps[0];
        if tok.typ != info.tokenType then Err(TypeMismatch)
        else match ToQuantity(env.parseQuantity, tok.quantity, 64)
          case Err(e) => Err(QuantityMalformed(e))
          case Ok(q) =>
            if q != info.amount as int then Err(QuantityMismatch)
            else match env.codecs.rawOwner(tok.owner)
              case None => Err(OwnerMalformed)
              case Some(owner) => Ok((info, owner))
  }

  /** The proof-of-existence check as written: an owner that is not a pledge
      script ends the check with no error, so the proof is accepted. pledges
      are the local pledge records for the token id (None: lookup failed). */
  function VerifyProofExistence(env: VerifierEnv, proofRaw: Bytes, tokenID: TokenID,
                                pledges: Option<seq<PledgeInfo>>): (v: Verdict)
    ensures env.proofFromBytes(proofRaw).Some? && !env.proofFromBytes(proofRaw).value.verifies ==> v == Rejected(ProofInvalid)
    // accepted exactly when the token loads and matches the unique pledge, and, only when
    // the owner is a pledge script, that script passes its checks
    ensures v.Accepted? <==>
      ExistenceClaim(env, proofRaw, tokenID).Ok? &&
      var tok := ExistenceClaim(env, proofRaw, tokenID).value;
      PledgeMatch(env, tok, pledges).Ok? &&
      var (info, owner) := PledgeMatch(env, tok, pledges).value;
      (owner.typ == PledgeScriptType ==> ScriptChecks(env, owner, info).Accepted?)
    // which check rejects: loading the token, then matching the pledge, then the script
    ensures ExistenceClaim(env, proofRaw, tokenID).Err? ==> v == Rejected(ExistenceClaim(env, proofRaw, tokenID).error)
    ensures ExistenceClaim(env, proofRaw, tokenID).Ok? ==>
      var m := PledgeMatch(env, ExistenceClaim(env, proofRaw, tokenID).value, pledges);
      (m.Err? ==> v == Rejected(m.error)) &&
      (m.Ok? && m.value.1.typ == PledgeScriptType ==> v == ScriptChecks(env, m.value.1, m.value.0))
  {
    match ExistenceClaim(env, proofRaw, tokenID)
    case Err(e) => Rejected(e)
    case Ok(tok) =>
      match PledgeMatch(env, tok, pledges)
      case Err(e) => Rejected(e)
      case Ok((info, owner)) =>
        if owner.typ != PledgeScriptType then Accepted
        else ScriptChecks(env, owner, info)
  }

  /** The proof-of-existence check as intended: a proven token whose owner is
      not a pledge script is rejected. */
  function VerifyProofExistenceIntended(env: VerifierEnv, proofRaw: Bytes, tokenID: TokenID,
                                        pledges: Option<seq<PledgeInfo>>): (v: Verdict)
    ensures env.proofFromBytes(proofRaw).Some? && !env.proofFromBytes(proofRaw).value.verifies ==> v == Rejected(ProofInvalid)
    // accepted exactly when the proof verifies and every field agrees with the unique pledge
    ensures v.Accepted? <==>
      ExistenceClaim(env, proofRaw, tokenID).Ok? &&
      var tok := ExistenceClaim(env, proofRaw, tokenID).value;
      PledgeMatch(env, tok, pledges).Ok? &&
      var (info, owner) := PledgeMatch(env, tok, pledges).value;
      owner.typ == PledgeScriptType && ScriptChecks(env, owner, info).Accepted?
    // which check rejects: loading the token, then matching the pledge, then the owner type, then the script
    ensures ExistenceClaim(env, proofRaw, tokenID).Err? ==> v == Rejected(ExistenceClaim(env, proofRaw, tokenID).error)
    ensures ExistenceClaim(env, proofRaw, tokenID).Ok? ==>
      var m := PledgeMatch(env, ExistenceClaim(env, proofRaw, tokenID).value, pledges);
      (m.Err? ==> v == Rejected(m.error)) &&
      (m.Ok? && m.value.1.typ != PledgeScriptType ==> v == Rejected(OwnerNotPledge)) &&
      (m.Ok? && m.value.1.typ == PledgeScriptType ==> v == ScriptChecks(env, m.value.1, m.value.0))
  {
    match ExistenceClaim(env, proofRaw, tokenID)
    case Err(e) => Rejected(e)
    case Ok(tok) =>
      match PledgeMatch(env, tok, pledges)
      case Err(e) => Rejected(e)
      case Ok((info, owner)) =>
        if owner.typ != PledgeScriptType then Rejected(OwnerNotPledge)
        else ScriptChecks(env, owner, info)
  }

  /** As written, a verified proof of a token that matches the unique pledge in
      type and quantity but whose owner is anything other than a pledge script
      (a plain identity, an HTLC script, an unknown tag) is accepted, although
      it proves nothing about the pledge script. */
  lemma NonPledgeOwnerAccepted(env: VerifierEnv, proofRaw: Bytes, tokenID: TokenID, pledges: Option<seq<PledgeInfo>>)
    requires ExistenceClaim(env, proofRaw, tokenID).Ok?
    requires PledgeMatch(env, ExistenceClaim(env, proofRaw, tokenID).value, pledges).Ok?
    requires PledgeMatch(env, ExistenceClaim(env, proofRaw, tokenID).value, pledges).value.1.typ != PledgeScriptType
    ensures VerifyProofExistence(env, proofRaw, tokenID, pledges) == Accepted
    ensures VerifyProofExistenceIntended(env, proofRaw, tokenID, pledges) == Rejected(OwnerNotPledge)
  {
  }

  /** The two agree whenever the proven owner is a pledge script. */
  lemma ExistenceAgreesOnPledgeOwners(env: VerifierEnv, proofRaw: Bytes, tokenID: TokenID, pledges: Option<seq<PledgeInfo>>)
    ensures
      (ExistenceClaim(env, proofRaw, tokenID).Ok? &&
       PledgeMatch(env, ExistenceClaim(env, proofRaw, tokenID).value, pledges).Ok? &&
       PledgeMatch(env, ExistenceClaim(env, proofRaw, tokenID).value, pledges).value.1.typ != PledgeScriptType)
      || VerifyProofExistence(env, proofRaw, tokenID, pledges) == VerifyProofExistenceIntended(env, proofRaw, tokenID, pledges)
  {
  }

  /** Quantities are compared as numbers: two encodings of the same amount
      give the same verdict. */
  lemma QuantityComparedNumerically(env: VerifierEnv, tok: Token, q: string, pledges: Option<seq<PledgeInfo>>)
    requires env.parseQuantity(q) == env.parseQuantity(tok.quantity)
    ensures PledgeMatch(env, tok.(quantity := q), pledges) == PledgeMatch(env, tok, pledges)
  {
  }

  // ---- proofs of non-existence and of metadata existence ----

  /** What both origin-based checks load: the origin's TMS id, the decoded
      proof and the raw claim, in the order origin URL, proof bytes, read set,
      key, own URL, state; a missing claim is not found. */
  function OriginClaim(env: VerifierEnv, proofRaw: Bytes, origin: string, key: Option<string>): (r: Result<(TMSID, Proof, Bytes), Rejection>)
    ensures env.urlToTMSID(origin).None? ==> r == Err(URLInvalid)
    ensures env.urlToTMSID(origin).Some? && env.proofFromBytes(proofRaw).None? ==> r == Err(ProofMalformed)
    // a failed read is passed on, and a key with nothing written under it is rejected
    ensures (env.urlToTMSID(origin).Some? && env.proofFromBytes(proofRaw).Some? &&
             ReadState(env, env.proofFromBytes(proofRaw).value, key).Err?) ==>
      r == Err(ReadState(env, env.proofFromBytes(proofRaw).value, key).error)
    ensures (env.urlToTMSID(origin).Some? && env.proofFromBytes(proofRaw).Some? &&
             ReadState(env, env.proofFromBytes(proofRaw).value, key) == Ok(None)) ==>
      r == Err(ClaimNotFound)
    // the claim loads exactly when every stage succeeds, and is what those stages give
    ensures r.Ok? <==>
      env.urlToTMSID(origin).Some? && env.proofFromBytes(proofRaw).Some? &&
      var st := ReadState(env, env.proofFromBytes(proofRaw).value, key);
      st.Ok? && st.value.Some?
    ensures r.Ok? ==>
      env.urlToTMSID(origin) == Some(r.value.0) && env.proofFromBytes(proofRaw) == Some(r.value.1) &&
      ReadState(env, r.value.1, key) == Ok(Some(r.value.2))
  {
    match env.urlToTMSID(origin)
    case None => Err(URLInvalid)
    case Some(originTMS) =>
      match env.proofFromBytes(proofRaw)
      case None => Err(ProofMalformed)
      case Some(proof) =>
        match ReadState(env, proof, key)
        case Err(e) => Err(e)
        case Ok(None) => Err(ClaimNotFound)
        case Ok(Some(raw)) => Ok((originTMS, proof, raw))
  }

  /** The reclaim check: the proof shows that the token was never claimed on
      the origin network before the deadline. */
  function VerifyProofNonExistence(env: VerifierEnv, proofRaw: Bytes, tokenID: TokenID, origin: string, deadline: int): (v: Verdict)
    // accepted exactly when the claim is found and agrees on deadline, token id and origin, and the proof verifies
    ensures v.Accepted? <==>
      var c := OriginClaim(env, proofRaw, origin, env.nonExistenceKey(tokenID, origin));
      c.Ok? && env.decodeNonExistence(c.value.2).Some? &&
      var p := env.decodeNonExistence(c.value.2).value;
      p.deadline == deadline && p.tokenID == tokenID && p.origin == env.fabricURL(c.value.0) && c.value.1.verifies
    // the field checks come in the order deadline, token id, origin, and all before the cryptographic check
    // a claim that does not load keeps its rejection, and one that does not decode is malformed
    ensures
      var c := OriginClaim(env, proofRaw, origin, env.nonExistenceKey(tokenID, origin));
      (c.Err? ==> v == Rejected(c.error)) &&
      (c.Ok? && env.decodeNonExistence(c.value.2).None? ==> v == Rejected(ClaimMalformed))
    ensures
      var c := OriginClaim(env, proofRaw, origin, env.nonExistenceKey(tokenID, origin));
      c.Ok? && env.decodeNonExistence(c.value.2).Some? ==>
      var p := env.decodeNonExistence(c.value.2).value;
      (p.deadline != deadline ==> v == Rejected(DeadlineMismatch)) &&
      (p.deadline == deadline && p.tokenID != tokenID ==> v == Rejected(TokenIDMismatch)) &&
      (p.deadline == deadline && p.tokenID == tokenID && p.origin != env.fabricURL(c.value.0) ==> v == Rejected(OriginMismatch)) &&
      (p.deadline == deadline && p.tokenID == tokenID && p.origin == env.fabricURL(c.value.0) && !c.value.1.verifies ==>
        v == Rejected(ProofInvalid))
  {
    match OriginClaim(env, proofRaw, origin, env.nonExistenceKey(tokenID, origin))
    case Err(e) => Rejected(e)
    case Ok((originTMS, proof, raw)) =>
      match env.decodeNonExistence(raw)
      case None => Rejected(ClaimMalformed)
      case Some(p) =>
        if p.deadline != deadline then Rejected(DeadlineMismatch)
        else if p.tokenID != tokenID then Rejected(TokenIDMismatch)
        else if p.origin != env.fabricURL(originTMS) then Rejected(OriginMismatch)
        else if !proof.verifies then Rejected(ProofInvalid)
        else Accepted
  }

  /** The redeem check: the proof shows a token carrying the origin metadata;
      there is no deadline to check. */
  function VerifyProofTokenWithMetadataExistence(env: VerifierEnv, proofRaw: Bytes, tokenID: TokenID, origin: string): (v: Verdict)
    ensures v.Accepted? <==>
      var c := OriginClaim(env, proofRaw, origin, env.metadataExistenceKey(tokenID, origin));
      c.Ok? && env.decodeMetadataExistence(c.value.2).Some? &&
      var p := env.decodeMetadataExistence(c.value.2).value;
      p.tokenID == tokenID && p.origin == env.fabricURL(c.value.0) && c.value.1.verifies
    // a claim that does not load keeps its rejection, and one that does not decode is malformed
    ensures
      var c := OriginClaim(env, proofRaw, origin, env.metadataExistenceKey(tokenID, origin));
      (c.Err? ==> v == Rejected(c.error)) &&
      (c.Ok? && env.decodeMetadataExistence(c.value.2).None? ==> v == Rejected(ClaimMalformed))
    ensures
      var c := OriginClaim(env, proofRaw, origin, env.metadataExistenceKey(tokenID, origin));
      c.Ok? && env.decodeMetadataExistence(c.value.2).Some? ==>
      var p := env.decodeMetadataExistence(c.value.2).value;
      (p.tokenID != tokenID ==> v == Rejected(TokenIDMismatch)) &&
      (p.tokenID == tokenID && p.origin != env.fabricURL(c.value.0) ==> v == Rejected(OriginMismatch)) &&
      (p.tokenID == tokenID && p.origin == env.fabricURL(c.value.0) && !c.value.1.verifies ==> v == Rejected(ProofInvalid))
  {
    match OriginClaim(env, proofRaw, origin, env.metadataExistenceKey(tokenID, origin))
    case Err(e) => Rejected(e)
    case Ok((originTMS, proof, raw)) =>
      match env.decodeMetadataExistence(raw)
      case None => Rejected(ClaimMalformed)
      case Some(p) =>
        if p.tokenID != tokenID then Rejected(TokenIDMismatch)
        else if p.origin != env.fabricURL(originTMS) then Rejected(OriginMismatch)
        else if !proof.verifies then Rejected(ProofInvalid)
        else Accepted
  }
}
