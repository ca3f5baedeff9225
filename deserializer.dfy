/** Verifier deserialization dispatched on the raw owner's type tag
    (token/core/interop/pledge/deserializer.go). */
module PledgeDeserializer {
  import opened Results
  import opened Tokens

  /** The verifier built for an owner. V is the kind of signature verifier that
      the owner deserializer yields for a plain identity. */
  datatype Verifier<V> =
    | IdentityVerifier(v: V)
    | PledgeVerifier(sender: V, issuer: V, pledgeID: string)
    | HTLCVerifier(sender: V, recipient: V, deadline: int, hashInfo: HashInfo)

  datatype DesError =
    | OwnerMalformed
    | UnknownOwnerType(typ: string)
    | PledgeScriptMalformed
    | HTLCScriptMalformed
    | IdentityInvalid
    | SenderInvalid
    | IssuerInvalid
    | RecipientInvalid

  /** The owner deserializer for serialized identities: None is a failure. */
  type OwnerDeserializer<V> = Identity -> Option<V>

  function GetPledgeVerifier<V>(c: Codecs, des: OwnerDeserializer<V>, raw: Bytes): (r: Result<Verifier<V>, DesError>)
    // malformed script bytes are an error
    ensures c.pledgeScript(raw).None? ==> r == Err(PledgeScriptMalformed)
    // a sender that does not deserialize aborts before the issuer is looked at
    ensures c.pledgeScript(raw).Some? && des(c.pledgeScript(raw).value.sender).None? ==> r == Err(SenderInvalid)
    ensures r.Ok? ==>
      var s := c.pledgeScript(raw).value;
      c.pledgeScript(raw).Some? && des(s.sender).Some? && des(s.issuer).Some? &&
      r.value == PledgeVerifier(des(s.sender).value, des(s.issuer).value, s.id)
    ensures r.Ok? <==>
      c.pledgeScript(raw).Some? && des(c.pledgeScript(raw).value.sender).Some? && des(c.pledgeScript(raw).value.issuer).Some?
  {
    match c.pledgeScript(raw)
    case None => Err(PledgeScriptMalformed)
    case Some(script) =>
      match des(script.sender)
      case None => Err(SenderInvalid)
      case Some(sender) =>
        match des(script.issuer)
        case None => Err(IssuerInvalid)
        case Some(issuer) => Ok(PledgeVerifier(sender, issuer, script.id))
  }

  function GetHTLCVerifier<V>(c: Codecs, des: OwnerDeserializer<V>, raw: Bytes): (r: Result<Verifier<V>, DesError>)
    ensures c.htlcScript(raw).None? ==> r == Err(HTLCScriptMalformed)
    ensures c.htlcScript(raw).Some? && des(c.htlcScript(raw).value.sender).None? ==> r == Err(SenderInvalid)
    // the deadline and the hash, hash function and encoding are copied unchanged
    ensures r.Ok? ==>
      var s := c.htlcScript(raw).value;
      c.htlcScript(raw).Some? && des(s.sender).Some? && des(s.recipient).Some? &&
      r.value == HTLCVerifier(des(s.sender).value, des(s.recipient).value, s.deadline,
                              HashInfo(s.hashInfo.hash, s.hashInfo.hashFunc, s.hashInfo.hashEncoding))
    ensures r.Ok? <==>
      c.htlcScript(raw).Some? && des(c.htlcScript(raw).value.sender).Some? && des(c.htlcScript(raw).value.recipient).Some?
  {
    match c.htlcScript(raw)
    case None => Err(HTLCScriptMalformed)
    case Some(script) =>
      match des(script.sender)
      case None => Err(SenderInvalid)
      case Some(sender) =>
        match des(script.recipient)
        case None => Err(RecipientInvalid)
        case Some(recipient) =>
          Ok(HTLCVerifier(sender, recipient, script.deadline,
                          HashInfo(script.hashInfo.hash, script.hashInfo.hashFunc, script.hashInfo.hashEncoding)))
  }

  /** The owner tags DeserializeVerifier knows. */
  predicate KnownOwnerType(typ: string) {
    typ == SerializedIdentityType || typ == PledgeScriptType || typ == HTLCScriptType
  }

  function DeserializeVerifier<V>(c: Codecs, des: OwnerDeserializer<V>, id: Identity): (r: Result<Verifier<V>, DesError>)
    // an undecodable owner fails before any dispatch
    ensures c.rawOwner(id).None? ==> r == Err(OwnerMalformed)
    // an unknown tag is an error naming the tag
    ensures c.rawOwner(id).Some? && !KnownOwnerType(c.rawOwner(id).value.typ) ==>
      r == Err(UnknownOwnerType(c.rawOwner(id).value.typ))
    // a serialized identity is handed, whole, to the owner deserializer
    ensures c.rawOwner(id).Some? && c.rawOwner(id).value.typ == SerializedIdentityType ==>
      r == (match des(id) case None => Err(IdentityInvalid) case Some(v) => Ok(IdentityVerifier(v)))
    // a script owner gets the verifier built from the script bytes the envelope carries
    ensures c.rawOwner(id).Some? && c.rawOwner(id).value.typ == PledgeScriptType ==>
      r == GetPledgeVerifier(c, des, c.rawOwner(id).value.identity)
    ensures c.rawOwner(id).Some? && c.rawOwner(id).value.typ == HTLCScriptType ==>
      r == GetHTLCVerifier(c, des, c.rawOwner(id).value.identity)
    // the kind of verifier follows the tag
    ensures r.Ok? ==>
      c.rawOwner(id).Some? &&
      (r.value.IdentityVerifier? <==> c.rawOwner(id).value.typ == SerializedIdentityType) &&
      (r.value.PledgeVerifier? <==> c.rawOwner(id).value.typ == PledgeScriptType) &&
      (r.value.HTLCVerifier? <==> c.rawOwner(id).value.typ == HTLCScriptType)
    // success exactly when the tag is known and every identity the verifier needs deserializes
    ensures r.Ok? <==>
      c.rawOwner(id).Some? &&
      var si := c.rawOwner(id).value;
      (si.typ == SerializedIdentityType && des(id).Some?) ||
      (si.typ == PledgeScriptType && c.pledgeScript(si.identity).Some? &&
        des(c.pledgeScript(si.identity).value.sender).Some? && des(c.pledgeScript(si.identity).value.issuer).Some?) ||
      (si.typ == HTLCScriptType && c.htlcScript(si.identity).Some? &&
        des(c.htlcScript(si.identity).value.sender).Some? && des(c.htlcScript(si.identity).value.recipient).Some?)
  {
    match c.rawOwner(id)
    case None => Err(OwnerMalformed)
    case Some(si) =>
      if si.typ == SerializedIdentityType then
        match des(id)
        case None => Err(IdentityInvalid)
        case Some(v) => Ok(IdentityVerifier(v))
      else if si.typ == PledgeScriptType then GetPledgeVerifier(c, des, si.identity)
      else if si.typ == HTLCScriptType then GetHTLCVerifier(c, des, si.identity)
      else Err(UnknownOwnerType(si.typ))
  }
}
