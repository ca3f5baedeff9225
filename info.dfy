/** Audit information of a token owner (token/core/interop/info.go): the owner's
    own audit info for a serialized identity, a ScriptInfo pairing the sender's
    and the recipient's audit infos for a script, nothing for a redeem. */
module Interop {
  import opened Results
  import opened Tokens

  /** What GetOwnerAuditInfo produces: an empty blob (redeem), the audit info of
      a serialized identity, or the JSON of a ScriptInfo. */
  datatype AuditInfo =
    | NoAuditInfo
    | IdentityAuditInfo(info: Bytes)
    | ScriptInfo(sender: Bytes, recipient: Bytes)

  datatype InfoError =
    | OwnerMalformed
    | HTLCScriptMalformed
    | PledgeScriptMalformed
    | UnknownOwnerType(typ: string)
    | AuditInfoUnavailable

  /** The parties named by a script; issuer is None for an HTLC script. */
  datatype Parties = Parties(sender: Identity, recipient: Identity, issuer: Option<Identity>)

  /** The audit-info service of the token management service: None is a lookup failure. */
  type AuditInfoProvider = Identity -> Option<Bytes>

  predicate IsScriptType(typ: string) {
    typ == HTLCScriptType || typ == PledgeScriptType
  }

  function GetScriptSenderAndRecipient(c: Codecs, ro: RawOwner): (r: Result<Parties, InfoError>)
    ensures !IsScriptType(ro.typ) <==> r == Err(UnknownOwnerType(ro.typ))
    ensures ro.typ == HTLCScriptType ==>
      match c.htlcScript(ro.identity)
      case None => r == Err(HTLCScriptMalformed)
      case Some(s) => r == Ok(Parties(s.sender, s.recipient, None))
    ensures ro.typ == PledgeScriptType ==>
      match c.pledgeScript(ro.identity)
      case None => r == Err(PledgeScriptMalformed)
      case Some(s) => r == Ok(Parties(s.sender, s.recipient, Some(s.issuer)))
  {
    if ro.typ == HTLCScriptType then
      match c.htlcScript(ro.identity)
      case None => Err(HTLCScriptMalformed)
      case Some(s) => Ok(Parties(s.sender, s.recipient, None))
    else if ro.typ == PledgeScriptType then
      match c.pledgeScript(ro.identity)
      case None => Err(PledgeScriptMalformed)
      case Some(s) => Ok(Parties(s.sender, s.recipient, Some(s.issuer)))
    else
      Err(UnknownOwnerType(ro.typ))
  }

  function GetOwnerAuditInfo(c: Codecs, audit: AuditInfoProvider, raw: Bytes): (r: Result<AuditInfo, InfoError>)
    // a redeem (empty owner) has no audit info and no error
    ensures |raw| == 0 ==> r == Ok(NoAuditInfo)
    // an owner that does not decode is an error
    ensures |raw| > 0 && c.rawOwner(raw).None? ==> r == Err(OwnerMalformed)
    // a serialized identity gets exactly the provider's audit info of the whole raw owner
    ensures |raw| > 0 && c.rawOwner(raw).Some? && c.rawOwner(raw).value.typ == SerializedIdentityType ==>
      r == (match audit(raw) case None => Err(AuditInfoUnavailable) case Some(a) => Ok(IdentityAuditInfo(a)))
    // a script owner gets the audit infos of the script's sender and RECIPIENT (never the issuer)
    ensures r.Ok? && r.value.ScriptInfo? ==>
      |raw| > 0 && c.rawOwner(raw).Some? &&
      var p := GetScriptSenderAndRecipient(c, c.rawOwner(raw).value);
      p.Ok? && audit(p.value.sender) == Some(r.value.sender) && audit(p.value.recipient) == Some(r.value.recipient)
    // success on a non-empty owner means a known tag
    ensures r.Ok? && |raw| > 0 ==>
      c.rawOwner(raw).Some? && (c.rawOwner(raw).value.typ == SerializedIdentityType || IsScriptType(c.rawOwner(raw).value.typ))
    // an unknown tag, or a script that does not decode, is the script error
    ensures (|raw| > 0 && c.rawOwner(raw).Some? && c.rawOwner(raw).value.typ != SerializedIdentityType &&
             GetScriptSenderAndRecipient(c, c.rawOwner(raw).value).Err?) ==>
      r == Err(GetScriptSenderAndRecipient(c, c.rawOwner(raw).value).error)
    // any failed audit-info lookup is an error
    ensures forall p: Parties ::
      (|raw| > 0 && c.rawOwner(raw).Some? && c.rawOwner(raw).value.typ != SerializedIdentityType &&
       GetScriptSenderAndRecipient(c, c.rawOwner(raw).value) == Ok(p) &&
       (audit(p.sender).None? || audit(p.recipient).None?)) ==>
      r == Err(AuditInfoUnavailable)
    // and when the script's parties decode and both lookups succeed, that pair is the result
    ensures forall p: Parties ::
      (|raw| > 0 && c.rawOwner(raw).Some? && c.rawOwner(raw).value.typ != SerializedIdentityType &&
       GetScriptSenderAndRecipient(c, c.rawOwner(raw).value) == Ok(p) &&
       audit(p.sender).Some? && audit(p.recipient).Some?) ==>
      r == Ok(ScriptInfo(audit(p.sender).value, audit(p.recipient).value))
  {
    if |raw| == 0 then Ok(NoAuditInfo)
    else match c.rawOwner(raw)
      case None => Err(OwnerMalformed)
      case Some(owner) =>
        if owner.typ == SerializedIdentityType then
          match audit(raw)
          case None => Err(AuditInfoUnavailable)
          case Some(a) => Ok(IdentityAuditInfo(a))
        else
          match GetScriptSenderAndRecipient(c, owner)
          case Err(e) => Err(e)
          case Ok(p) =>
            match audit(p.sender)
            case None => Err(AuditInfoUnavailable)
            case Some(s) =>
              match audit(p.recipient)
              case None => Err(AuditInfoUnavailable)
              case Some(t) => Ok(ScriptInfo(s, t))
  }
}
