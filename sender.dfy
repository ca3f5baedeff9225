/** Assembly of a fabtoken transfer action and its metadata
    (token/core/fabtoken/sender.go): input owners become the senders, each
    output's owner tag decides its receiver and receiver audit info, and the
    owner-wallet lookup decides which receivers are also senders. */
module FabTokenTransfer {
  import opened Results
  import opened Tokens
  import Interop

  datatype TransferError =
    | LoadFailed
    | InvalidOutput
    | OwnerMalformed
    | ScriptPartiesUnavailable(cause: Interop.InfoError)
    | PledgeScriptMalformed
    | UnknownOwnerType(typ: string)
    | SenderAuditInfoFailed(cause: Interop.InfoError)
    | ReceiverAuditInfoFailed(cause: Interop.InfoError)
    | ScriptAuditInfoFailed

  /** What the token loader returns for the requested ids. */
  datatype Loaded = Loaded(inputIDs: seq<TokenID>, inputTokens: seq<Token>)

  /** An output is None when the token or its owner is nil. */
  type Output = Option<Token>

  datatype TransferAction = TransferAction(inputs: seq<TokenID>, outputs: seq<Output>, metadata: map<string, Bytes>)

  datatype TransferMetadata = TransferMetadata(
    outputs: seq<Output>,
    senders: seq<Identity>,
    senderAuditInfos: seq<Interop.AuditInfo>,
    tokenIDs: seq<TokenID>,
    outputsMetadata: seq<OutputMetadata>,
    receivers: seq<Identity>,
    receiverIsSender: seq<bool>,
    receiverAuditInfos: seq<Interop.AuditInfo>)

  /** The services the transfer consults: the decoders, the audit-info
      provider, and whether an identity has an owner wallet here. */
  datatype Service = Service(codecs: Codecs, audit: Interop.AuditInfoProvider, hasOwnerWallet: Identity -> bool)

  /** The receiver named by one output, or why it cannot be resolved. */
  function ReceiverOf(c: Codecs, o: Output): (r: Result<Identity, TransferError>) {
    match o
    case None => Err(InvalidOutput)
    case Some(t) =>
      if |t.owner| == 0 then Ok(t.owner)
      else match c.rawOwner(t.owner)
        case None => Err(OwnerMalformed)
        case Some(ro) =>
          if ro.typ == SerializedIdentityType then Ok(t.owner)
          else if ro.typ == HTLCScriptType then
            match Interop.GetScriptSenderAndRecipient(c, ro)
            case Err(e) => Err(ScriptPartiesUnavailable(e))
            case Ok(p) => Ok(p.recipient)
          else if ro.typ == PledgeScriptType then
            match c.pledgeScript(ro.identity)
            case None => Err(PledgeScriptMalformed)
            case Some(s) => Ok(s.issuer)
          else Err(UnknownOwnerType(ro.typ))
  }

  /** The audit info of one input token's owner. */
  function SenderAuditOf(svc: Service, t: Token): (r: Result<Interop.AuditInfo, TransferError>) {
    match Interop.GetOwnerAuditInfo(svc.codecs, svc.audit, t.owner)
    case Err(e) => Err(SenderAuditInfoFailed(e))
    case Ok(a) => Ok(a)
  }

  /** The receiver audit info of one output: the owner's audit info, except
      that a pledge script pairs the sender's with the ISSUER's audit info. */
  function ReceiverAuditOf(svc: Service, o: Output): (r: Result<Interop.AuditInfo, TransferError>) {
    match o
    case None => Err(InvalidOutput)
    case Some(t) =>
      match Interop.GetOwnerAuditInfo(svc.codecs, svc.audit, t.owner)
      case Err(e) => Err(ReceiverAuditInfoFailed(e))
      case Ok(a) =>
        if |t.owner| == 0 then Ok(Interop.NoAuditInfo)
        else match svc.codecs.rawOwner(t.owner)
          case None => Err(OwnerMalformed)
          case Some(ro) =>
            if ro.typ != PledgeScriptType then Ok(a)
            else match svc.codecs.pledgeScript(ro.identity)
              case None => Err(PledgeScriptMalformed)
              case Some(s) =>
                match svc.audit(s.sender)
                case None => Err(ScriptAuditInfoFailed)
                case Some(sa) =>
                  match svc.audit(s.issuer)
                  case None => Err(ScriptAuditInfoFailed)
                  case Some(ia) => Ok(Interop.ScriptInfo(sa, ia))
  }

  function ReceiverResults(c: Codecs, outs: seq<Output>): (rs: seq<Result<Identity, TransferError>>)
    ensures |rs| == |outs| && forall i :: 0 <= i < |outs| ==> rs[i] == ReceiverOf(c, outs[i])
  {
    seq(|outs|, i requires 0 <= i < |outs| => ReceiverOf(c, outs[i]))
  }

  function SenderAuditResults(svc: Service, toks: seq<Token>): (rs: seq<Result<Interop.AuditInfo, TransferError>>)
    ensures |rs| == |toks| && forall i :: 0 <= i < |toks| ==> rs[i] == SenderAuditOf(svc, toks[i])
  {
    seq(|toks|, i requires 0 <= i < |toks| => SenderAuditOf(svc, toks[i]))
  }

  function ReceiverAuditResults(svc: Service, outs: seq<Output>): (rs: seq<Result<Interop.AuditInfo, TransferError>>)
    ensures |rs| == |outs| && forall i :: 0 <= i < |outs| ==> rs[i] == ReceiverAuditOf(svc, outs[i])
  {
    seq(|outs|, i requires 0 <= i < |outs| => ReceiverAuditOf(svc, outs[i]))
  }

  function Owners(toks: seq<Token>): (r: seq<Identity>)
    ensures |r| == |toks| && forall i :: 0 <= i < |toks| ==> r[i] == toks[i].owner
  {
    seq(|toks|, i requires 0 <= i < |toks| => toks[i].owner)
  }

  /** The outcome of a transfer: loading the inputs, then resolving every
      receiver, then the sender audit infos, then the receiver audit infos,
      each stage stopping at its first failing element. */
  function TransferSpec(svc: Service, loaded: Option<Loaded>, ids: seq<TokenID>, outputs: seq<Output>,
                        actionMetadata: map<string, Bytes>): (r: Result<(TransferAction, TransferMetadata), TransferError>)
  {
    match loaded
    case None => Err(LoadFailed)
    case Some(l) =>
      match Collect(ReceiverResults(svc.codecs, outputs))
      case Err(e) => Err(e)
      case Ok(receivers) =>
        match Collect(SenderAuditResults(svc, l.inputTokens))
        case Err(e) => Err(e)
        case Ok(senderInfos) =>
          match Collect(ReceiverAuditResults(svc, outputs))
          case Err(e) => Err(e)
          case Ok(receiverInfos) =>
            Ok((TransferAction(l.inputIDs, outputs, actionMetadata),
                TransferMetadata(
                  outputs, Owners(l.inputTokens), senderInfos, ids,
                  seq(|outputs|, _ => OutputMetadata([])),
                  receivers,
                  seq(|receivers|, i requires 0 <= i < |receivers| => svc.hasOwnerWallet(receivers[i])),
                  receiverInfos)))
  }

  /** The receivers of the outputs, in order, or the first failure. */
  method ResolveReceivers(c: Codecs, outs: seq<Output>) returns (r: Result<seq<Identity>, TransferError>)
    ensures r == Collect(ReceiverResults(c, outs))
  {
    ghost var rr := ReceiverResults(c, outs);
    var receivers: seq<Identity> := [];
    for i := 0 to |outs|
      invariant |receivers| == i
      invariant forall k :: 0 <= k < i ==> rr[k] == Ok(receivers[k])
    {
      var output := outs[i];
      if output.None? {
        CollectFirstErr(rr, i);
        return Err(InvalidOutput);
      }
      var raw := output.value.owner;
      if |raw| == 0 {
        receivers := receivers + [raw];
        continue;
      }
      var owner := c.rawOwner(raw);
      if owner.None? {
        CollectFirstErr(rr, i);
        return Err(OwnerMalformed);
      }
      if owner.value.typ == SerializedIdentityType {
        receivers := receivers + [raw];
        continue;
      }
      if owner.value.typ == HTLCScriptType {
        var parties := Interop.GetScriptSenderAndRecipient(c, owner.value);
        if parties.Err? {
          CollectFirstErr(rr, i);
          return Err(ScriptPartiesUnavailable(parties.error));
        }
        receivers := receivers + [parties.value.recipient];
        continue;
      }
      if owner.value.typ == PledgeScriptType {
        var script := c.pledgeScript(owner.value.identity);
        if script.None? {
          CollectFirstErr(rr, i);
          return Err(PledgeScriptMalformed);
        }
        receivers := receivers + [script.value.issuer];
        continue;
      }
      CollectFirstErr(rr, i);
      return Err(UnknownOwnerType(owner.value.typ));
    }
    CollectAllOk(rr, receivers);
    return Ok(receivers);
  }

  /** The audit infos of the input owners, in order, or the first failure. */
  method CollectSenderAuditInfos(svc: Service, toks: seq<Token>) returns (r: Result<seq<Interop.AuditInfo>, TransferError>)
    ensures r == Collect(SenderAuditResults(svc, toks))
  {
    ghost var sr := SenderAuditResults(svc, toks);
    var infos: seq<Interop.AuditInfo> := [];
    for i := 0 to |toks|
      invariant |infos| == i
      invariant forall k :: 0 <= k < i ==> sr[k] == Ok(infos[k])
    {
      var auditInfo := Interop.GetOwnerAuditInfo(svc.codecs, svc.audit, toks[i].owner);
      if auditInfo.Err? {
        CollectFirstErr(sr, i);
        return Err(SenderAuditInfoFailed(auditInfo.error));
      }
      infos := infos + [auditInfo.value];
    }
    CollectAllOk(sr, infos);
    return Ok(infos);
  }

  /** The receiver audit infos of the outputs, in order, or the first
      failure; every output is known to have a receiver. */
  method CollectReceiverAuditInfos(svc: Service, outs: seq<Output>) returns (r: Result<seq<Interop.AuditInfo>, TransferError>)
    requires forall i :: 0 <= i < |outs| ==> outs[i].Some?
    ensures r == Collect(ReceiverAuditResults(svc, outs))
  {
    var c := svc.codecs;
    ghost var ar := ReceiverAuditResults(svc, outs);
    var infos: seq<Interop.AuditInfo> := [];
    for i := 0 to |outs|
      invariant |infos| == i
      invariant forall k :: 0 <= k < i ==> ar[k] == Ok(infos[k])
    {
      var output := outs[i].value;
      var auditInfo := Interop.GetOwnerAuditInfo(c, svc.audit, output.owner);
      if auditInfo.Err? {
        CollectFirstErr(ar, i);
        return Err(ReceiverAuditInfoFailed(auditInfo.error));
      }
      if |output.owner| == 0 {
        infos := infos + [Interop.NoAuditInfo];
        continue;
      }
      var owner := c.rawOwner(output.owner);
      if owner.None? {
        // the owner's audit info was obtained, so the owner decodes
        assert false;
      }
      var info := auditInfo.value;
      if owner.value.typ == PledgeScriptType {
        var script := c.pledgeScript(owner.value.identity);
        if script.None? {
          // the owner's audit info was obtained, so the script decodes
          assert false;
        }
        var sender := svc.audit(script.value.sender);
        if sender.None? {
          // the owner's audit info already holds the sender's
          assert false;
        }
        var recipient := svc.audit(script.value.issuer);
        if recipient.None? {
          CollectFirstErr(ar, i);
          return Err(ScriptAuditInfoFailed);
        }
        info := Interop.ScriptInfo(sender.value, recipient.value);
      }
      infos := infos + [info];
    }
    CollectAllOk(ar, infos);
    return Ok(infos);
  }

  /** Builds the transfer action and its metadata. loaded is what the token
      loader returned for ids (None: loading failed); actionMetadata is the
      action's metadata map as filled from the transfer options. */
  method Transfer(svc: Service, loaded: Option<Loaded>, ids: seq<TokenID>, outputs: seq<Output>,
                  actionMetadata: map<string, Bytes>)
    returns (r: Result<(TransferAction, TransferMetadata), TransferError>)
    ensures r == TransferSpec(svc, loaded, ids, outputs, actionMetadata)
  {
    if loaded.None? {
      return Err(LoadFailed);
    }
    var inputIDs, inputTokens := loaded.value.inputIDs, loaded.value.inputTokens;

    var signerIds: seq<Identity> := [];
    for i := 0 to |inputTokens|
      invariant signerIds == Owners(inputTokens[..i])
    {
      signerIds := signerIds + [inputTokens[i].owner];
    }
    assert inputTokens[..|inputTokens|] == inputTokens;

    var outs: seq<Output> := [];
    var metas: seq<OutputMetadata> := [];
    for i := 0 to |outputs|
      invariant outs == outputs[..i]
      invariant metas == seq(i, _ => OutputMetadata([]))
    {
      outs := outs + [outputs[i]];
      metas := metas + [OutputMetadata([])];
    }
    assert outs == outputs;

    var transfer := TransferAction(inputIDs, outs, actionMetadata);

    var receivers := ResolveReceivers(svc.codecs, outs);
    if receivers.Err? {
      return Err(receivers.error);
    }
    CollectOk(ReceiverResults(svc.codecs, outs));
    var senderAuditInfos := CollectSenderAuditInfos(svc, inputTokens);
    if senderAuditInfos.Err? {
      return Err(senderAuditInfos.error);
    }
    var receiverAuditInfos := CollectReceiverAuditInfos(svc, outs);
    if receiverAuditInfos.Err? {
      return Err(receiverAuditInfos.error);
    }

    var rs := receivers.value;
    var receiverIsSender := seq(|rs|, _ => false);
    for i := 0 to |rs|
      invariant |receiverIsSender| == |rs|
      invariant forall k :: 0 <= k < i ==> receiverIsSender[k] == svc.hasOwnerWallet(rs[k])
    {
      receiverIsSender := receiverIsSender[i := svc.hasOwnerWallet(rs[i])];
    }

    assert receiverIsSender == seq(|rs|, i requires 0 <= i < |rs| => svc.hasOwnerWallet(rs[i]));
    var metadata := TransferMetadata(outs, signerIds, senderAuditInfos.value, ids, metas,
                                     rs, receiverIsSender, receiverAuditInfos.value);
    return Ok((transfer, metadata));
  }

  /** A transfer succeeds exactly when the inputs load and every output's
      receiver, every input's audit info and every output's receiver audit
      info can be obtained. */
  lemma TransferSucceeds(svc: Service, loaded: Option<Loaded>, ids: seq<TokenID>, outputs: seq<Output>,
                         md: map<string, Bytes>)
    ensures TransferSpec(svc, loaded, ids, outputs, md).Ok? <==>
      loaded.Some? &&
      (forall i :: 0 <= i < |outputs| ==> ReceiverOf(svc.codecs, outputs[i]).Ok?) &&
      (forall i :: 0 <= i < |loaded.value.inputTokens| ==> SenderAuditOf(svc, loaded.value.inputTokens[i]).Ok?) &&
      (forall i :: 0 <= i < |outputs| ==> ReceiverAuditOf(svc, outputs[i]).Ok?)
  {
    if loaded.Some? {
      CollectOk(ReceiverResults(svc.codecs, outputs));
      CollectOk(SenderAuditResults(svc, loaded.value.inputTokens));
      CollectOk(ReceiverAuditResults(svc, outputs));
    }
  }

  /** A nil output, or one with a nil owner, anywhere fails the whole transfer. */
  lemma NilOutputFails(svc: Service, loaded: Option<Loaded>, ids: seq<TokenID>, outputs: seq<Output>,
                       md: map<string, Bytes>, i: nat)
    requires i < |outputs| && outputs[i].None?
    ensures TransferSpec(svc, loaded, ids, outputs, md).Err?
  {
    TransferSucceeds(svc, loaded, ids, outputs, md);
  }

  /** On success: the action's inputs are the loaded ids, its outputs the given
      ones; the senders are the input owners in input order, with one audit
      info per input; the token ids are the requested ones; each output has one
      empty outputs-metadata entry and one receiver, and receiverIsSender[i]
      says whether receivers[i] has an owner wallet. */
  lemma TransferShape(svc: Service, loaded: Option<Loaded>, ids: seq<TokenID>, outputs: seq<Output>,
                      md: map<string, Bytes>)
    requires TransferSpec(svc, loaded, ids, outputs, md).Ok?
    ensures
      var (action, meta) := TransferSpec(svc, loaded, ids, outputs, md).value;
      loaded.Some? && action.inputs == loaded.value.inputIDs && action.outputs == outputs &&
      action.metadata == md && meta.outputs == outputs && meta.tokenIDs == ids &&
      |meta.senders| == |loaded.value.inputTokens| &&
      (forall i :: 0 <= i < |loaded.value.inputTokens| ==> meta.senders[i] == loaded.value.inputTokens[i].owner) &&
      |meta.senderAuditInfos| == |loaded.value.inputTokens| &&
      (forall i :: 0 <= i < |loaded.value.inputTokens| ==>
        Interop.GetOwnerAuditInfo(svc.codecs, svc.audit, loaded.value.inputTokens[i].owner) == Ok(meta.senderAuditInfos[i])) &&
      |meta.outputsMetadata| == |outputs| && (forall i :: 0 <= i < |outputs| ==> meta.outputsMetadata[i] == OutputMetadata([])) &&
      |meta.receivers| == |outputs| && |meta.receiverAuditInfos| == |outputs| &&
      |meta.receiverIsSender| == |meta.receivers| &&
      (forall i :: 0 <= i < |meta.receivers| ==> (meta.receiverIsSender[i] <==> svc.hasOwnerWallet(meta.receivers[i])))
  {
    CollectOk(SenderAuditResults(svc, loaded.value.inputTokens));
  }

  /** On success each receiver is decided by its output's owner tag: an empty
      owner (redeem) gives the empty receiver, a serialized identity the raw
      owner, an HTLC script its recipient and a pledge script its issuer; no
      other tag gets through. */
  lemma TransferReceivers(svc: Service, loaded: Option<Loaded>, ids: seq<TokenID>, outputs: seq<Output>,
                          md: map<string, Bytes>)
    requires TransferSpec(svc, loaded, ids, outputs, md).Ok?
    ensures
      var c := svc.codecs;
      var receivers := TransferSpec(svc, loaded, ids, outputs, md).value.1.receivers;
      forall i :: 0 <= i < |outputs| ==>
        outputs[i].Some? &&
        var raw := outputs[i].value.owner;
        (|raw| == 0 ==> receivers[i] == []) &&
        (|raw| > 0 ==>
          c.rawOwner(raw).Some? &&
          var ro := c.rawOwner(raw).value;
          (ro.typ == SerializedIdentityType || ro.typ == HTLCScriptType || ro.typ == PledgeScriptType) &&
          (ro.typ == SerializedIdentityType ==> receivers[i] == raw) &&
          (ro.typ == HTLCScriptType ==> c.htlcScript(ro.identity).Some? && receivers[i] == c.htlcScript(ro.identity).value.recipient) &&
          (ro.typ == PledgeScriptType ==> c.pledgeScript(ro.identity).Some? && receivers[i] == c.pledgeScript(ro.identity).value.issuer))
  {
    CollectOk(ReceiverResults(svc.codecs, outputs));
  }

  /** On success a redeem output has no receiver audit info, a pledge output
      pairs the audit infos of the script's sender and issuer, and any other
      output has its owner's audit info. For a pledge this differs from the
      owner's audit info, which pairs the sender with the recipient. */
  lemma TransferReceiverAuditInfos(svc: Service, loaded: Option<Loaded>, ids: seq<TokenID>, outputs: seq<Output>,
                                   md: map<string, Bytes>)
    requires TransferSpec(svc, loaded, ids, outputs, md).Ok?
    ensures
      var c := svc.codecs;
      var infos := TransferSpec(svc, loaded, ids, outputs, md).value.1.receiverAuditInfos;
      forall i :: 0 <= i < |outputs| ==>
        outputs[i].Some? &&
        var raw := outputs[i].value.owner;
        (|raw| == 0 ==> infos[i] == Interop.NoAuditInfo) &&
        (|raw| > 0 ==>
          c.rawOwner(raw).Some? &&
          (c.rawOwner(raw).value.typ != PledgeScriptType ==> Interop.GetOwnerAuditInfo(c, svc.audit, raw) == Ok(infos[i])) &&
          (c.rawOwner(raw).value.typ == PledgeScriptType ==>
            c.pledgeScript(c.rawOwner(raw).value.identity).Some? &&
            var s := c.pledgeScript(c.rawOwner(raw).value.identity).value;
            svc.audit(s.sender).Some? && svc.audit(s.issuer).Some? && svc.audit(s.recipient).Some? &&
            infos[i] == Interop.ScriptInfo(svc.audit(s.sender).value, svc.audit(s.issuer).value) &&
            Interop.GetOwnerAuditInfo(c, svc.audit, raw) == Ok(Interop.ScriptInfo(svc.audit(s.sender).value, svc.audit(s.recipient).value))))
  {
    CollectOk(ReceiverResults(svc.codecs, outputs));
    CollectOk(ReceiverAuditResults(svc, outputs));
  }
}
