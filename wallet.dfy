/** Pledged-token lookup and script ownership of pledge tokens
    (token/services/interop/pledge/wallet.go). */
module PledgeWallet {
  import opened Results
  import opened Tokens

  datatype WalletError =
    | OwnerMalformed
    | PledgeScriptMalformed
    | MultiplePledged
    | NoPledged

  /** A pledged token found by the lookup, with the script its owner carries. */
  datatype Pledged = Pledged(token: UnspentToken, script: PledgeScript)

  /** The error with which a token whose id matches aborts the lookup, if any:
      an owner that does not decode, or a pledge owner whose script does not. */
  function AbortOf(c: Codecs, t: UnspentToken): (e: Option<WalletError>) {
    match c.rawOwner(t.owner)
    case None => Some(OwnerMalformed)
    case Some(ro) =>
      if ro.typ == PledgeScriptType && c.pledgeScript(ro.identity).None? then Some(PledgeScriptMalformed)
      else None
  }

  /** toks[k] has the wanted id and aborts the lookup. */
  ghost predicate AbortsAt(c: Codecs, toks: seq<UnspentToken>, id: TokenID, k: int) {
    0 <= k < |toks| && toks[k].id == id && AbortOf(c, toks[k]).Some?
  }

  ghost predicate NoAbort(c: Codecs, toks: seq<UnspentToken>, id: TokenID) {
    forall k :: !AbortsAt(c, toks, id, k)
  }

  /** toks[k] has the wanted id and an owner of type pledge. */
  ghost predicate PledgedAt(c: Codecs, toks: seq<UnspentToken>, id: TokenID, k: int) {
    0 <= k < |toks| && toks[k].id == id && c.rawOwner(toks[k].owner).Some? &&
    c.rawOwner(toks[k].owner).value.typ == PledgeScriptType
  }

  /** The script decoded from the owner of a pledged token. */
  ghost function ScriptOf(c: Codecs, t: UnspentToken): (s: Option<PledgeScript>) {
    match c.rawOwner(t.owner)
    case None => None
    case Some(ro) => c.pledgeScript(ro.identity)
  }

  /** Finds the unique unspent pledged token with the given id, with its script.
      The first matching token that does not decode decides the error. */
  method RetrievePledgedToken(c: Codecs, toks: seq<UnspentToken>, id: TokenID)
    returns (r: Result<Pledged, WalletError>)
    ensures forall k :: AbortsAt(c, toks, id, k) && (forall j :: 0 <= j < k ==> !AbortsAt(c, toks, id, j)) ==>
      r == Err(AbortOf(c, toks[k]).value)
    ensures (r == Err(OwnerMalformed) || r == Err(PledgeScriptMalformed)) ==> exists k :: AbortsAt(c, toks, id, k)
    // otherwise: none found, several found, or the unique one with the script of that same token
    ensures NoAbort(c, toks, id) ==> (r == Err(NoPledged) <==> forall k :: !PledgedAt(c, toks, id, k))
    ensures NoAbort(c, toks, id) ==>
      (r == Err(MultiplePledged) <==> exists j, k :: j < k && PledgedAt(c, toks, id, j) && PledgedAt(c, toks, id, k))
    ensures r.Ok? ==>
      NoAbort(c, toks, id) &&
      exists k :: PledgedAt(c, toks, id, k) && ScriptOf(c, toks[k]).Some? &&
        r.value == Pledged(toks[k], ScriptOf(c, toks[k]).value) &&
        forall j :: PledgedAt(c, toks, id, j) ==> j == k
  {
    var res: seq<UnspentToken> := [];
    var scripts: seq<PledgeScript> := [];
    ghost var idx: seq<int> := [];
    for i := 0 to |toks|
      invariant |res| == |scripts| == |idx|
      invariant forall k :: 0 <= k < i ==> !AbortsAt(c, toks, id, k)
      invariant forall m :: 0 <= m < |idx| ==>
        0 <= idx[m] < i && res[m] == toks[idx[m]] && ScriptOf(c, toks[idx[m]]) == Some(scripts[m])
      invariant forall m, n :: 0 <= m < n < |idx| ==> idx[m] < idx[n]
      invariant forall k :: 0 <= k < i ==> (PledgedAt(c, toks, id, k) <==> k in idx)
    {
      var tok := toks[i];
      if tok.id == id {
        var owner := c.rawOwner(tok.owner);
        if owner.None? {
          assert AbortsAt(c, toks, id, i);
          return Err(OwnerMalformed);
        }
        if owner.value.typ == PledgeScriptType {
          res := res + [tok];
          var script := c.pledgeScript(owner.value.identity);
          if script.None? {
            assert AbortsAt(c, toks, id, i);
            return Err(PledgeScriptMalformed);
          }
          scripts := scripts + [script.value];
          idx := idx + [i];
        }
      }
    }
    if |res| > 1 {
      assert PledgedAt(c, toks, id, idx[0]) && PledgedAt(c, toks, id, idx[1]);
      return Err(MultiplePledged);
    }
    if |res| == 0 {
      return Err(NoPledged);
    }
    assert PledgedAt(c, toks, id, idx[0]);
    return Ok(Pledged(res[0], scripts[0]));
  }

  /** Whether a script owner could ever answer to a token manager as an auditor. */
  function AmIAnAuditor(): (r: bool)
    ensures !r
  {
    false
  }

  /** The three beneficiaries of a pledge, in the order they are tried. */
  function Beneficiaries(s: PledgeScript): (ids: seq<Identity>) {
    [s.sender, s.recipient, s.issuer]
  }

  /** The id of the wallet of the first identity in bs that has one. */
  function FirstWallet(walletOf: Identity -> Option<string>, bs: seq<Identity>): (r: Option<string>)
    ensures r.Some? <==> exists i :: 0 <= i < |bs| && walletOf(bs[i]).Some?
    ensures r.Some? ==>
      exists i :: 0 <= i < |bs| && walletOf(bs[i]) == r && forall j :: 0 <= j < i ==> walletOf(bs[j]).None?
  {
    if bs == [] then None
    else if walletOf(bs[0]).Some? then walletOf(bs[0])
    else
      var r := FirstWallet(walletOf, bs[1..]);
      assert forall i :: 1 <= i < |bs| ==> bs[i] == bs[1..][i - 1];
      r
  }

  /** The pledge script held by a token's owner, when the owner decodes, is of
      type pledge, its script decodes and names a sender, recipient and issuer. */
  function ValidPledgeScript(c: Codecs, tok: Token): (s: Option<PledgeScript>) {
    match c.rawOwner(tok.owner)
    case None => None
    case Some(ro) =>
      if ro.typ != PledgeScriptType then None
      else match c.pledgeScript(ro.identity)
        case None => None
        case Some(s) =>
          if IsNone(s.sender) || IsNone(s.recipient) || IsNone(s.issuer) then None else Some(s)
  }

  /** Whether the token belongs to one of our wallets as the pledge's sender,
      recipient or issuer; walletOf finds the owner wallet of an identity. */
  function IsMine(c: Codecs, walletOf: Identity -> Option<string>, tok: Token): (r: (seq<string>, bool))
    ensures r.1 <==> |r.0| == 1
    ensures !r.1 ==> r.0 == []
    // mine only for a decodable pledge owner whose script names all three parties
    ensures r.1 ==>
      c.rawOwner(tok.owner).Some? && c.rawOwner(tok.owner).value.typ == PledgeScriptType &&
      var s := c.pledgeScript(c.rawOwner(tok.owner).value.identity);
      s.Some? && !IsNone(s.value.sender) && !IsNone(s.value.recipient) && !IsNone(s.value.issuer)
    // any non-pledge or undecodable owner, or a script missing a party, is not mine
    ensures ValidPledgeScript(c, tok).None? ==> r == ([], false)
    // otherwise mine exactly when some beneficiary has a wallet, and the first one found names it
    ensures ValidPledgeScript(c, tok).Some? ==>
      var bs := Beneficiaries(ValidPledgeScript(c, tok).value);
      (r.1 <==> exists i :: 0 <= i < 3 && walletOf(bs[i]).Some?) &&
      (r.1 ==> exists i :: 0 <= i < 3 && walletOf(bs[i]).Some? && r.0 == [walletOf(bs[i]).value] &&
                 forall j :: 0 <= j < i ==> walletOf(bs[j]).None?)
  {
    match ValidPledgeScript(c, tok)
    case None => ([], false)
    case Some(script) =>
      match FirstWallet(walletOf, Beneficiaries(script))
      case None => ([], false)
      case Some(w) => ([w], true)
  }
}
