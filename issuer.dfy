/** Assembly of a fabtoken issue action (token/core/fabtoken/issuer.go): one
    output per value for the matching owner, the issuer recorded in every
    output's metadata, and an origin-linkage metadata map when the issue
    claims a token of another network. */
module FabTokenIssue {
  import opened Results
  import opened Tokens

  /** The issue attributes the action looks at: the origin token id, the
      origin network and the proof of claim; None when absent. */
  datatype IssueAttributes = IssueAttributes(tokenID: Option<TokenID>, network: Option<string>, proof: Option<Bytes>)

  /** What the origin-linkage metadata records. */
  datatype IssueMetadata = IssueMetadata(originTokenID: TokenID, originNetwork: string)

  /** The public-parameter precision and the encoders the issue depends on:
      the hex form of a quantity, the JSON of the origin metadata and the hash
      that keys it. */
  datatype IssueEnv = IssueEnv(
    precision: nat,
    hex: nat -> string,
    marshal: IssueMetadata -> Bytes,
    hashKey: Bytes -> string)

  /** The suffix of the key under which the proof of claim is stored. */
  const ProofOfClaimSuffix: string := "proof_of_claim"

  /** metadata is None for a nil map. */
  datatype IssueAction = IssueAction(issuer: Identity, outputs: seq<Token>, metadata: Option<map<string, Bytes>>)

  /** What a successful issue returns: the action, the serialized metadata of
      each output, and the issuer identity. */
  datatype Issued = Issued(action: IssueAction, metas: seq<OutputMetadata>, issuer: Identity)

  /** MissingOwner is the index-out-of-range panic of a value without an owner
      at its position. */
  datatype IssueError = EmptyOwner | QuantityInvalid(cause: QuantityError) | MissingOwner

  /** The origin-linkage map: present only when both the origin token id and
      the origin network are given, and then holding exactly the marshalled
      origin under its hash and the proof of claim (empty when absent) under
      that hash followed by the suffix. */
  function OriginMetadata(env: IssueEnv, attrs: IssueAttributes): (md: Option<map<string, Bytes>>)
    ensures md.Some? <==> attrs.tokenID.Some? && attrs.network.Some?
    // the proof of claim on its own creates nothing
    ensures attrs.proof.Some? && (attrs.tokenID.None? || attrs.network.None?) ==> md.None?
    ensures md.Some? ==>
      var marshalled := env.marshal(IssueMetadata(attrs.tokenID.value, attrs.network.value));
      var key := env.hashKey(marshalled);
      md.value.Keys == {key, key + ProofOfClaimSuffix} && |md.value.Keys| == 2 &&
      md.value[key] == marshalled &&
      md.value[key + ProofOfClaimSuffix] == (match attrs.proof case None => [] case Some(p) => p)
  {
    if attrs.tokenID.Some? && attrs.network.Some? then
      var marshalled := env.marshal(IssueMetadata(attrs.tokenID.value, attrs.network.value));
      var key := env.hashKey(marshalled);
      var proof := match attrs.proof case None => [] case Some(p) => p;
      assert |key + ProofOfClaimSuffix| > |key|;
      Some(map[key := marshalled, key + ProofOfClaimSuffix := proof])
    else None
  }

  /** Builds the issue action, the per-output metadata and the issuer identity.
      An empty owner anywhere fails the issue before any value is looked at.
      Owners are indexed by the position of their value, after that value is
      converted. */
  method Issue(env: IssueEnv, issuer: Identity, typ: string, values: seq<uint64>, owners: seq<Identity>,
               attrs: IssueAttributes)
    returns (r: Result<Issued, IssueError>)
    ensures (exists i :: 0 <= i < |owners| && |owners[i]| == 0) ==> r == Err(EmptyOwner)
    // otherwise the first value not representable at the precision decides the error
    ensures forall k ::
      (0 <= k < |values| && k <= |owners| && UInt64ToQuantity(values[k], env.precision).Err? &&
       (forall i :: 0 <= i < |owners| ==> |owners[i]| > 0) &&
       (forall j :: 0 <= j < k ==> UInt64ToQuantity(values[j], env.precision).Ok?)) ==>
      r == Err(QuantityInvalid(UInt64ToQuantity(values[k], env.precision).error))
    // a representable value past the last owner is the out-of-range panic
    ensures (|owners| < |values| && (forall i :: 0 <= i < |owners| ==> |owners[i]| > 0) &&
             (forall j :: 0 <= j <= |owners| ==> UInt64ToQuantity(values[j], env.precision).Ok?)) ==>
      r == Err(MissingOwner)
    ensures r.Ok? <==>
      |values| <= |owners| &&
      (forall i :: 0 <= i < |owners| ==> |owners[i]| > 0) &&
      (forall k :: 0 <= k < |values| ==> UInt64ToQuantity(values[k], env.precision).Ok?)
    // one output per value, for the owner at the same position, in hex
    ensures r.Ok? ==>
      var action := r.value.action;
      |action.outputs| == |values| &&
      (forall k :: 0 <= k < |values| ==>
        (values[k] as int) < Pow2(env.precision) &&
        action.outputs[k] == Token(owners[k], typ, env.hex(values[k] as nat))) &&
      |r.value.metas| == |values| && (forall k :: 0 <= k < |values| ==> r.value.metas[k] == OutputMetadata(issuer)) &&
      action.issuer == issuer && r.value.issuer == issuer &&
      action.metadata == OriginMetadata(env, attrs)
  {
    for i := 0 to |owners|
      invariant forall k :: 0 <= k < i ==> |owners[k]| > 0
    {
      if |owners[i]| == 0 {
        return Err(EmptyOwner);
      }
    }

    var outs: seq<Token> := [];
    var metas: seq<OutputMetadata> := [];
    for i := 0 to |values|
      invariant i <= |owners|
      invariant |outs| == |metas| == i
      invariant forall k :: 0 <= k < i ==>
        UInt64ToQuantity(values[k], env.precision).Ok? && outs[k] == Token(owners[k], typ, env.hex(values[k] as nat))
      invariant forall k :: 0 <= k < i ==> metas[k] == OutputMetadata(issuer)
    {
      var q := UInt64ToQuantity(values[i], env.precision);
      if q.Err? {
        return Err(QuantityInvalid(q.error));
      }
      if i >= |owners| {
        return Err(MissingOwner);
      }
      outs := outs + [Token(owners[i], typ, env.hex(q.value))];
      metas := metas + [OutputMetadata(issuer)];
    }

    var md := OriginMetadata(env, attrs);
    return Ok(Issued(IssueAction(issuer, outs, md), metas, issuer));
  }
}
