/** The token data model shared by the interop core: byte strings and
    identities, the raw owner envelope with its type tag, the HTLC and pledge
    scripts, token records and quantities at a fixed precision. */
module Tokens {
  import opened Results

  type byte = bv8
  type Bytes = seq<byte>

  /** A serialized identity; the empty identity is "none". */
  type Identity = Bytes

  predicate IsNone(id: Identity) { |id| == 0 }

  newtype uint64 = x: int | 0 <= x < 0x1_0000_0000_0000_0000

  /** Type tags of the raw owner envelope. */
  const SerializedIdentityType: string := "si"
  const HTLCScriptType: string := "htlc"
  const PledgeScriptType: string := "pledge"

  /** The decoded owner envelope: a type tag and the bytes it governs. */
  datatype RawOwner = RawOwner(typ: string, identity: Bytes)

  /** A pledge locks a token for a recipient on a destination network until a deadline. */
  datatype PledgeScript = PledgeScript(
    sender: Identity,
    recipient: Identity,
    issuer: Identity,
    id: string,
    deadline: int,
    destinationNetwork: string)

  datatype HashInfo = HashInfo(hash: Bytes, hashFunc: nat, hashEncoding: nat)

  /** A hash-time-locked script. */
  datatype HTLCScript = HTLCScript(
    sender: Identity,
    recipient: Identity,
    deadline: int,
    hashInfo: HashInfo)

  /** The decoders the core relies on: the raw owner envelope and the JSON form
      of the two scripts. None stands for a decoding error. */
  datatype Codecs = Codecs(
    rawOwner: Bytes -> Option<RawOwner>,
    pledgeScript: Bytes -> Option<PledgeScript>,
    htlcScript: Bytes -> Option<HTLCScript>)

  datatype TokenID = TokenID(txId: string, index: nat)

  /** A token: its owner's raw bytes, its type and its quantity in text form. */
  datatype Token = Token(owner: Bytes, typ: string, quantity: string)

  datatype UnspentToken = UnspentToken(id: TokenID, owner: Bytes, typ: string, quantity: string)

  /** The per-output metadata of an action: the issuer's identity (empty in a transfer). */
  datatype OutputMetadata = OutputMetadata(issuer: Identity)

  function Pow2(n: nat): (r: nat)
    ensures r >= 1
  {
    if n == 0 then 1 else 2 * Pow2(n - 1)
  }

  datatype QuantityError = NonPositivePrecision | PrecisionTooLarge | Unparseable | Negative | Overflow

  /** Builds a quantity of the given precision (in bits) from an unsigned integer. */
  function UInt64ToQuantity(v: uint64, precision: nat): (r: Result<nat, QuantityError>)
    ensures r.Ok? <==> 0 < precision <= 64 && (v as int) < Pow2(precision)
    ensures r.Ok? ==> r.value == v as nat
  {
    if precision == 0 then Err(NonPositivePrecision)
    else if precision > 64 then Err(PrecisionTooLarge)
    else if (v as int) >= Pow2(precision) then Err(Overflow)
    else Ok(v as nat)
  }

  /** Reads a quantity from its text form at the given precision; parse is the
      numeric parser of the text form. */
  function ToQuantity(parse: string -> Option<int>, s: string, precision: nat): (r: Result<nat, QuantityError>)
    ensures r.Ok? <==> 0 < precision <= 64 && parse(s).Some? && 0 <= parse(s).value < Pow2(precision)
    ensures r.Ok? ==> r.value == parse(s).value
  {
    if precision == 0 then Err(NonPositivePrecision)
    else if precision > 64 then Err(PrecisionTooLarge)
    else match parse(s)
    case None => Err(Unparseable)
    case Some(v) =>
      if v < 0 then Err(Negative)
      else if v >= Pow2(precision) then Err(Overflow)
      else Ok(v)
  }
}
