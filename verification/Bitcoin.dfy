/** The 38-byte commitment and the OP_RETURN script that carries it (hap/bitcoin.py). */
module Bitcoin {
  import opened Bytes
  import opened Hex

  const MAGIC: seq<Byte> := [0x48, 0x49, 0x53, 0x54]  // "HIST"
  const VERSION: Byte := 3
  const BATCH_MANIFEST: Byte := 1
  const OP_RETURN: Byte := 0x6A

  datatype AnchorPayload = AnchorPayload(commitmentType: Byte, manifestHash: string)

  function EncodeAnchorPayload(manifestHash: string, commitmentType: int): Option<string> {
    match FromHex(manifestHash)
    case Some(digest) =>
      if |digest| != 32 || !(0 <= commitmentType <= 255) then None
      else Some(ToHex(MAGIC + [VERSION, commitmentType] + digest))
    case None => None
  }

  function DecodeAnchorPayload(payloadHex: string): Option<AnchorPayload> {
    match FromHex(payloadHex)
    case Some(raw) =>
      if |raw| != 38 || raw[..4] != MAGIC || raw[4] != VERSION then None
      else Some(AnchorPayload(raw[5], ToHex(raw[6..])))
    case None => None
  }

  function BuildOpReturnScript(payloadHex: string): Option<string> {
    match FromHex(payloadHex)
    case Some(payload) =>
      if |payload| > 75 then None else Some(ToHex([OP_RETURN, |payload|] + payload))
    case None => None
  }

  function ExtractPayload(scriptHex: string): Option<string> {
    match FromHex(scriptHex)
    case Some(raw) =>
      if |raw| < 2 || raw[0] != OP_RETURN || raw[1] > 75 || |raw| != raw[1] + 2 then None
      else Some(ToHex(raw[2..]))
    case None => None
  }

  datatype Commitment = Commitment(payloadHex: string, batchId: string)

  /** What one scanned output commits to: the three checks of the inner scan loop. */
  function CommitmentOf(scriptHex: string): Option<Commitment> {
    match ExtractPayload(scriptHex)
    case Some(payloadHex) =>
      if payloadHex == "" then None
      else (
        match DecodeAnchorPayload(payloadHex)
        case Some(payload) => Some(Commitment(payloadHex, payload.manifestHash))
        case None => None)
    case None => None
  }

  function PayloadBytes(digest: Digest, commitmentType: Byte): (raw: seq<Byte>)
    ensures |raw| == 38
  {
    MAGIC + [VERSION, commitmentType] + digest
  }

  lemma PayloadRoundTrip(digest: Digest, commitmentType: Byte)
    ensures EncodeAnchorPayload(ToHex(digest), commitmentType) == Some(ToHex(PayloadBytes(digest, commitmentType)))
    ensures DecodeAnchorPayload(ToHex(PayloadBytes(digest, commitmentType)))
         == Some(AnchorPayload(commitmentType, ToHex(digest)))
  {
    FromToHex(digest);
    var raw := PayloadBytes(digest, commitmentType);
    FromToHex(raw);
    assert raw[..4] == MAGIC && raw[6..] == digest;
  }

  /** Every payload that decodes is the encoding of its digest and type byte. */
  lemma DecodedPayload(payloadHex: string) returns (digest: Digest)
    requires DecodeAnchorPayload(payloadHex).Some?
    ensures var payload := DecodeAnchorPayload(payloadHex).value;
            && payload.manifestHash == ToHex(digest)
            && FromHex(payloadHex) == Some(PayloadBytes(digest, payload.commitmentType))
  {
    var raw := FromHex(payloadHex).value;
    digest := raw[6..];
    assert raw == PayloadBytes(digest, raw[5]);
  }

  /** An output is taken for a commitment exactly when its script is the one built for
      some digest and type byte, and the row stored for it names that digest. */
  lemma CommitmentScripts(scriptHex: string)
    ensures CommitmentOf(scriptHex).Some? <==>
            exists d: Digest, t: Byte :: FromHex(scriptHex) == Some([OP_RETURN, 38] + PayloadBytes(d, t))
    ensures forall d: Digest, t: Byte :: FromHex(scriptHex) == Some([OP_RETURN, 38] + PayloadBytes(d, t)) ==>
            CommitmentOf(scriptHex) == Some(Commitment(ToHex(PayloadBytes(d, t)), ToHex(d)))
  {
    if CommitmentOf(scriptHex).Some? {
      var raw := FromHex(scriptHex).value;
      FromToHex(raw[2..]);
      var d := DecodedPayload(ToHex(raw[2..]));
      assert raw == [OP_RETURN, 38] + raw[2..];
    }
    forall d: Digest, t: Byte | FromHex(scriptHex) == Some([OP_RETURN, 38] + PayloadBytes(d, t))
      ensures CommitmentOf(scriptHex) == Some(Commitment(ToHex(PayloadBytes(d, t)), ToHex(d)))
    {
      var raw := FromHex(scriptHex).value;
      assert raw[2..] == PayloadBytes(d, t);
      PayloadRoundTrip(d, t);
    }
  }

  /** Publishing a digest and scanning the output back finds that digest. */
  lemma PublishedIsScanned(digest: Digest, commitmentType: Byte)
    ensures var payload := EncodeAnchorPayload(ToHex(digest), commitmentType);
            && payload.Some?
            && BuildOpReturnScript(payload.value).Some?
            && CommitmentOf(BuildOpReturnScript(payload.value).value)
               == Some(Commitment(payload.value, ToHex(digest)))
  {
    PayloadRoundTrip(digest, commitmentType);
    var raw := PayloadBytes(digest, commitmentType);
    FromToHex(raw);
    FromToHex([OP_RETURN, 38] + raw);
    CommitmentScripts(ToHex([OP_RETURN, 38] + raw));
  }
}
