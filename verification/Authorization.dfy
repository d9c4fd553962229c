/** Relayer signatures over the exact bytes of a bridge claim. */
module Authorization {
  import opened Wrappers
  import opened Text
  import opened Utf8
  import opened Json

  datatype AuthorizationError =
    | InvalidEventId | InvalidTransferId | InvalidChainId | InvalidAmount
    | InvalidSignerId | UnknownSigner(signer: string) | InvalidSignature(signer: string)
    | DuplicateSigner(signer: string) | NoSignature

  /** What a relayer signs for. */
  datatype Claim = Claim(eventId: string, transferId: string, chainId: int, amountSats: int, proof: seq<string>)

  const PREAMBLE := "bait.bridge.proof.v1\n"

  /** The envelope, its keys in sorted order. */
  function Envelope(c: Claim): Value {
    Obj([Member("amount_sats", Num(c.amountSats)),
         Member("chain_id", Num(c.chainId)),
         Member("event_id", Str(c.eventId)),
         Member("proof", Arr(Texts(c.proof))),
         Member("transfer_id", Str(c.transferId)),
         Member("version", Num(1))])
  }

  function SigningBytes(c: Claim): Result<seq<Byte>, AuthorizationError> {
    if c.eventId == "" then Err(InvalidEventId)
    else if c.transferId == "" then Err(InvalidTransferId)
    else if c.chainId <= 0 then Err(InvalidChainId)
    else if c.amountSats <= 0 then Err(InvalidAmount)
    else Ok(Encode(PREAMBLE + Print(Envelope(c))))
  }

  type PublicKey = seq<Byte>

  /** The key registry with the two primitives it calls: strict Base64 and the Ed25519 check. */
  datatype Registry = Registry(
    keys: map<string, PublicKey>,
    decode: string -> Option<seq<Byte>>,
    verifies: (PublicKey, seq<Byte>, seq<Byte>) -> bool)

  function VerifyOne(reg: Registry, c: Claim, signer: string, signature: string): Result<(string, string), AuthorizationError> {
    if signer == "" then Err(InvalidSignerId)
    else if signer !in reg.keys then Err(UnknownSigner(signer))
    else
      match reg.decode(signature)
      case None => Err(InvalidSignature(signer))
      case Some(raw) =>
        if |raw| != 64 then Err(InvalidSignature(signer))
        else
          match SigningBytes(c)
          case Err(_) => Err(InvalidSignature(signer))
          case Ok(message) =>
            if reg.verifies(reg.keys[signer], raw, message) then Ok((signer, signature))
            else Err(InvalidSignature(signer))
  }

  /** verify on a list, one signature at a time. */
  function VerifyAll(reg: Registry, c: Claim, sigs: seq<(string, string)>): Result<seq<(string, string)>, AuthorizationError> {
    if sigs == [] then Ok([])
    else
      match VerifyAll(reg, c, sigs[..|sigs| - 1])
      case Err(e) => Err(e)
      case Ok(front) =>
        var (signer, signature) := sigs[|sigs| - 1];
        if exists i :: 0 <= i < |sigs| - 1 && sigs[i].0 == signer then Err(DuplicateSigner(signer))
        else
          match VerifyOne(reg, c, signer, signature)
          case Err(e) => Err(e)
          case Ok(pair) => Ok(front + [pair])
  }

  method Verify(reg: Registry, c: Claim, sigs: seq<(string, string)>) returns (r: Result<seq<(string, string)>, AuthorizationError>)
    ensures r == if sigs == [] then Err(NoSignature) else VerifyAll(reg, c, sigs)
  {
    hide VerifyOne;
    var verified: seq<(string, string)> := [];
    var seen: set<string> := {};
    for k := 0 to |sigs|
      invariant VerifyAll(reg, c, sigs[..k]) == Ok(verified)
      invariant |verified| == k
      invariant forall s :: s in seen <==> exists i :: 0 <= i < k && sigs[i].0 == s
    {
      var (signer, signature) := sigs[k];
      assert sigs[..k + 1][..k] == sigs[..k];
      if signer in seen {
        r := Err(DuplicateSigner(signer));
        var i :| 0 <= i < k && sigs[i].0 == signer;
        assert sigs[..k + 1][i].0 == signer;
        ErrorStays(reg, c, sigs, k + 1);
        return;
      }
      assert forall i :: 0 <= i < k ==> sigs[..k + 1][i].0 == sigs[i].0;
      seen := seen + {signer};
      var one := VerifyOne(reg, c, signer, signature);
      if one.Err? {
        r := Err(one.error);
        ErrorStays(reg, c, sigs, k + 1);
        return;
      }
      verified := verified + [one.value];
    }
    assert sigs[..|sigs|] == sigs;
    if verified == [] {
      return Err(NoSignature);
    }
    r := Ok(verified);
  }

  /** The first error ends the loop: later signatures cannot change it. */
  lemma {:induction false} ErrorStays(reg: Registry, c: Claim, sigs: seq<(string, string)>, k: nat)
    requires k <= |sigs| && VerifyAll(reg, c, sigs[..k]).Err?
    ensures VerifyAll(reg, c, sigs) == VerifyAll(reg, c, sigs[..k])
    decreases |sigs|
  {
    if k == |sigs| {
      assert sigs[..k] == sigs;
    } else {
      assert sigs[..|sigs| - 1][..k] == sigs[..k];
      ErrorStays(reg, c, sigs[..|sigs| - 1], k);
    }
  }

  /** The registry holds a key for the signer, and the signature decodes to 64 bytes that verify under it over the claim's bytes. */
  ghost predicate Genuine(reg: Registry, c: Claim, signer: string, signature: string) {
    && signer != "" && signer in reg.keys
    && reg.decode(signature).Some? && |reg.decode(signature).value| == 64
    && SigningBytes(c).Ok?
    && reg.verifies(reg.keys[signer], reg.decode(signature).value, SigningBytes(c).value)
  }

  /** A single signature is accepted exactly if it is genuine, and is then given back. */
  lemma VerifyOneIff(reg: Registry, c: Claim, signer: string, signature: string)
    ensures VerifyOne(reg, c, signer, signature).Ok? <==> Genuine(reg, c, signer, signature)
    ensures VerifyOne(reg, c, signer, signature).Ok? ==> VerifyOne(reg, c, signer, signature).value == (signer, signature)
  {
    hide SigningBytes;
  }

  /** What can be signed for: both ids named, a positive chain and a positive amount. The bytes begin with the preamble. */
  lemma SignableIff(c: Claim)
    ensures SigningBytes(c).Ok? <==> c.eventId != "" && c.transferId != "" && c.chainId > 0 && c.amountSats > 0
    ensures SigningBytes(c).Ok? ==> Encode(PREAMBLE) <= SigningBytes(c).value
  {
    hide Print, Encode, Envelope;
    EncodeBegins(PREAMBLE, Print(Envelope(c)));
  }

  lemma EncodeBegins(head: string, rest: string)
    ensures Encode(head) <= Encode(head + rest)
  {
    hide Encode;
    EncodeConcat(head, rest);
  }

  /** A list passes exactly when every signature is genuine and no signer appears twice; it is then given back. */
  lemma VerifyAllGenuine(reg: Registry, c: Claim, sigs: seq<(string, string)>)
    ensures VerifyAll(reg, c, sigs).Ok? <==>
            (forall i :: 0 <= i < |sigs| ==> Genuine(reg, c, sigs[i].0, sigs[i].1))
            && (forall i, j :: 0 <= i < j < |sigs| ==> sigs[i].0 != sigs[j].0)
    ensures VerifyAll(reg, c, sigs).Ok? ==> VerifyAll(reg, c, sigs).value == sigs
  {
    hide Genuine, VerifyOne, VerifyAll;
    VerifyAllIff(reg, c, sigs);
    forall i | 0 <= i < |sigs|
      ensures VerifyOne(reg, c, sigs[i].0, sigs[i].1).Ok? <==> Genuine(reg, c, sigs[i].0, sigs[i].1)
    {
      VerifyOneIff(reg, c, sigs[i].0, sigs[i].1);
    }
  }

  /** A list passes exactly when every signature passes alone and no signer appears twice. */
  lemma {:induction false} VerifyAllIff(reg: Registry, c: Claim, sigs: seq<(string, string)>)
    ensures VerifyAll(reg, c, sigs).Ok? <==>
            (forall i :: 0 <= i < |sigs| ==> VerifyOne(reg, c, sigs[i].0, sigs[i].1).Ok?)
            && (forall i, j :: 0 <= i < j < |sigs| ==> sigs[i].0 != sigs[j].0)
    ensures VerifyAll(reg, c, sigs).Ok? ==> VerifyAll(reg, c, sigs).value == sigs
  {
    if sigs != [] {
      var front := sigs[..|sigs| - 1];
      VerifyAllIff(reg, c, front);
      assert sigs == front + [sigs[|sigs| - 1]];
      assert forall i :: 0 <= i < |front| ==> front[i] == sigs[i];
    }
  }

  /** Two claims that pass the checks have the same bytes only if they are the same claim. */
  lemma SigningBytesUnambiguous(a: Claim, b: Claim)
    requires SigningBytes(a).Ok? && SigningBytes(b).Ok?
    requires SigningBytes(a) == SigningBytes(b)
    ensures a == b
  {
    hide Print, Encode;
    EncodeInjective(PREAMBLE + Print(Envelope(a)), PREAMBLE + Print(Envelope(b)));
    Split(PREAMBLE, Print(Envelope(a)), PREAMBLE, Print(Envelope(b)));
    PrintInjective(Envelope(a), Envelope(b));
    EnvelopeInjective(a, b);
  }

  lemma EnvelopeInjective(a: Claim, b: Claim)
    requires Envelope(a) == Envelope(b)
    ensures a == b
  {
  }
}
