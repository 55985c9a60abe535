/** Signing and verifying with key material in locked buffers that are destroyed on every exit. */
module KeyBuffers {
  import opened Wrappers

  type byte = bv8

  /**
   * Library calls, left uninterpreted: SHA-256, base64, PKCS 8 parsing and ECDSA, whose signature
   * also depends on randomness.
   */
  datatype Crypto<!Key, !Public> = Crypto(
    sha256: seq<byte> -> seq<byte>,
    encode: seq<byte> -> seq<byte>,
    decode: seq<byte> -> Option<seq<byte>>,
    parse: seq<byte> -> Option<Key>,
    sign: (Key, seq<byte>, nat) -> Option<seq<byte>>,
    verify: (Public, seq<byte>, seq<byte>) -> bool)

  datatype Error = DecodeFailed | ParseFailed | SignFailed

  /** "wallet-auth:" in ASCII. */
  const PREFIX: seq<byte> := [119, 97, 108, 108, 101, 116, 45, 97, 117, 116, 104, 58]

  // ---- What the calls compute ------------------------------------------------

  function StripPrefix(key: seq<byte>): seq<byte> {
    if PREFIX <= key then key[|PREFIX|..] else key
  }

  function ParseKey<K, P>(c: Crypto<K, P>, key: seq<byte>): Result<K, Error> {
    match c.decode(StripPrefix(key))
    case None => Err(DecodeFailed)
    case Some(der) =>
      match c.parse(der)
      case None => Err(ParseFailed)
      case Some(k) => Ok(k)
  }

  function Sign<K, P>(c: Crypto<K, P>, key: seq<byte>, payload: seq<byte>, rand: nat): Result<seq<byte>, Error> {
    match ParseKey(c, key)
    case Err(e) => Err(e)
    case Ok(k) =>
      match c.sign(k, c.sha256(payload), rand)
      case None => Err(SignFailed)
      case Some(signature) => Ok(c.encode(signature))
  }

  function Verify<K, P>(c: Crypto<K, P>, public: P, payload: seq<byte>, signature: seq<byte>): Result<bool, Error> {
    match c.decode(signature)
    case None => Err(DecodeFailed)
    case Some(raw) => Ok(c.verify(public, c.sha256(payload), raw))
  }

  /** If base64 decodes what it encodes and public verifies what the key signs, Verify accepts what Sign returns. */
  lemma VerifyAcceptsSigned<K(!new), P(!new)>(c: Crypto<K, P>, key: seq<byte>, public: P, payload: seq<byte>, rand: nat)
    requires forall b :: c.decode(c.encode(b)) == Some(b)
    requires forall k, hash, r :: ParseKey(c, key) == Ok(k) && c.sign(k, hash, r).Some? ==> c.verify(public, hash, c.sign(k, hash, r).value)
    ensures Sign(c, key, payload, rand).Ok? ==> Verify(c, public, payload, Sign(c, key, payload, rand).value) == Ok(true)
  {
    if Sign(c, key, payload, rand).Ok? {
      var k := ParseKey(c, key).value;
      var signature := c.sign(k, c.sha256(payload), rand).value;
      assert c.decode(c.encode(signature)) == Some(signature);
      assert c.verify(public, c.sha256(payload), signature);
    }
  }

  /** These bytes are the ASCII codes of this text. */
  predicate Spells(bytes: seq<byte>, text: string) {
    |bytes| == |text| && forall i | 0 <= i < |text| :: bytes[i] as int == text[i] as int
  }

  /** The prefix is optional: a key with and without it is the same key. */
  lemma PrefixOptional<K, P>(c: Crypto<K, P>, prefix: seq<byte>, key: seq<byte>, payload: seq<byte>, rand: nat)
    requires Spells(prefix, "wallet-auth:") && !(prefix <= key)
    ensures Sign(c, prefix + key, payload, rand) == Sign(c, key, payload, rand)
  {
    PrefixSpells(prefix);
    assert PREFIX <= PREFIX + key;
    assert (PREFIX + key)[|PREFIX|..] == key;
  }

  lemma PrefixSpells(prefix: seq<byte>)
    requires Spells(prefix, "wallet-auth:")
    ensures prefix == PREFIX
  {
    var text := "wallet-auth:";
    assert text[0] as int == 119 && text[1] as int == 97 && text[2] as int == 108 && text[3] as int == 108;
    assert text[4] as int == 101 && text[5] as int == 116 && text[6] as int == 45 && text[7] as int == 97;
    assert text[8] as int == 117 && text[9] as int == 116 && text[10] as int == 104 && text[11] as int == 58;
    forall i | 0 <= i < 12 ensures prefix[i] == PREFIX[i] {
      assert prefix[i] as int == PREFIX[i] as int;
    }
  }

  /** Signing succeeds exactly if the key decodes, parses and signs, and else says which of these failed. */
  lemma SignSucceeds<K, P>(c: Crypto<K, P>, key: seq<byte>, payload: seq<byte>, rand: nat)
    requires forall i | 0 <= i < |key| :: key[i] as int != 58
    ensures var der := c.decode(key);
            && (Sign(c, key, payload, rand) == Err(DecodeFailed) <==> der == None)
            && (Sign(c, key, payload, rand) == Err(ParseFailed) <==> der.Some? && c.parse(der.value) == None)
            && (Sign(c, key, payload, rand) == Err(SignFailed) <==>
                 der.Some? && c.parse(der.value).Some? && c.sign(c.parse(der.value).value, c.sha256(payload), rand) == None)
  {
    if |key| >= 12 {
      assert PREFIX[11] as int == 58 != key[11] as int;
    }
  }

  /**
   * If the public key accepts a signature for no hash but the one it was made for, then verifying what
   * Sign returned for one payload accepts another payload exactly if the two have the same hash.
   */
  lemma VerifyRejectsOthers<K(!new), P(!new)>(c: Crypto<K, P>, key: seq<byte>, public: P, payload: seq<byte>, payload': seq<byte>, rand: nat)
    requires forall b :: c.decode(c.encode(b)) == Some(b)
    requires forall k, hash, hash', r :: ParseKey(c, key) == Ok(k) && c.sign(k, hash, r).Some? ==>
               (c.verify(public, hash', c.sign(k, hash, r).value) <==> hash == hash')
    ensures Sign(c, key, payload, rand).Ok? ==>
              Verify(c, public, payload', Sign(c, key, payload, rand).value) == Ok(c.sha256(payload) == c.sha256(payload'))
  {
    if Sign(c, key, payload, rand).Ok? {
      var k := ParseKey(c, key).value;
      var signature := c.sign(k, c.sha256(payload), rand).value;
      assert c.decode(c.encode(signature)) == Some(signature);
      assert c.verify(public, c.sha256(payload'), signature) <==> c.sha256(payload) == c.sha256(payload');
    }
  }

  // ---- Buffers ------------------------------------------------------------------

  predicate Wiped(a: array<byte>)
    reads a
  {
    forall i | 0 <= i < a.Length :: a[i] == 0
  }

  /** The byte loop of secureZero. */
  method SecureZero(data: array<byte>)
    modifies data
    ensures forall i | 0 <= i < data.Length :: data[i] == 0
  {
    for i := 0 to data.Length
      invariant forall j | 0 <= j < i :: data[j] == 0
    {
      data[i] := 0;
    }
  }

  /**
   * The arrays in which one call keeps secrets, locked buffers and plain temporaries alike. Live ones
   * may still hold a secret.
   */
  class Vault {
    var live: set<array<byte>>
    ghost var created: set<array<byte>>

    constructor ()
      ensures live == {} && created == {}
    {
      live, created := {}, {};
    }

    /** Whatever was created here and is not live any more has been wiped. */
    ghost predicate Valid()
      reads this, created
    {
      live <= created && forall a | a in created && a !in live :: Wiped(a)
    }

    /** An array holding data that has to be wiped. */
    method Hold(data: seq<byte>) returns (buffer: array<byte>)
      requires Valid()
      modifies this
      ensures Valid() && fresh(buffer) && buffer[..] == data
      ensures live == old(live) + {buffer} && created == old(created) + {buffer}
    {
      buffer := new byte[|data|](i requires 0 <= i < |data| => data[i]);
      assert buffer[..] == data;
      live, created := live + {buffer}, created + {buffer};
    }

    /** LockedBuffer.Destroy, and secureZero of a temporary. */
    method Destroy(buffer: array<byte>)
      requires Valid() && buffer in live
      modifies this, buffer
      ensures Valid() && Wiped(buffer)
      ensures live == old(live) - {buffer} && created == old(created)
    {
      SecureZero(buffer);
      live := live - {buffer};
    }

    /** newSecureMemoryFromData: a copy of the data is moved into the buffer, which wipes the copy. */
    method FromData(data: seq<byte>) returns (buffer: array<byte>)
      requires Valid()
      modifies this
      ensures Valid() && fresh(buffer) && buffer[..] == data
      ensures live == old(live) + {buffer} && old(created) <= created && fresh(created - old(created))
    {
      var dataCopy := Hold(data);
      buffer := Hold(dataCopy[..]);
      Destroy(dataCopy);
    }

    /** parsePrivateKeyFromAuthorizationKeyBytes: three buffers, destroyed on every path. */
    method ParsePrivateKey<K, P>(c: Crypto<K, P>, key: seq<byte>) returns (r: Result<K, Error>)
      requires Valid()
      modifies this
      ensures Valid() && live == old(live) && old(created) <= created && fresh(created - old(created))
      ensures r == ParseKey(c, key)
    {
      var authMem := FromData(key);
      var auth := authMem[..];
      var pkcs8B64 := auth;
      if PREFIX <= auth {
        pkcs8B64 := auth[|PREFIX|..];
      }
      var b64Mem := FromData(pkcs8B64);
      var decoded := c.decode(b64Mem[..]);
      var pkcs8Mem := Hold(if decoded.Some? then decoded.value else []);
      if decoded.None? {
        r := Err(DecodeFailed);
      } else {
        var parsed := c.parse(pkcs8Mem[..]);
        r := if parsed.None? then Err(ParseFailed) else Ok(parsed.value);
      }
      Destroy(pkcs8Mem);
      Destroy(b64Mem);
      Destroy(authMem);
    }

    /** The hash goes into a buffer of its own and the temporary it came in is wiped. */
    method Hash<K, P>(c: Crypto<K, P>, payloadMem: array<byte>) returns (hashMem: array<byte>)
      requires Valid()
      modifies this
      ensures Valid() && fresh(hashMem) && hashMem[..] == c.sha256(payloadMem[..])
      ensures live == old(live) + {hashMem} && old(created) <= created && fresh(created - old(created))
    {
      var hashBytes := Hold(c.sha256(payloadMem[..]));
      hashMem := Hold(hashBytes[..]);
      Destroy(hashBytes);
    }

    /** From hashing to encoding: the signature is encoded first and wiped afterwards. */
    method SignHeld<K, P>(c: Crypto<K, P>, key: K, payloadMem: array<byte>, rand: nat) returns (r: Result<seq<byte>, Error>)
      requires Valid()
      modifies this
      ensures Valid() && live == old(live) && old(created) <= created && fresh(created - old(created))
      ensures var signed := c.sign(key, c.sha256(payloadMem[..]), rand);
              r == if signed.None? then Err(SignFailed) else Ok(c.encode(signed.value))
    {
      var hashMem := Hash(c, payloadMem);
      var signed := c.sign(key, hashMem[..], rand);
      if signed.None? {
        r := Err(SignFailed);
      } else {
        var signature := Hold(signed.value);
        r := Ok(c.encode(signature[..]));
        Destroy(signature);
      }
      Destroy(hashMem);
    }

    /** From decoding the signature to verifying it against the hash. */
    method VerifyHeld<K, P>(c: Crypto<K, P>, public: P, payloadMem: array<byte>, sigMem: array<byte>) returns (r: Result<bool, Error>)
      requires Valid()
      modifies this
      ensures Valid() && live == old(live) && old(created) <= created && fresh(created - old(created))
      ensures r == Verify(c, public, payloadMem[..], sigMem[..])
    {
      var decoded := c.decode(sigMem[..]);
      var sigBytesMem := Hold(if decoded.Some? then decoded.value else []);
      if decoded.None? {
        r := Err(DecodeFailed);
      } else {
        var hashMem := Hash(c, payloadMem);
        r := Ok(c.verify(public, hashMem[..], sigBytesMem[..]));
        Destroy(hashMem);
      }
      Destroy(sigBytesMem);
    }
  }

  /**
   * The caller's arrays are not touched. On every exit no buffer is left and every buffer and temporary
   * array is wiped, the signature's included; the result is the base64 of the signature from before
   * that. The parsed private key is no such array, and the code does not wipe it.
   */
  method SignPayload<K, P>(c: Crypto<K, P>, key: array<byte>, payload: array<byte>, rand: nat)
    returns (r: Result<seq<byte>, Error>, vault: Vault)
    ensures r == Sign(c, key[..], payload[..], rand)
    ensures fresh(vault) && fresh(vault.created)
    ensures vault.live == {} && forall a, i | a in vault.created && 0 <= i < a.Length :: a[i] == 0
  {
    vault := new Vault();
    var privateKey := vault.ParsePrivateKey(c, key[..]);
    if privateKey.Err? {
      r := Err(privateKey.error);
    } else {
      var payloadMem := vault.FromData(payload[..]);
      r := vault.SignHeld(c, privateKey.value, payloadMem, rand);
      vault.Destroy(payloadMem);
    }
  }

  /** The same for verification, which fails only when the signature is not base64. */
  method VerifySignature<K, P>(c: Crypto<K, P>, public: P, payload: array<byte>, signatureB64: array<byte>)
    returns (r: Result<bool, Error>, vault: Vault)
    ensures r == Verify(c, public, payload[..], signatureB64[..])
    ensures fresh(vault) && fresh(vault.created)
    ensures vault.live == {} && forall a, i | a in vault.created && 0 <= i < a.Length :: a[i] == 0
  {
    vault := new Vault();
    var payloadMem := vault.FromData(payload[..]);
    var sigMem := vault.FromData(signatureB64[..]);
    r := vault.VerifyHeld(c, public, payloadMem, sigMem);
    vault.Destroy(sigMem);
    vault.Destroy(payloadMem);
  }

  // ---- Constant-time comparison ------------------------------------------------

  lemma OrXorZero(acc: byte, x: byte, y: byte)
    ensures acc | (x ^ y) == 0 <==> acc == 0 && x == y
  {
  }

  /** The accumulator stays zero exactly as long as the two arrays agree. */
  method SecureCompare(a: seq<byte>, b: seq<byte>) returns (equal: bool)
    ensures equal <==> a == b
  {
    if |a| != |b| {
      return false;
    }
    var result: byte := 0;
    for i := 0 to |a|
      invariant result == 0 <==> a[..i] == b[..i]
    {
      OrXorZero(result, a[i], b[i]);
      assert a[..i + 1] == a[..i] + [a[i]] && b[..i + 1] == b[..i] + [b[i]];
      result := result | (a[i] ^ b[i]);
    }
    return result == 0;
  }
}
