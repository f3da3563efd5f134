/**
 * A model of the JSON Web Token codec (RFC 7519) as the session layer uses it:
 * HS256-signed tokens (section 3.2 of RFC 7518) whose payload may carry an
 * "exp" claim (section 4.1.4 of RFC 7519).
 *
 * The cryptography is abstracted away. A token is either the compact
 * serialization produced by signing a payload with some algorithm and key,
 * or any other text. Verifying a signature becomes comparing the algorithm
 * and the key the token was made with against the ones the verifier expects.
 * Times are whole seconds since the epoch.
 */
module Jwt {

  /** A JSON value as it appears in a claim; Null is JSON null (Python's None). */
  datatype Value = Null | Str(s: string) | Int(i: int)

  /** The decoded claims set of a token. */
  type Payload = map<string, Value>

  /** `payload.get(name)`: a missing claim reads as None, like an explicit null. */
  function Get(p: Payload, name: string): (v: Value)
    ensures v != Null ==> name in p && p[name] == v
    ensures name in p ==> v == p[name]
  {
    if name in p then p[name] else Null
  }

  /** A token string: either a signed compact serialization, or some other text. */
  datatype Token =
    | Signed(alg: string, claims: Payload, key: string)
    | Garbled(text: string)
  {
    /** The token is Python-falsy: the empty string. A signed token never is. */
    predicate IsEmpty() {
      this == Garbled("")
    }
  }

  /** What decoding a token yields: its claims, or one of the library's two failures. */
  datatype Decoded =
    | Ok(payload: Payload)
    | Expired   // ExpiredSignatureError: the signature checks out but "exp" has passed
    | Invalid   // any other InvalidTokenError: bad signature, wrong algorithm, malformed text

  /** `jwt.encode(claims, key, algorithm=alg)`. */
  function Encode(claims: Payload, key: string, alg: string): (t: Token)
    ensures !t.IsEmpty()
  {
    Signed(alg, claims, key)
  }

  /**
   * `jwt.decode(token, key, algorithms=[alg])` at time `now`. A token made
   * with another key or algorithm, or text that is no token at all, is
   * invalid; an integer "exp" at or before `now` is expired; an "exp" that is
   * not an integer is malformed; a token without "exp" never expires.
   */
  function Decode(t: Token, key: string, alg: string, now: int): (d: Decoded)
    ensures d.Ok? ==> t == Encode(d.payload, key, alg)
    ensures d.Ok? ==> "exp" !in d.payload || (d.payload["exp"].Int? && now < d.payload["exp"].i)
    ensures d == Expired <==> t.Signed? && t.alg == alg && t.key == key && "exp" in t.claims
                              && t.claims["exp"].Int? && t.claims["exp"].i <= now
  {
    match t
    case Garbled(_) => Invalid
    case Signed(a, claims, k) =>
      if a != alg || k != key then Invalid
      else if "exp" !in claims then Ok(claims)
      else match claims["exp"]
        case Int(exp) => if exp <= now then Expired else Ok(claims)
        case _ => Invalid
  }

  /** Decoding what was encoded gives the claims back until "exp" is reached, then Expired. */
  lemma DecodeEncode(claims: Payload, key: string, alg: string, exp: int, now: int)
    requires "exp" in claims && claims["exp"] == Int(exp)
    ensures Decode(Encode(claims, key, alg), key, alg, now) == if now < exp then Ok(claims) else Expired
  {
  }

  /** A token signed with another key never decodes, expired or not. */
  lemma DecodeOtherKey(claims: Payload, signer: string, key: string, alg: string, now: int)
    requires signer != key
    ensures Decode(Encode(claims, signer, alg), key, alg, now) == Invalid
  {
  }
}
