/**
 * Bearer tokens. A token is a JWT (RFC 7519) in the JWS Compact
 * Serialization (section 7.1 of RFC 7515): three base64url segments joined
 * by '.'. The core never looks inside a token itself: signing and verifying
 * are done by the golang-jwt library, modelled here as an abstract
 * verification function. What the core does look at is the third segment,
 * the "session fingerprint" it stores per actor and compares on every request.
 */
module Jwt {
  import opened GoStrings
  import opened Wrappers

  /** A signed token in its three parts. */
  datatype Jws = Jws(header: string, payload: string, signature: string)

  /** Base64url segments contain neither '.' nor ' '. */
  predicate WellFormed(j: Jws) {
    && '.' !in j.header && '.' !in j.payload && '.' !in j.signature
    && ' ' !in j.header && ' ' !in j.payload && ' ' !in j.signature
  }

  /** The compact serialization `header.payload.signature`. */
  function Compact(j: Jws): string {
    Join([j.header, j.payload, j.signature], '.')
  }

  /** `strings.Split(token, ".")`. */
  function Segments(token: string): seq<string> {
    Split(token, '.')
  }

  /** `strings.Split(token, ".")[2]`, the session fingerprint. */
  function Fingerprint(token: string): string
    requires |Segments(token)| >= 3
  {
    Segments(token)[2]
  }

  /** A well-formed compact token splits back into its parts, so its
      fingerprint is exactly its signature. */
  lemma {:induction false} CompactSegments(j: Jws)
    requires WellFormed(j)
    ensures Segments(Compact(j)) == [j.header, j.payload, j.signature]
    ensures Fingerprint(Compact(j)) == j.signature
    ensures ' ' !in Compact(j)
  {
    SplitJoin([j.header, j.payload, j.signature], '.');
    JoinAvoids([j.header, j.payload, j.signature], '.', ' ');
  }

  /** Two well-formed tokens with different signatures have different
      fingerprints: a token issued by one login never matches the session
      stored by another login that produced a different signature. */
  lemma DistinctSignaturesDistinctFingerprints(j1: Jws, j2: Jws)
    requires WellFormed(j1) && WellFormed(j2)
    requires j1.signature != j2.signature
    ensures |Segments(Compact(j1))| == 3 && |Segments(Compact(j2))| == 3
    ensures Fingerprint(Compact(j1)) != Fingerprint(Compact(j2))
  {
    CompactSegments(j1);
    CompactSegments(j2);
  }

  /** What `jwt.Parse` reports for a token that has three segments: valid,
      with the `sub` claim (section 4.1.2 of RFC 7519) if it is a string;
      "Token is expired" (the `exp` claim of section 4.1.4 is in the past);
      or any other failure (bad signature, bad encoding, ...). */
  datatype Verdict = Verified(sub: Option<string>) | Expired | Invalid

  /** `jwt.Parse(token, key)`: a token without exactly three segments is
      rejected before any token object exists (None, a nil token); otherwise
      the library's verdict, which this model takes as a parameter. */
  function Parse(verify: string -> Verdict, token: string): (r: Option<Verdict>)
    ensures r.Some? <==> |Segments(token)| == 3
    ensures r.Some? ==> r.value == verify(token)
  {
    if |Segments(token)| != 3 then None else Some(verify(token))
  }
}
