/**
 * The part of JWT handling the login callback performs itself: cut the token
 * at its dots, take the middle (payload) segment and `=`-pad it to whole
 * base64 quanta. Decoding base64url and parsing the JSON claims are library
 * codecs and enter the model as the function `decode`; the signature is never
 * checked.
 */
module Jwt {
  import opened Wrappers
  import opened Text

  /** The JSON claims of a payload, as name to text. */
  type Claims = map<string, string>

  /** The base64url alphabet of section 5 of RFC 4648. */
  predicate IsBase64UrlChar(c: char)
  {
    ('A' <= c <= 'Z') || ('a' <= c <= 'z') || ('0' <= c <= '9') || c == '-' || c == '_'
  }

  /** Appends `4 - len % 4` copies of `=`, unless that count is 4. */
  function PadPayload(payload: string): (padded: string)
    ensures |padded| % 4 == 0
    ensures |payload| <= |padded| <= |payload| + 3
    ensures padded == payload + Repeat('=', |padded| - |payload|)
  {
    var padding := 4 - |payload| % 4;
    if padding != 4 then payload + Repeat('=', padding) else payload
  }

  /** `s` ends in exactly `k` characters `=` and everything before them is base64url. */
  predicate PaddedWith(s: string, k: nat)
  {
    k <= |s|
    && (forall i :: 0 <= i < |s| - k ==> IsBase64UrlChar(s[i]))
    && (forall i :: |s| - k <= i < |s| ==> s[i] == '=')
  }

  /**
   * Padded base64url text as section 3.2 of RFC 4648 calls for: whole
   * four-character quanta, with at most two `=` closing the last one.
   */
  predicate WellPadded(s: string)
  {
    |s| % 4 == 0 && exists k: nat :: k <= 2 && PaddedWith(s, k)
  }

  /**
   * Padding yields well-formed base64url exactly when the payload's length is
   * not one more than a multiple of four; in that case three `=` are added and
   * Python's `base64.urlsafe_b64decode` rejects the result.
   */
  lemma PadPayloadWellPadded(payload: string)
    requires forall i :: 0 <= i < |payload| ==> IsBase64UrlChar(payload[i])
    ensures WellPadded(PadPayload(payload)) <==> |payload| % 4 != 1
  {
    var s := PadPayload(payload);
    var n := |s| - |payload|;
    assert forall i :: 0 <= i < |payload| ==> s[i] == payload[i];
    assert forall i :: |payload| <= i < |s| ==> s[i] == '=';
    if |payload| % 4 != 1 {
      assert n <= 2;
      assert PaddedWith(s, n);
    } else {
      assert n == 3;
      forall k: nat | k <= 2
        ensures !PaddedWith(s, k)
      {
        assert |payload| < |s| - k && s[|payload|] == '=';
      }
    }
  }

  /**
   * `parse_jwt_token`: no claims unless the token splits on `.` into exactly
   * three parts; otherwise the decoded padded middle part.
   */
  function ParseJwt(token: string, decode: string -> Option<Claims>): (claims: Option<Claims>)
    ensures claims.Some? ==> Occurrences(token, '.') == 2
  {
    var parts := Split(token, ".");
    SplitCount(token, '.');
    if |parts| != 3 then None else decode(PadPayload(parts[1]))
  }

  /**
   * Only the payload segment matters: tokens that agree on it parse alike,
   * whatever their header and signature segments hold.
   */
  lemma {:induction false} ParseJwtReadsOnlyPayload(
    header: string, payload: string, signature: string, decode: string -> Option<Claims>)
    requires '.' !in header && '.' !in payload && '.' !in signature
    ensures ParseJwt(header + "." + payload + "." + signature, decode) == decode(PadPayload(payload))
  {
    var parts := [header, payload, signature];
    assert Join(parts, ".") == header + "." + payload + "." + signature by {
      assert parts[1..] == [payload, signature];
      assert parts[1..][1..] == [signature];
      assert Join([signature], ".") == signature;
      assert Join([payload, signature], ".") == payload + "." + signature;
      assert Join(parts, ".") == header + "." + (payload + "." + signature);
    }
    SplitJoin(parts, ".");
  }
}
