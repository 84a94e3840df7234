/**
 * The session cookie jar as the login pipeline reads it: the search for the
 * `glt_` login token, the check for the `UcasIdentity` cookie, and the
 * `name=value; name=value` header stored as the monitor's `cookies` setting.
 */
module Cookies {
  import opened Wrappers
  import opened Text

  /** One entry of the HTTP session's cookie jar. */
  datatype Cookie = Cookie(name: string, value: string)

  /** The jar in its iteration order. */
  type Jar = seq<Cookie>

  const LoginTokenPrefix: string := "glt_"
  const IdentityCookieName: string := "UcasIdentity"
  const PairSeparator: string := "; "

  /** A cookie that carries the login token: its name starts with `glt_`. */
  predicate IsLoginTokenCookie(c: Cookie)
  {
    LoginTokenPrefix <= c.name
  }

  /** The login token: the value of the first `glt_` cookie of the jar, if any. */
  function FirstLoginToken(jar: Jar): (token: Option<string>)
    ensures token.None? <==> forall i :: 0 <= i < |jar| ==> !IsLoginTokenCookie(jar[i])
    ensures token.Some? ==>
      exists i :: 0 <= i < |jar| && IsLoginTokenCookie(jar[i]) && token.value == jar[i].value
                  && forall j :: 0 <= j < i ==> !IsLoginTokenCookie(jar[j])
  {
    if jar == [] then None
    else if IsLoginTokenCookie(jar[0]) then Some(jar[0].value)
    else
      var rest := FirstLoginToken(jar[1..]);
      assert forall i :: 1 <= i < |jar| ==> jar[i] == jar[1..][i - 1];
      rest
  }

  /**
   * Scans the jar in order and stops at the first cookie named `glt_...`,
   * returning its value even when that value is empty.
   */
  method FindLoginToken(jar: Jar) returns (token: Option<string>)
    ensures token == FirstLoginToken(jar)
    ensures token.None? ==> forall i :: 0 <= i < |jar| ==> !IsLoginTokenCookie(jar[i])
  {
    var k := 0;
    while k < |jar|
      invariant 0 <= k <= |jar|
      invariant forall j :: 0 <= j < k ==> !IsLoginTokenCookie(jar[j])
      invariant FirstLoginToken(jar[k..]) == FirstLoginToken(jar)
    {
      if IsLoginTokenCookie(jar[k]) {
        return Some(jar[k].value);
      }
      assert jar[k..][1..] == jar[k + 1..];
      k := k + 1;
    }
    return None;
  }

  /** The jar holds a cookie named `UcasIdentity`. */
  predicate HasIdentityCookie(jar: Jar)
  {
    exists i :: 0 <= i < |jar| && jar[i].name == IdentityCookieName
  }

  /** Scans the jar for the `UcasIdentity` cookie. */
  method FindIdentityCookie(jar: Jar) returns (found: bool)
    ensures found == HasIdentityCookie(jar)
  {
    var k := 0;
    while k < |jar|
      invariant 0 <= k <= |jar|
      invariant forall j :: 0 <= j < k ==> jar[j].name != IdentityCookieName
    {
      if jar[k].name == IdentityCookieName {
        return true;
      }
      k := k + 1;
    }
    return false;
  }

  /** The text `name=value` of one cookie. */
  function PairText(c: Cookie): string
  {
    c.name + "=" + c.value
  }

  /** The `name=value` texts of the jar, in jar order. */
  function Pairs(jar: Jar): (pairs: seq<string>)
    ensures |pairs| == |jar|
  {
    seq(|jar|, k requires 0 <= k < |jar| => PairText(jar[k]))
  }

  /** The header text stored in `config['cookies']`: the pairs joined by `"; "`. */
  function CookieHeader(jar: Jar): (header: string)
    ensures header == "" <==> jar == []
  {
    Join(Pairs(jar), PairSeparator)
  }

  /** Builds the list of `name=value` texts by appending one per cookie, in jar order. */
  method CollectPairs(jar: Jar) returns (pairs: seq<string>)
    ensures |pairs| == |jar|
    ensures forall k :: 0 <= k < |jar| ==> pairs[k] == jar[k].name + "=" + jar[k].value
  {
    pairs := [];
    for k := 0 to |jar|
      invariant |pairs| == k
      invariant forall j :: 0 <= j < k ==> pairs[j] == jar[j].name + "=" + jar[j].value
    {
      pairs := pairs + [jar[k].name + "=" + jar[k].value];
    }
  }

  // ---------------------------------------------------------------------------
  // Reading the header back
  // ---------------------------------------------------------------------------

  /** Cuts `name=value` at its first `=`; a text without `=` is a name with an empty value. */
  function ParsePair(p: string): Cookie
  {
    var i := IndexOf(p, '=');
    if i < |p| then Cookie(p[..i], p[i + 1..]) else Cookie(p, "")
  }

  /** Reads a cookie header back into a jar: split on `"; "`, then cut each pair. */
  function ParseCookieHeader(header: string): Jar
  {
    var parts := Split(header, PairSeparator);
    seq(|parts|, k requires 0 <= k < |parts| => ParsePair(parts[k]))
  }

  /** A cookie that survives the header format: no `;` anywhere and no `=` in its name. */
  predicate WellFormedCookie(c: Cookie)
  {
    ';' !in c.name && '=' !in c.name && ';' !in c.value
  }

  /** A pair text is cut back into its cookie when the name holds no `=`. */
  lemma ParsePairText(c: Cookie)
    requires '=' !in c.name
    ensures ParsePair(PairText(c)) == c
  {
    var p := PairText(c);
    assert p[|c.name|] == '=';
    var i := IndexOf(p, '=');
    assert forall j :: 0 <= j < |c.name| ==> p[j] == c.name[j];
    assert p[..i] == c.name;
    assert p[i + 1..] == c.value;
  }

  /**
   * The stored header loses nothing: for a non-empty jar of well-formed cookies,
   * reading the header back yields the jar itself, in the same order.
   */
  lemma {:induction false} HeaderRoundTrip(jar: Jar)
    requires jar != []
    requires forall k :: 0 <= k < |jar| ==> WellFormedCookie(jar[k])
    ensures ParseCookieHeader(CookieHeader(jar)) == jar
  {
    var pairs := Pairs(jar);
    forall k | 0 <= k < |pairs|
      ensures PairSeparator[0] !in pairs[k]
    {
      assert pairs[k] == jar[k].name + "=" + jar[k].value;
    }
    SplitJoin(pairs, PairSeparator);
    forall k | 0 <= k < |jar|
      ensures ParsePair(pairs[k]) == jar[k]
    {
      ParsePairText(jar[k]);
    }
  }
}
