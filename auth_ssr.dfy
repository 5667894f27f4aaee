// The UI server's auth endpoints (UI/src/routes/auth/ssr.ts): `post` stores the access token and
// the user name as two cookies, `del` clears them. Each response carries two Set-Cookie headers,
// appended one after the other.
module AuthSsr {
  import opened Wrappers
  import opened Text
  import opened Hooks

  /** encodeURIComponent. */
  type Encoder = string -> string

  /** The Max-Age of a stored cookie: the largest 32-bit signed integer. */
  const MaxAgeForever: nat := 2147483647

  /** The attributes after the cookie-pair, in order. */
  const HttpOnly: string := "HttpOnly"
  const SameSiteStrict: string := "SameSite=Strict"
  const RootPath: string := "Path=/"

  /** `{key}={value}; HttpOnly; SameSite=Strict; Max-Age={maxAge}; Path=/`. */
  function SetCookieHeader(key: string, value: string, maxAge: nat): (header: string)
  {
    key + "=" + value + CookieSeparator + HttpOnly + CookieSeparator + SameSiteStrict + CookieSeparator +
      "Max-Age=" + NatToString(maxAge) + CookieSeparator + RootPath
  }

  /** The Headers object of a response: its entries in append order. */
  class Headers {
    var entries: seq<(string, string)>

    constructor ()
      ensures entries == []
    {
      entries := [];
    }

    method Append(name: string, value: string)
      modifies this
      ensures entries == old(entries) + [(name, value)]
    {
      entries := entries + [(name, value)];
    }
  }

  /** post: status 200 and the token and name cookies, token first, kept for the longest Max-Age. */
  method Post(token: string, name: string, encode: Encoder) returns (status: int, headers: Headers)
    ensures fresh(headers) && status == 200
    ensures headers.entries == [("Set-Cookie", SetCookieHeader("token", encode(token), MaxAgeForever)),
                                ("Set-Cookie", SetCookieHeader("name", encode(name), MaxAgeForever))]
  {
    headers := new Headers();
    headers.Append("Set-Cookie", SetCookieHeader("token", encode(token), MaxAgeForever));
    headers.Append("Set-Cookie", SetCookieHeader("name", encode(name), MaxAgeForever));
    status := 200;
  }

  /** del: status 200 and the two cookies with empty values and Max-Age=0. */
  method Del() returns (status: int, headers: Headers)
    ensures fresh(headers) && status == 200
    ensures headers.entries == [("Set-Cookie", SetCookieHeader("token", "", 0)),
                                ("Set-Cookie", SetCookieHeader("name", "", 0))]
  {
    headers := new Headers();
    headers.Append("Set-Cookie", SetCookieHeader("token", "", 0));
    headers.Append("Set-Cookie", SetCookieHeader("name", "", 0));
    status := 200;
  }

  // ---------------------------------------------------------------- properties

  /** No `=`, `;` or space: none of encodeURIComponent's output characters is one of them. */
  predicate NoCookieDelimiters(s: string)
  {
    forall k | 0 <= k < |s| :: s[k] != '=' && s[k] != ';' && s[k] != ' '
  }

  /** The encoder keeps the value clear of the delimiters and the decoder gives it back. */
  predicate RoundTrips(encode: Encoder, decode: Decoder, s: string)
  {
    NoCookieDelimiters(encode(s)) && decode(encode(s)) == Some(s)
  }

  /**
   * The header has the shape of section 4.1.1 of RFC 6265: the cookie-pair, then each attribute
   * after "; ".
   */
  lemma SetCookieSyntax(key: string, value: string, maxAge: nat)
    requires NoCookieDelimiters(key) && NoCookieDelimiters(value)
    ensures Split(SetCookieHeader(key, value, maxAge), CookieSeparator) ==
      [key + "=" + value, HttpOnly, SameSiteStrict, "Max-Age=" + NatToString(maxAge), RootPath]
  {
    hide Split, IndexOf;
    var pair, maxAgeAv := key + "=" + value, "Max-Age=" + NatToString(maxAge);
    assert forall k | 0 <= k < |pair| :: pair[k] != ';' by {
      forall k | 0 <= k < |pair|
        ensures pair[k] != ';'
      {
        if k < |key| { assert pair[k] == key[k]; }
        else if k > |key| { assert pair[k] == value[k - |key| - 1]; }
      }
    }
    var tail3 := maxAgeAv + CookieSeparator + RootPath;
    var tail2 := SameSiteStrict + CookieSeparator + tail3;
    var tail1 := HttpOnly + CookieSeparator + tail2;
    assert SetCookieHeader(key, value, maxAge) == pair + CookieSeparator + tail1;
    SplitCons(pair, CookieSeparator, tail1);
    SplitCons(HttpOnly, CookieSeparator, tail2);
    SplitCons(SameSiteStrict, CookieSeparator, tail3);
    assert forall k | 0 <= k < |maxAgeAv| :: maxAgeAv[k] != ';' by {
      assert forall k | 0 <= k < |NatToString(maxAge)| :: IsDigit(NatToString(maxAge)[k]);
    }
    SplitCons(maxAgeAv, CookieSeparator, RootPath);
    SplitWithout(RootPath, CookieSeparator);
  }

  /** The Cookie header a user agent sends back for two stored cookies (section 5.4 of RFC 6265). */
  function EchoedCookies(tokenValue: string, nameValue: string): (header: string)
  {
    "token=" + tokenValue + CookieSeparator + "name=" + nameValue
  }

  lemma EchoedItems(tokenValue: string, nameValue: string)
    requires NoCookieDelimiters(tokenValue) && NoCookieDelimiters(nameValue)
    ensures Split(EchoedCookies(tokenValue, nameValue), CookieSeparator) == ["token=" + tokenValue, "name=" + nameValue]
    ensures CookieKey("token=" + tokenValue) == "token" && CookieValue("token=" + tokenValue) == tokenValue
    ensures CookieKey("name=" + nameValue) == "name" && CookieValue("name=" + nameValue) == nameValue
  {
    hide Split, IndexOf;
    var first, second := "token=" + tokenValue, "name=" + nameValue;
    assert EchoedCookies(tokenValue, nameValue) == first + CookieSeparator + second;
    forall k | 0 <= k < |first|
      ensures first[k] != ';'
    {
      if k >= 6 { assert first[k] == tokenValue[k - 6]; }
    }
    forall k | 0 <= k < |second|
      ensures second[k] != ';'
    {
      if k >= 5 { assert second[k] == nameValue[k - 5]; }
    }
    SplitCons(first, CookieSeparator, second);
    SplitWithout(second, CookieSeparator);
    ItemWithEquals("token", tokenValue, None);
    assert "token" + "=" + tokenValue == first;
    ItemWithEquals("name", nameValue, None);
    assert "name" + "=" + nameValue == second;
  }

  /**
   * Round trip: the cookies post sets, sent back by the user agent, parse to the original token
   * and name, and make a session exactly when both are non-empty.
   */
  lemma PostCookiesRoundTrip(token: string, name: string, encode: Encoder, decode: Decoder)
    requires RoundTrips(encode, decode, token) && RoundTrips(encode, decode, name)
    ensures var header := EchoedCookies(encode(token), encode(name));
      CookieRecord(Split(header, CookieSeparator), decode) == Some(map["token" := token, "name" := name]) &&
      GetSession(Some(header), decode) == Some(if token != "" && name != "" then UserSession(token, name) else NoSession)
  {
    var t, n := encode(token), encode(name);
    EchoedItems(t, n);
    hide Split, IndexOf;
    var items := ["token=" + t, "name=" + n];
    assert items[..1] == ["token=" + t] && items[..1][..0] == [];
    assert CookieRecord(items[..1], decode) == Some(map["token" := token]);
  }

  /**
   * The cookies del sets, if sent back, carry empty values, so the session reads as logged out;
   * a user agent that drops them (Max-Age=0) sends none, which reads the same.
   */
  lemma ClearedCookiesLogOut(decode: Decoder)
    requires decode("") == Some("")
    ensures GetSession(Some(EchoedCookies("", "")), decode) == Some(NoSession)
    ensures GetSession(None, decode) == Some(NoSession)
  {
    EchoedItems("", "");
    hide Split, IndexOf;
    var items := ["token=", "name="];
    assert "token=" + "" == "token=" && "name=" + "" == "name=";
    assert items[..1] == ["token="] && items[..1][..0] == [];
    assert CookieRecord(items[..1], decode) == Some(map["token" := ""]);
    assert CookieRecord(items, decode) == Some(map["token" := "", "name" := ""]);
    NoCookieNoSession(decode);
  }
}
