// The UI server's request hooks (UI/src/hooks.ts): the Cookie request header is parsed into a
// record, and the `token` and `name` cookies, when both are present and non-empty, make up the
// session and the authentication state.
module Hooks {
  import opened Wrappers
  import opened Text

  /**
   * decodeURIComponent: the decoded text, or None where it throws a URIError (a malformed
   * percent escape).
   */
  type Decoder = string -> Option<string>

  /** What getSession returns: `{}`, or the access key and the name. */
  datatype Session = NoSession | UserSession(accessKey: string, name: string)

  /** The value written to the auth state store. */
  datatype AuthState = AuthState(accessKey: string, name: string)

  /** The separator of a Cookie header's cookie-string (section 4.2.1 of RFC 6265). */
  const CookieSeparator: string := "; "

  /** `cookieItem.split('=')[0]`: the text before the first `=`. */
  function CookieKey(item: string): (key: string)
  {
    Split(item, "=")[0]
  }

  /**
   * `decodeURIComponent` receives `cookieItem.split('=')[1]`: the text between the first and the
   * second `=`, or the string "undefined" when there is no `=` at all.
   */
  function CookieValue(item: string): (value: string)
  {
    var parts := Split(item, "=");
    if |parts| > 1 then parts[1] else "undefined"
  }

  /** The record after the items so far: None once a decode has thrown. */
  function CookieRecord(items: seq<string>, decode: Decoder): (r: Option<map<string, string>>)
  {
    if items == [] then Some(map[])
    else
      var record := CookieRecord(items[..|items| - 1], decode);
      var item := items[|items| - 1];
      if record.None? || item == "" then record
      else
        match decode(CookieValue(item))
        case None => None
        case Some(value) => Some(record.value[CookieKey(item) := value])
  }

  /** parseCookie: a loop over the pieces of the header split on exactly "; ". */
  method ParseCookie(cookie: string, decode: Decoder) returns (r: Option<map<string, string>>)
    ensures r == CookieRecord(Split(cookie, CookieSeparator), decode)
  {
    hide CookieKey, CookieValue;
    var cookies := Split(cookie, CookieSeparator);
    var result: map<string, string> := map[];
    for i := 0 to |cookies|
      invariant CookieRecord(cookies[..i], decode) == Some(result)
    {
      assert cookies[..i + 1][..i] == cookies[..i];
      var cookieItem := cookies[i];
      if cookieItem == "" {
        continue;
      }
      var key, value := CookieKey(cookieItem), CookieValue(cookieItem);
      var decoded := decode(value);
      if decoded.None? {
        assert cookies[..i + 1][i] == cookieItem;
        FailureSticks(cookies, i + 1, decode);
        return None;
      }
      result := result[key := decoded.value];
    }
    assert cookies[..|cookies|] == cookies;
    r := Some(result);
  }

  /** Once a decode has thrown, the later items do not matter. */
  lemma {:induction false} FailureSticks(items: seq<string>, k: nat, decode: Decoder)
    requires k <= |items| && CookieRecord(items[..k], decode).None?
    ensures CookieRecord(items, decode).None?
    decreases |items| - k
  {
    if k < |items| {
      assert items[..k + 1][..k] == items[..k];
      FailureSticks(items, k + 1, decode);
    } else {
      assert items[..k] == items;
    }
  }

  /** `headers.get('cookie') ?? ''`. */
  function HeaderText(cookieHeader: Option<string>): string
  {
    if cookieHeader.Some? then cookieHeader.value else ""
  }

  /** Truthiness of `cookies.token && cookies.name`: both present and non-empty. */
  predicate HasCredentials(record: map<string, string>)
  {
    "token" in record && record["token"] != "" && "name" in record && record["name"] != ""
  }

  /** getSession: the header (missing means ""), parsed; credentials give the session, else `{}`. */
  function GetSession(cookieHeader: Option<string>, decode: Decoder): (r: Option<Session>)
    ensures r.None? <==> CookieRecord(Split(HeaderText(cookieHeader), CookieSeparator), decode).None?
    ensures r.Some? && r.value.UserSession? ==>
      var record := CookieRecord(Split(HeaderText(cookieHeader), CookieSeparator), decode).value;
      HasCredentials(record) && r.value == UserSession(record["token"], record["name"])
    ensures r.Some? && r.value.NoSession? ==>
      !HasCredentials(CookieRecord(Split(HeaderText(cookieHeader), CookieSeparator), decode).value)
  {
    match CookieRecord(Split(HeaderText(cookieHeader), CookieSeparator), decode)
    case None => None
    case Some(record) =>
      if HasCredentials(record) then Some(UserSession(record["token"], record["name"])) else Some(NoSession)
  }

  /** The application-wide auth state store that handle writes. */
  class AuthStateStore {
    var state: Option<AuthState>

    constructor ()
      ensures state == None
    {
      state := None;
    }
  }

  /**
   * handle: with credentials in the cookies, the store is set to them; otherwise it is left as
   * it was. The request is then always resolved, unless decoding a cookie threw first.
   */
  method Handle(authStateStore: AuthStateStore, cookieHeader: Option<string>, decode: Decoder) returns (resolved: bool)
    modifies authStateStore
    ensures resolved <==> GetSession(cookieHeader, decode).Some?
    ensures (match GetSession(cookieHeader, decode)
             case Some(UserSession(token, name)) => authStateStore.state == Some(AuthState(token, name))
             case _ => authStateStore.state == old(authStateStore.state))
  {
    var cookies := ParseCookie(HeaderText(cookieHeader), decode);
    if cookies.None? {
      return false;
    }
    var record := cookies.value;
    if HasCredentials(record) {
      authStateStore.state := Some(AuthState(record["token"], record["name"]));
    }
    resolved := true;
  }

  // ---------------------------------------------------------------- properties

  /** Text with no `=`. */
  predicate NoEquals(s: string)
  {
    forall k | 0 <= k < |s| :: s[k] != '='
  }

  /** An item without `=` is a key of its own whose value is the text "undefined". */
  lemma ItemWithoutEquals(item: string)
    requires NoEquals(item)
    ensures CookieKey(item) == item && CookieValue(item) == "undefined"
  {
    SplitWithout(item, "=");
  }

  /** In `key=value=rest` the key and the value are the first two pieces; the rest is dropped. */
  lemma ItemWithEquals(key: string, value: string, rest: Option<string>)
    requires NoEquals(key) && NoEquals(value)
    ensures var item := if rest.Some? then key + "=" + value + "=" + rest.value else key + "=" + value;
      CookieKey(item) == key && CookieValue(item) == value
  {
    SplitCons(key, "=", value);
    SplitWithout(value, "=");
    if rest.Some? {
      assert key + "=" + value + "=" + rest.value == key + "=" + (value + "=" + rest.value);
      SplitCons(key, "=", value + "=" + rest.value);
      SplitCons(value, "=", rest.value);
    }
  }

  /** A non-empty item whose key is `key`. */
  predicate Carries(item: string, key: string)
  {
    item != "" && CookieKey(item) == key
  }

  /** Item j carries the key and no later item does. */
  predicate LastCarrier(items: seq<string>, j: int, key: string)
  {
    0 <= j < |items| && Carries(items[j], key) && forall l | j < l < |items| :: !Carries(items[l], key)
  }

  /** One more item: an empty one changes nothing, another one sets its key to its decoded value. */
  lemma RecordStep(items: seq<string>, decode: Decoder)
    requires items != [] && CookieRecord(items, decode).Some?
    ensures CookieRecord(items[..|items| - 1], decode).Some?
    ensures var prev, record := CookieRecord(items[..|items| - 1], decode).value, CookieRecord(items, decode).value;
      record.Keys == prev.Keys + (if items[|items| - 1] == "" then {} else {CookieKey(items[|items| - 1])}) &&
      (forall k | k in prev && !Carries(items[|items| - 1], k) :: record[k] == prev[k])
    ensures items[|items| - 1] != "" ==>
      decode(CookieValue(items[|items| - 1])) == Some(CookieRecord(items, decode).value[CookieKey(items[|items| - 1])])
  {
  }

  /** The record after the items has a key exactly when some non-empty item carries it. */
  lemma {:induction false} CookiePresent(items: seq<string>, decode: Decoder, key: string)
    requires CookieRecord(items, decode).Some?
    ensures key in CookieRecord(items, decode).value <==> exists j | 0 <= j < |items| :: Carries(items[j], key)
    decreases |items|
  {
    if items != [] {
      hide CookieKey, CookieValue;
      var n := |items| - 1;
      var init, item := items[..n], items[n];
      RecordStep(items, decode);
      hide CookieRecord;
      CookiePresent(init, decode, key);
      if exists j | 0 <= j < |init| :: Carries(init[j], key) {
        var j :| 0 <= j < |init| && Carries(init[j], key);
        assert items[j] == init[j];
      }
      if exists j | 0 <= j < |items| :: Carries(items[j], key) {
        var j :| 0 <= j < |items| && Carries(items[j], key);
        if j < n {
          assert init[j] == items[j];
        }
      }
    }
  }

  lemma LastCarrierOfInit(items: seq<string>, j: int, key: string)
    requires items != [] && LastCarrier(items[..|items| - 1], j, key) && !Carries(items[|items| - 1], key)
    ensures LastCarrier(items, j, key)
  {
    var init := items[..|items| - 1];
    forall l | j < l < |items|
      ensures !Carries(items[l], key)
    {
      if l < |init| {
        assert items[l] == init[l];
      }
    }
  }

  /** A present key holds the decoded value of the last item that carries it. */
  lemma {:induction false} CookieLastValue(items: seq<string>, decode: Decoder, key: string)
    requires CookieRecord(items, decode).Some? && key in CookieRecord(items, decode).value
    ensures exists j :: LastCarrier(items, j, key) && decode(CookieValue(items[j])) == Some(CookieRecord(items, decode).value[key])
    decreases |items|
  {
    hide CookieKey, CookieValue;
    var n := |items| - 1;
    var init, item := items[..n], items[n];
    RecordStep(items, decode);
    var prev := CookieRecord(init, decode);
    var record := CookieRecord(items, decode).value;
    hide CookieRecord;
    if Carries(item, key) {
      assert decode(CookieValue(item)) == Some(record[key]);
      assert LastCarrier(items, n, key);
    } else {
      assert key in prev.value && record[key] == prev.value[key];
      CookieLastValue(init, decode, key);
      var j :| LastCarrier(init, j, key) && decode(CookieValue(init[j])) == Some(prev.value[key]);
      LastCarrierOfInit(items, j, key);
      assert items[j] == init[j];
    }
  }

  /** A non-empty item whose value does not decode. */
  predicate Throws(item: string, decode: Decoder)
  {
    item != "" && decode(CookieValue(item)).None?
  }

  /** The parse throws exactly when some non-empty item's value does not decode. */
  lemma {:induction false} CookieRecordFails(items: seq<string>, decode: Decoder)
    ensures CookieRecord(items, decode).None? <==> exists j | 0 <= j < |items| :: Throws(items[j], decode)
    decreases |items|
  {
    if items != [] {
      hide CookieKey, CookieValue;
      var n := |items| - 1;
      var init := items[..n];
      CookieRecordFails(init, decode);
      assert CookieRecord(items, decode).None? <==> CookieRecord(init, decode).None? || Throws(items[n], decode);
      hide CookieRecord, Throws;
      if exists j | 0 <= j < n :: Throws(init[j], decode) {
        var j :| 0 <= j < n && Throws(init[j], decode);
        assert items[j] == init[j];
      }
      if exists j | 0 <= j < |items| :: Throws(items[j], decode) {
        var j :| 0 <= j < |items| && Throws(items[j], decode);
        if j < n {
          assert init[j] == items[j];
        }
      }
    }
  }

  /** An empty Cookie header, or none at all, is read as logged out. */
  lemma NoCookieNoSession(decode: Decoder)
    ensures GetSession(None, decode) == Some(NoSession)
    ensures GetSession(Some(""), decode) == Some(NoSession)
  {
    SplitWithout("", CookieSeparator);
    assert [""][..0] == [];
  }
}
