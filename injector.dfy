/**
 * The rules of the browser script public/injector.js that decide what the
 * extension panel shows: the session-cookie scan, the conversation id read
 * from the address, the account-id fallback chain, the panel address with
 * its query string, and where the sidebar entry goes.
 */
module Injector {
  import opened Wrappers
  import opened Decimal
  import Text

  /** `BASE_URL`, https://qpassa-chatwootwrapper.v1dvzt.easypanel.host, written label by label. */
  const BaseUrl := "https://" + "qpassa-chatwootwrapper" + "." + "v1dvzt" + "." + "easypanel" + "." + "host"
  const SessionCookiePrefix := "cw_d_session_info="

  // ------------------------------------------------------------------
  // Session cookie
  // ------------------------------------------------------------------

  /**
   * The fields of the decoded session object the script reads:
   * `access-token`, `uid` and `client`; None for an absent key (`undefined`).
   */
  datatype Session = Session(accessToken: Option<string>, uid: Option<string>, client: Option<string>)

  /** The credentials `getAuthFromCookie` returns. */
  datatype Auth = Auth(token: Option<string>, uid: Option<string>, client: Option<string>)

  /**
   * What one `;`-separated piece of `document.cookie` yields: the decoded
   * session when the trimmed piece starts with the session cookie name and its
   * value decodes. `decode` stands for `JSON.parse(decodeURIComponent(value))`
   * followed by reading the three fields, and is None when decoding, parsing,
   * or reading a field of the parsed value throws (a `null` value, say).
   */
  function SessionIn(cookie: string, decode: string -> Option<Session>): (r: Option<Session>)
    ensures r.Some? ==> Text.StartsWith(Text.Trim(cookie), SessionCookiePrefix)
    ensures r.Some? ==> r == decode(Text.Trim(cookie)[|SessionCookiePrefix|..])
  {
    match Text.AfterPrefix(Text.Trim(cookie), SessionCookiePrefix)
    case Some(value) => decode(value)
    case None => None
  }

  /** Cookie `i` is the first one that yields a session. */
  predicate FirstSessionAt(cookies: seq<string>, decode: string -> Option<Session>, i: int) {
    && 0 <= i < |cookies|
    && SessionIn(cookies[i], decode).Some?
    && (forall j | 0 <= j < i :: SessionIn(cookies[j], decode).None?)
  }

  /**
   * `auth` is what the cookie scan promises: null when no cookie yields a
   * session, and otherwise the credentials of the first cookie that does
   * (a session cookie that fails to decode is skipped).
   */
  predicate IsCookieAuth(cookies: seq<string>, decode: string -> Option<Session>, auth: Option<Auth>) {
    if forall i | 0 <= i < |cookies| :: SessionIn(cookies[i], decode).None? then auth.None?
    else exists i | 0 <= i < |cookies| && FirstSessionAt(cookies, decode, i) ::
           var s := SessionIn(cookies[i], decode).value;
           auth == Some(Auth(s.accessToken, s.uid, s.client))
  }

  /** Without a session cookie there are no credentials. */
  lemma NoSessionCookie(cookies: seq<string>, decode: string -> Option<Session>, auth: Option<Auth>)
    requires IsCookieAuth(cookies, decode, auth)
    requires forall i | 0 <= i < |cookies| :: !Text.StartsWith(Text.Trim(cookies[i]), SessionCookiePrefix)
    ensures auth.None?
  {
    forall i | 0 <= i < |cookies|
      ensures SessionIn(cookies[i], decode).None?
    {
      assert Text.AfterPrefix(Text.Trim(cookies[i]), SessionCookiePrefix).None?;
    }
  }

  /** `getAuthFromCookie`: scan the cookies in order and return the first session that decodes. */
  method GetAuthFromCookie(cookieHeader: string, decode: string -> Option<Session>) returns (auth: Option<Auth>)
    ensures IsCookieAuth(Text.Split(cookieHeader, ';'), decode, auth)
  {
    var cookies := Text.Split(cookieHeader, ';');
    for i := 0 to |cookies|
      invariant NoSessionBefore(cookies, decode, i)
    {
      var cookie := Text.Trim(cookies[i]);
      var value := Text.AfterPrefix(cookie, SessionCookiePrefix);
      if value.Some? {
        var parsed := decode(value.value);
        if parsed.Some? {
          assert SessionIn(cookies[i], decode) == parsed;
          CookieAuthFound(cookies, decode, i);
          return Some(Auth(parsed.value.accessToken, parsed.value.uid, parsed.value.client));
        }
      }
      assert SessionIn(cookies[i], decode).None?;
      NoSessionBeforeNext(cookies, decode, i);
    }
    return None;
  }

  /** No cookie before position `i` yields a session. */
  predicate NoSessionBefore(cookies: seq<string>, decode: string -> Option<Session>, i: int)
    requires 0 <= i <= |cookies|
  {
    forall j | 0 <= j < i :: SessionIn(cookies[j], decode).None?
  }

  lemma NoSessionBeforeNext(cookies: seq<string>, decode: string -> Option<Session>, i: int)
    requires 0 <= i < |cookies|
    requires NoSessionBefore(cookies, decode, i) && SessionIn(cookies[i], decode).None?
    ensures NoSessionBefore(cookies, decode, i + 1)
  {
  }

  /** The first cookie that yields a session gives the credentials. */
  lemma CookieAuthFound(cookies: seq<string>, decode: string -> Option<Session>, i: int)
    requires FirstSessionAt(cookies, decode, i)
    ensures var s := SessionIn(cookies[i], decode).value;
            IsCookieAuth(cookies, decode, Some(Auth(s.accessToken, s.uid, s.client)))
  {
  }

  // ------------------------------------------------------------------
  // Conversation id in the address
  // ------------------------------------------------------------------

  const ConversationsSegment := "/conversations/"

  /** The pattern `/\/conversations\/(\d+)/` matches at position `i` of `path`. */
  predicate MatchesAt(path: string, i: int) {
    && Text.OccursAt(path, ConversationsSegment, i)
    && i + |ConversationsSegment| < |path|
    && IsDigit(path[i + |ConversationsSegment|])
  }

  /** The leftmost position at or after `from` where the pattern matches. */
  function FirstMatch(path: string, from: nat): (r: Option<nat>)
    requires from <= |path|
    ensures r.Some? ==> from <= r.value < |path| && MatchesAt(path, r.value)
    ensures r.Some? ==> forall j | from <= j < r.value :: !MatchesAt(path, j)
    ensures r.None? ==> forall j | from <= j < |path| :: !MatchesAt(path, j)
    decreases |path| - from
  {
    if from == |path| then None
    else if MatchesAt(path, from) then Some(from)
    else FirstMatch(path, from + 1)
  }

  /**
   * `getConversationIdFromUrl` on `location.pathname`: null when the pattern
   * does not match, otherwise `parseInt` of the maximal digit run after the
   * leftmost `/conversations/` that a digit follows.
   */
  function ConversationIdFromPath(path: string): (r: Option<nat>)
    ensures r.None? <==> forall i | 0 <= i < |path| :: !MatchesAt(path, i)
  {
    match FirstMatch(path, 0)
    case None => None
    case Some(i) =>
      var after := path[i + |ConversationsSegment|..];
      Some(DigitsValue(after[..DigitRunLength(after)]))
  }

  /**
   * The id read from a path is the value of the digit run after its first
   * match: `prefix + "/conversations/" + d + rest`, where no match starts
   * inside `prefix`, `d` is a non-empty run of digits (leading zeros
   * allowed) and `rest` does not continue it, yields the value of `d`.
   */
  lemma ConversationIdRoundTrip(prefix: string, d: string, rest: string)
    requires d != [] && AllDigits(d)
    requires rest == [] || !IsDigit(rest[0])
    requires forall i | 0 <= i < |prefix| :: !MatchesAt(prefix + ConversationsSegment + d + rest, i)
    ensures ConversationIdFromPath(prefix + ConversationsSegment + d + rest) == Some(DigitsValue(d))
  {
    var path := prefix + ConversationsSegment + d + rest;
    var at := |prefix|;
    assert path[at..at + |ConversationsSegment|] == ConversationsSegment;
    assert path[at + |ConversationsSegment|] == d[0];
    assert MatchesAt(path, at);
    FirstMatchBefore(path, 0, at);
    assert path[at + |ConversationsSegment|..] == d + rest;
    DigitRunOfDigits(d, rest);
    assert (d + rest)[..|d|] == d;
  }

  /** A path whose first `/conversations/` is followed by the decimal digits of `n` yields `n`. */
  lemma ConversationIdOfCanonicalDigits(prefix: string, n: nat, rest: string)
    requires forall i | 0 <= i < |prefix| :: !Text.OccursAt(prefix + ConversationsSegment, ConversationsSegment, i)
    requires rest == [] || !IsDigit(rest[0])
    ensures ConversationIdFromPath(prefix + ConversationsSegment + NatToString(n) + rest) == Some(n)
  {
    var head := prefix + ConversationsSegment;
    var path := prefix + ConversationsSegment + NatToString(n) + rest;
    assert path == head + (NatToString(n) + rest);
    forall i | 0 <= i < |prefix|
      ensures !MatchesAt(path, i)
    {
      if MatchesAt(path, i) {
        assert i + |ConversationsSegment| <= |head|;
        assert path[i..i + |ConversationsSegment|] == head[i..i + |ConversationsSegment|];
        assert Text.OccursAt(head, ConversationsSegment, i);
        assert false;
      }
    }
    ConversationIdRoundTrip(prefix, NatToString(n), rest);
    DigitsValueOfNatToString(n);
  }

  /** FirstMatch from `from` finds `at` when nothing in between matches. */
  lemma {:induction false} FirstMatchBefore(path: string, from: nat, at: nat)
    requires from <= at < |path| && MatchesAt(path, at)
    requires forall j | from <= j < at :: !MatchesAt(path, j)
    ensures FirstMatch(path, from) == Some(at)
    decreases at - from
  {
    if from < at {
      FirstMatchBefore(path, from + 1, at);
    }
  }

  // ------------------------------------------------------------------
  // Account id
  // ------------------------------------------------------------------

  /** The profile request: `GET {BaseUrl}/api/v1/profile` with the session headers. */
  datatype ProfileRequest = ProfileRequest(url: string, headers: seq<(string, string)>)

  /** The fields of the profile JSON the script reads: the `id` of each listed account, and `account_id` (None when falsy). */
  datatype Profile = Profile(accountIds: seq<int>, accountId: Option<int>)

  /**
   * The profile fetch: it throws, or answers with `ok` and a body that is
   * None when `res.json()` (or reading a field of a null body) throws.
   */
  datatype ProfileReply = FetchThrew | Answered(ok: bool, body: Option<Profile>)

  /** A JavaScript value as `String(...)` renders it: `undefined` for an absent one. */
  function Rendered(v: Option<string>): string {
    if v.Some? then v.value else "undefined"
  }

  function ProfileRequestFor(auth: Auth): ProfileRequest {
    ProfileRequest(BaseUrl + "/api/v1/profile",
      [("api_access_token", Rendered(auth.token)), ("client", Rendered(auth.client)), ("uid", Rendered(auth.uid))])
  }

  /** The account id fallback chain of `openPanel`, on the profile reply. */
  function AccountIdFrom(reply: ProfileReply): (id: int)
    ensures reply.FetchThrew? || !reply.ok || reply.body.None? ==> id == 1
    ensures reply.Answered? && reply.ok && reply.body.Some? ==>
              var p := reply.body.value;
              && (|p.accountIds| > 0 ==> id == p.accountIds[0])
              && (|p.accountIds| == 0 && p.accountId.Some? && p.accountId.value != 0 ==> id == p.accountId.value)
              && (|p.accountIds| == 0 && (p.accountId.None? || p.accountId.value == 0) ==> id == 1)
  {
    if reply.FetchThrew? || !reply.ok || reply.body.None? then 1
    else
      var p := reply.body.value;
      if |p.accountIds| > 0 then p.accountIds[0]
      else if p.accountId.Some? && p.accountId.value != 0 then p.accountId.value
      else 1
  }

  /** The chosen account id is the default 1 or one the profile named. */
  lemma AccountIdProvenance(reply: ProfileReply)
    ensures var id := AccountIdFrom(reply);
            || id == 1
            || (reply.Answered? && reply.body.Some? &&
                (id in reply.body.value.accountIds || reply.body.value.accountId == Some(id)))
  {
  }

  // ------------------------------------------------------------------
  // Panel address
  // ------------------------------------------------------------------

  /** Pair `i` is the first one named `key`. */
  predicate FirstNamed(pairs: seq<(string, string)>, key: string, i: int) {
    0 <= i < |pairs| && pairs[i].0 == key && forall j | 0 <= j < i :: pairs[j].0 != key
  }

  /** `searchParams.get(key)`: the value of the first pair named `key`, null when there is none. */
  function Param(pairs: seq<(string, string)>, key: string): (r: Option<string>)
    ensures r.None? <==> forall i | 0 <= i < |pairs| :: pairs[i].0 != key
    ensures r.Some? ==> exists i | 0 <= i < |pairs| :: FirstNamed(pairs, key, i) && r.value == pairs[i].1
  {
    if pairs == [] then None
    else if pairs[0].0 == key then
      assert FirstNamed(pairs, key, 0);
      Some(pairs[0].1)
    else
      var r := Param(pairs[1..], key);
      assert r.Some? ==> exists i | 0 <= i < |pairs| :: FirstNamed(pairs, key, i) && r.value == pairs[i].1 by {
        if r.Some? {
          var i :| 0 <= i < |pairs[1..]| && FirstNamed(pairs[1..], key, i) && r.value == pairs[1..][i].1;
          assert FirstNamed(pairs, key, i + 1);
        }
      }
      r
  }

  /** `get` looks at the first pair, then at the rest. */
  lemma ParamCons(p: (string, string), rest: seq<(string, string)>, key: string)
    ensures Param([p] + rest, key) == if p.0 == key then Some(p.1) else Param(rest, key)
  {
    assert ([p] + rest)[1..] == rest;
  }

  /**
   * The `URLSearchParams` of the panel address, in insertion order; the
   * conversation pair is appended only when `conversation` is given.
   */
  function QueryPairs(token: string, accountId: string, client: string, uid: string, origin: string,
                      conversation: Option<string>): (pairs: seq<(string, string)>)
    ensures |pairs| >= 5
  {
    [("token", token)] + ([("accountId", accountId)] + ([("client", client)] + ([("uid", uid)] +
    ([("chatwootUrl", origin)] + (if conversation.Some? then [("conversationId", conversation.value)] else [])))))
  }

  /** What the panel page reads back from the query: each value under its own name, nothing under any other. */
  lemma QueryParam(key: string, token: string, accountId: string, client: string, uid: string, origin: string,
                   conversation: Option<string>)
    ensures Param(QueryPairs(token, accountId, client, uid, origin, conversation), key) ==
              if key == "token" then Some(token)
              else if key == "accountId" then Some(accountId)
              else if key == "client" then Some(client)
              else if key == "uid" then Some(uid)
              else if key == "chatwootUrl" then Some(origin)
              else if key == "conversationId" then conversation
              else None
  {
    var p5: seq<(string, string)> := if conversation.Some? then [("conversationId", conversation.value)] else [];
    var p4 := [("chatwootUrl", origin)] + p5;
    var p3 := [("uid", uid)] + p4;
    var p2 := [("client", client)] + p3;
    var p1 := [("accountId", accountId)] + p2;
    ParamCons(("token", token), p1, key);
    ParamCons(("accountId", accountId), p2, key);
    ParamCons(("client", client), p3, key);
    ParamCons(("uid", uid), p4, key);
    ParamCons(("chatwootUrl", origin), p5, key);
    if conversation.Some? {
      ParamCons(("conversationId", conversation.value), [], key);
    }
  }

  /** The conversation id as appended: only a non-null, non-zero id, in decimal. */
  function ConversationParam(conversationId: Option<nat>): (r: Option<string>)
    ensures r.Some? <==> conversationId.Some? && conversationId.value != 0
    ensures r.Some? ==> ReadDigits(r.value) == Some((conversationId.value, ""))
  {
    if conversationId.Some? && conversationId.value != 0 then
      ReadDigitsOfNatToString(conversationId.value, "");
      assert NatToString(conversationId.value) + "" == NatToString(conversationId.value);
      Some(NatToString(conversationId.value))
    else None
  }

  /** The query pairs of `openPanel`: absent session fields are rendered as `undefined`. */
  function PanelQuery(auth: Auth, accountId: int, origin: string, conversationId: Option<nat>): (pairs: seq<(string, string)>)
    ensures |pairs| >= 5
  {
    QueryPairs(Rendered(auth.token), IntToString(accountId), Rendered(auth.client), Rendered(auth.uid), origin,
               ConversationParam(conversationId))
  }

  /**
   * `params.toString()`: each pair as `name=value`, both serialised by
   * `encode` (the form-urlencoded serialiser), joined with `&`.
   */
  function Serialize(pairs: seq<(string, string)>, encode: string -> string): string
    requires |pairs| > 0
  {
    Text.Join(EncodedPairs(pairs, encode), '&')
  }

  function EncodedPairs(pairs: seq<(string, string)>, encode: string -> string): (parts: seq<string>)
    ensures |parts| == |pairs|
  {
    seq(|pairs|, i requires 0 <= i < |pairs| => encode(pairs[i].0) + "=" + encode(pairs[i].1))
  }

  /** With an encoder that escapes `&`, the query splits back into the encoded pairs. */
  lemma SerializeSplits(pairs: seq<(string, string)>, encode: string -> string)
    requires |pairs| > 0
    requires forall s :: '&' !in encode(s)
    ensures Text.Split(Serialize(pairs, encode), '&') == EncodedPairs(pairs, encode)
  {
    var parts := EncodedPairs(pairs, encode);
    forall i | 0 <= i < |parts|
      ensures '&' !in parts[i]
    {
      assert parts[i] == encode(pairs[i].0) + "=" + encode(pairs[i].1);
      assert '&' !in encode(pairs[i].0) && '&' !in encode(pairs[i].1);
    }
    Text.SplitJoin(parts, '&');
  }

  /** `${BASE_URL}/${page}?${params}`. */
  function PanelUrl(page: string, pairs: seq<(string, string)>, encode: string -> string): string
    requires |pairs| > 0
  {
    BaseUrl + "/" + page + "?" + Serialize(pairs, encode)
  }

  /**
   * The panel page finds its own address before the first `?` (the page
   * name holds none) and the query after it, whatever the encoder left in
   * the values; with an encoder that escapes `&`, the query splits back
   * into the encoded pairs.
   */
  lemma PanelUrlReadBack(page: string, pairs: seq<(string, string)>, encode: string -> string)
    requires |pairs| > 0
    requires '?' !in page
    ensures Text.SplitAtFirst(PanelUrl(page, pairs, encode), '?') == Some((BaseUrl + "/" + page, Serialize(pairs, encode)))
    ensures (forall s :: '&' !in encode(s)) ==>
              Text.Split(Text.SplitAtFirst(PanelUrl(page, pairs, encode), '?').value.1, '&') == EncodedPairs(pairs, encode)
  {
    var address := BaseUrl + "/" + page;
    assert '?' !in "qpassa-chatwootwrapper";
    assert '?' !in address;
    assert PanelUrl(page, pairs, encode) == address + ['?'] + Serialize(pairs, encode);
    Text.SplitAtFirstOf(address, Serialize(pairs, encode), '?');
    if forall s :: '&' !in encode(s) {
      SerializeSplits(pairs, encode);
    }
  }

  /**
   * The address part of `openPanel(page)`: no panel without a session;
   * otherwise the profile is fetched with the session's headers and the
   * panel address carries the session, the chosen account, the page's origin
   * and the conversation in the address bar.
   */
  method OpenPanel(page: string, cookieHeader: string, decode: string -> Option<Session>,
                   fetchProfile: ProfileRequest -> ProfileReply, pathname: string, origin: string,
                   encode: string -> string)
    returns (auth: Option<Auth>, target: Option<string>)
    ensures IsCookieAuth(Text.Split(cookieHeader, ';'), decode, auth)
    ensures target.None? <==> auth.None?
    ensures auth.Some? ==>
              var accountId := AccountIdFrom(fetchProfile(ProfileRequestFor(auth.value)));
              var pairs := PanelQuery(auth.value, accountId, origin, ConversationIdFromPath(pathname));
              target == Some(PanelUrl(page, pairs, encode))
  {
    auth := GetAuthFromCookie(cookieHeader, decode);
    if auth.None? {
      return auth, None;
    }
    var accountId := 1;
    var reply := fetchProfile(ProfileRequestFor(auth.value));
    if reply.Answered? && reply.ok && reply.body.Some? {
      var data := reply.body.value;
      if |data.accountIds| > 0 {
        accountId := data.accountIds[0];
      } else if data.accountId.Some? && data.accountId.value != 0 {
        accountId := data.accountId.value;
      }
    }
    assert accountId == AccountIdFrom(reply);
    var conversationId := ConversationIdFromPath(pathname);
    var pairs := PanelQuery(auth.value, accountId, origin, conversationId);
    target := Some(PanelUrl(page, pairs, encode));
  }

  // ------------------------------------------------------------------
  // Sidebar entry
  // ------------------------------------------------------------------

  /** The lower-cased text names the settings entry (Portuguese or English). */
  predicate IsSettingsText(text: string) {
    var lower := Text.AsciiLower(text);
    Text.Contains(lower, "configura") || Text.Contains(lower, "settings")
  }

  /** Item `k` is the reference: the first settings entry, or the last item when there is none. */
  predicate IsReference(texts: seq<string>, k: int) {
    && 0 <= k < |texts|
    && (forall j | 0 <= j < k :: !IsSettingsText(texts[j]))
    && (IsSettingsText(texts[k]) || (k == |texts| - 1 && !IsSettingsText(texts[k])))
  }

  /** The `refLi` search over the texts of the nav's items; None stands for `allLi[-1]`, undefined. */
  method FindReferenceIndex(texts: seq<string>) returns (ref: Option<nat>)
    ensures ref.None? <==> texts == []
    ensures ref.Some? ==> IsReference(texts, ref.value)
  {
    ref := if texts == [] then None else Some(|texts| - 1);
    var i := 0;
    while i < |texts|
      invariant 0 <= i <= |texts|
      invariant forall j | 0 <= j < i :: !IsSettingsText(texts[j])
      invariant ref == if texts == [] then None else Some(|texts| - 1)
    {
      if IsSettingsText(texts[i]) {
        ref := Some(i);
        return;
      }
      i := i + 1;
    }
  }

  /** A direct `li` child of the nav: its text content and the id of the wrapper item inside it, if any. */
  datatype NavItem = NavItem(text: string, itemId: Option<string>)

  /** How `addSidebarItem` ends: it returns a boolean, or throws. */
  datatype AddOutcome = Returned(value: bool) | Threw(error: string)

  /** `refLi.className` on an empty nav: `refLi` is `undefined`. */
  const EmptyNavError := "Cannot read properties of undefined (reading 'className')"

  function ItemId(page: string): string {
    "saas-wrapper-menu-" + page
  }

  function Texts(items: seq<NavItem>): (texts: seq<string>)
    ensures |texts| == |items|
    ensures forall i | 0 <= i < |items| :: texts[i] == items[i].text
  {
    seq(|items|, i requires 0 <= i < |items| => items[i].text)
  }

  /** The part of the page the sidebar injection reads and changes. */
  class Sidebar {
    /** Whether `findMainNav` finds a list. */
    var navFound: bool
    /** The list's direct `li` children, in order. */
    var items: seq<NavItem>
    /** The ids of all elements of the document. */
    var ids: set<string>

    constructor (navFound: bool, items: seq<NavItem>, ids: set<string>)
      ensures this.navFound == navFound && this.items == items && this.ids == ids
    {
      this.navFound, this.items, this.ids := navFound, items, ids;
    }

    /**
     * `addSidebarItem(label, icon, onClickId, page)`, with `title` for `label`: false without a nav;
     * true and no change when the page's entry already exists; otherwise the
     * new entry goes immediately before the reference item.
     */
    method AddSidebarItem(title: string, page: string) returns (outcome: AddOutcome)
      modifies this
      ensures navFound == old(navFound)
      ensures !navFound ==> outcome == Returned(false) && items == old(items) && ids == old(ids)
      ensures navFound && ItemId(page) in old(ids) ==>
                outcome == Returned(true) && items == old(items) && ids == old(ids)
      ensures navFound && ItemId(page) !in old(ids) && old(items) == [] ==>
                outcome == Threw(EmptyNavError) && items == old(items) && ids == old(ids)
      ensures navFound && ItemId(page) !in old(ids) && old(items) != [] ==>
                && outcome == Returned(true)
                && ids == old(ids) + {ItemId(page)}
                && exists k | 0 <= k < |old(items)| && IsReference(Texts(old(items)), k) ::
                     items == old(items)[..k] + [NavItem(title, Some(ItemId(page)))] + old(items)[k..]
      ensures outcome == Returned(true) ==> ItemId(page) in ids
    {
      if !navFound {
        return Returned(false);
      }
      var itemId := ItemId(page);
      if itemId in ids {
        return Returned(true);
      }
      var ref := FindReferenceIndex(Texts(items));
      if ref.None? {
        return Threw(EmptyNavError);
      }
      var k := ref.value;
      items := items[..k] + [NavItem(title, Some(itemId))] + items[k..];
      ids := ids + {itemId};
      outcome := Returned(true);
    }
  }
}
