/**
 * The scheduled-message dispatcher (src/worker.ts). One cycle reads the
 * clock once, selects every PENDING message due by then, and for each one
 * posts it to its tenant's Chatwoot instance and records SENT, or records
 * FAILED with a bounded diagnostic. The HTTP client and store failures are
 * injected: `http` answers a request with a response or an exception, and
 * `faults(id, s)` is the exception (if any) thrown by the update that
 * would set row `id` to status `s`.
 */
module Worker {
  import opened Wrappers
  import opened Decimal
  import opened Store
  import Text

  datatype MessageBody = MessageBody(content: string, messageType: string, isPrivate: bool)

  datatype Request = Request(
    httpMethod: string,
    url: string,
    headers: seq<(string, string)>,
    body: MessageBody)

  /** What `fetch` produced: a response (status and body text), or an exception. */
  datatype HttpReply = Response(status: int, text: string) | Thrown(message: string)

  /** What handling one message did to its row. */
  datatype Outcome =
    | Delivered               // row set to SENT, diagnostic cleared
    | MarkedFailed(errorLog: string) // row set to FAILED with this diagnostic
    | Escaped(error: string)  // the FAILED update itself threw: row untouched, cycle ends

  datatype Handling = Handling(post: Option<Request>, outcome: Outcome)

  datatype CycleResult = Completed | Aborted(id: nat, error: string)

  /** The exception V8 raises when a null tenant is dereferenced while building the URL. */
  const MissingTenantError := "Cannot read properties of null (reading 'chatwootUrl')"

  const ApiErrorPrefix := "Chatwoot API Error: "

  /** The `findMany` filter: PENDING and `scheduledAt <= now`. */
  function DueIds(messages: map<nat, ScheduledMessage>, now: int): set<nat> {
    set id | id in messages && messages[id].status == Pending && messages[id].scheduledAt <= now
  }

  function MessagesPath(accountId: int, conversationId: int): string {
    "/api/v1/accounts/" + IntToString(accountId) + ConversationPath(conversationId)
  }

  /** The conversation part of the messages-endpoint path. */
  function ConversationPath(conversationId: int): string {
    "/conversations/" + IntToString(conversationId) + "/messages"
  }

  /** The one request the worker sends for a message: a JSON POST to the conversation's messages endpoint. */
  function BuildRequest(msg: ScheduledMessage, tenant: Tenant): Request {
    Request(
      "POST",
      tenant.chatwootUrl + MessagesPath(tenant.accountId, msg.conversationId),
      [("api_access_token", tenant.apiAccessToken), ("Content-Type", "application/json")],
      MessageBody(msg.content, "outgoing", false))
  }

  /** `response.ok`. */
  predicate IsOk(status: int) {
    200 <= status <= 299
  }

  /** The message of the error thrown for a non-ok response. */
  function ApiErrorText(status: int, text: string): string {
    ApiErrorPrefix + IntToString(status) + " - " + text
  }

  /** Reads a status and a response body back out of an API error message. */
  function ReadApiError(message: string): Option<(int, string)> {
    match Text.AfterPrefix(message, ApiErrorPrefix)
    case None => None
    case Some(afterPrefix) =>
      match ReadInt(afterPrefix)
      case None => None
      case Some((status, rest)) =>
        match Text.AfterPrefix(rest, " - ")
        case None => None
        case Some(text) => Some((status, text))
  }

  /** Reads the account and conversation ids back out of a messages-endpoint path. */
  function ReadMessagesPath(path: string): Option<(int, int)> {
    match Text.AfterPrefix(path, "/api/v1/accounts/")
    case None => None
    case Some(afterAccounts) =>
      match ReadInt(afterAccounts)
      case None => None
      case Some((accountId, rest)) =>
        match ReadConversationPath(rest)
        case None => None
        case Some(conversationId) => Some((accountId, conversationId))
  }

  /** Reads the conversation id back out of the conversation part of the path. */
  function ReadConversationPath(path: string): Option<int> {
    match Text.AfterPrefix(path, "/conversations/")
    case None => None
    case Some(afterConversations) =>
      match ReadInt(afterConversations)
      case None => None
      case Some((conversationId, tail)) =>
        if tail == "/messages" then Some(conversationId) else None
  }

  /** The conversation part of the path names exactly the conversation it was built from. */
  lemma ConversationPathRoundTrip(conversationId: int)
    ensures ReadConversationPath(ConversationPath(conversationId)) == Some(conversationId)
  {
    var path := ConversationPath(conversationId);
    var conversation := IntToString(conversationId) + "/messages";
    assert Text.AfterPrefix(path, "/conversations/") == Some(conversation) by {
      assert path == "/conversations/" + conversation;
      Text.AfterPrefixOf("/conversations/", conversation);
    }
    assert ReadInt(conversation) == Some((conversationId, "/messages")) by {
      ReadIntOfIntToString(conversationId, "/messages");
    }
  }

  /** The messages-endpoint path names exactly the account and the conversation it was built from. */
  lemma MessagesPathRoundTrip(accountId: int, conversationId: int)
    ensures ReadMessagesPath(MessagesPath(accountId, conversationId)) == Some((accountId, conversationId))
  {
    var path := MessagesPath(accountId, conversationId);
    var tail := ConversationPath(conversationId);
    var afterAccounts := IntToString(accountId) + tail;
    assert Text.AfterPrefix(path, "/api/v1/accounts/") == Some(afterAccounts) by {
      assert path == "/api/v1/accounts/" + afterAccounts;
      Text.AfterPrefixOf("/api/v1/accounts/", afterAccounts);
    }
    assert ReadInt(afterAccounts) == Some((accountId, tail)) by {
      assert tail[0] == '/';
      ReadIntOfIntToString(accountId, tail);
    }
    ConversationPathRoundTrip(conversationId);
    ReadMessagesPathOf(path, afterAccounts, accountId, tail, conversationId);
  }

  /** ReadMessagesPath succeeds when each of its three steps does. */
  lemma ReadMessagesPathOf(path: string, afterAccounts: string, accountId: int, tail: string, conversationId: int)
    requires Text.AfterPrefix(path, "/api/v1/accounts/") == Some(afterAccounts)
    requires ReadInt(afterAccounts) == Some((accountId, tail))
    requires ReadConversationPath(tail) == Some(conversationId)
    ensures ReadMessagesPath(path) == Some((accountId, conversationId))
  {
  }

  /**
   * The request for a message is a POST to its tenant's instance, on the path
   * of the tenant's account and the message's own conversation, authenticated
   * with the tenant's token, carrying the message's content as an outgoing,
   * public message.
   */
  lemma RequestTargetsOwnConversation(msg: ScheduledMessage, tenant: Tenant)
    ensures var r := BuildRequest(msg, tenant);
            && r.httpMethod == "POST"
            && Text.StartsWith(r.url, tenant.chatwootUrl)
            && ReadMessagesPath(r.url[|tenant.chatwootUrl|..]) == Some((tenant.accountId, msg.conversationId))
            && ("api_access_token", tenant.apiAccessToken) in r.headers
            && ("Content-Type", "application/json") in r.headers
            && (forall h | h in r.headers :: h.0 == "api_access_token" || h.0 == "Content-Type")
            && r.body.content == msg.content && r.body.messageType == "outgoing" && !r.body.isPrivate
  {
    var r := BuildRequest(msg, tenant);
    assert r.url[..|tenant.chatwootUrl|] == tenant.chatwootUrl;
    assert r.url[|tenant.chatwootUrl|..] == MessagesPath(tenant.accountId, msg.conversationId);
    MessagesPathRoundTrip(tenant.accountId, msg.conversationId);
  }

  /** The status and the body of a failed response can be read back from the error message. */
  lemma ApiErrorRoundTrip(status: int, text: string)
    ensures ReadApiError(ApiErrorText(status, text)) == Some((status, text))
  {
    var afterPrefix := IntToString(status) + (" - " + text);
    assert ApiErrorText(status, text) == ApiErrorPrefix + afterPrefix;
    Text.AfterPrefixOf(ApiErrorPrefix, afterPrefix);
    ReadIntOfIntToString(status, " - " + text);
    Text.AfterPrefixOf(" - ", text);
  }

  /** `String(error.message).slice(0, 1000)`. */
  function ErrorLogOf(message: string): (log: string)
    ensures |log| <= MaxErrorLog
    ensures log <= message
    ensures |message| <= MaxErrorLog ==> log == message
    ensures |message| > MaxErrorLog ==> |log| == MaxErrorLog
  {
    if |message| <= MaxErrorLog then message else message[..MaxErrorLog]
  }

  /** The tenant exists, the endpoint answered 2xx and the SENT update went through. */
  predicate DeliveryConfirmed(id: nat, msg: ScheduledMessage, tenants: map<nat, Tenant>,
                              http: Request -> HttpReply, faults: (nat, Status) -> Option<string>)
  {
    && msg.tenantId in tenants
    && var reply := http(BuildRequest(msg, tenants[msg.tenantId]));
    && reply.Response? && IsOk(reply.status)
    && faults(id, Sent).None?
  }

  /** The FAILED update for the message throws, which the loop does not catch. */
  predicate Escapes(id: nat, msg: ScheduledMessage, tenants: map<nat, Tenant>,
                    http: Request -> HttpReply, faults: (nat, Status) -> Option<string>)
  {
    !DeliveryConfirmed(id, msg, tenants, http, faults) && faults(id, Failed).Some?
  }

  /** The `try` block of one iteration: the request it posts (if it gets that far) and the error it throws (if any). */
  function TryDeliver(id: nat, msg: ScheduledMessage, tenants: map<nat, Tenant>,
                      http: Request -> HttpReply, faults: (nat, Status) -> Option<string>)
    : (Option<Request>, Option<string>)
  {
    if msg.tenantId !in tenants then (None, Some(MissingTenantError))
    else
      var request := BuildRequest(msg, tenants[msg.tenantId]);
      match http(request)
      case Thrown(m) => (Some(request), Some(m))
      case Response(status, text) =>
        if !IsOk(status) then (Some(request), Some(ApiErrorText(status, text)))
        else (Some(request), faults(id, Sent))
  }

  /** One iteration of the loop: the `try` block, then the `catch` block if it threw. */
  function Handle(id: nat, msg: ScheduledMessage, tenants: map<nat, Tenant>,
                  http: Request -> HttpReply, faults: (nat, Status) -> Option<string>): (h: Handling)
    ensures h.post.Some? <==> msg.tenantId in tenants
    ensures h.post.Some? ==> h.post.value == BuildRequest(msg, tenants[msg.tenantId])
    ensures h.outcome.MarkedFailed? ==> |h.outcome.errorLog| <= MaxErrorLog
  {
    var (post, error) := TryDeliver(id, msg, tenants, http, faults);
    match error
    case None => Handling(post, Delivered)
    case Some(e) =>
      match faults(id, Failed)
      case Some(f) => Handling(post, Escaped(f))
      case None => Handling(post, MarkedFailed(ErrorLogOf(e)))
  }

  /**
   * The three ways one message ends: SENT exactly when the tenant exists, the
   * endpoint answered 2xx and the SENT update went through; otherwise FAILED
   * with the first 1000 characters of what was thrown (the missing-tenant
   * error, the transport exception, the API error text, or the SENT update's
   * exception); unless the FAILED update throws too, which escapes.
   */
  lemma HandleOutcome(id: nat, msg: ScheduledMessage, tenants: map<nat, Tenant>,
                      http: Request -> HttpReply, faults: (nat, Status) -> Option<string>)
    ensures var h := Handle(id, msg, tenants, http, faults);
            && (h.outcome.Delivered? <==> DeliveryConfirmed(id, msg, tenants, http, faults))
            && (h.outcome.Escaped? <==> Escapes(id, msg, tenants, http, faults))
            && (h.outcome.Escaped? ==> h.outcome.error == faults(id, Failed).value)
            && (msg.tenantId !in tenants && faults(id, Failed).None? ==>
                  h.outcome == MarkedFailed(MissingTenantError))
            && (h.post.Some? && faults(id, Failed).None? ==>
                  match http(h.post.value)
                  case Thrown(m) => h.outcome == MarkedFailed(ErrorLogOf(m))
                  case Response(status, text) =>
                    && (!IsOk(status) ==> h.outcome == MarkedFailed(ErrorLogOf(ApiErrorText(status, text))))
                    && (IsOk(status) && faults(id, Sent).Some? ==>
                          h.outcome == MarkedFailed(ErrorLogOf(faults(id, Sent).value))))
  {
  }

  /**
   * The diagnostic stored for a non-ok response always starts with the fixed
   * prefix, and when the whole message fits in 1000 characters the status
   * and the response body can both be read back from it.
   */
  lemma NonOkDiagnostic(status: int, text: string)
    ensures var log := ErrorLogOf(ApiErrorText(status, text));
            && Text.StartsWith(log, ApiErrorPrefix)
            && (|ApiErrorText(status, text)| <= MaxErrorLog ==> ReadApiError(log) == Some((status, text)))
  {
    var message := ApiErrorText(status, text);
    var log := ErrorLogOf(message);
    assert message[..|ApiErrorPrefix|] == ApiErrorPrefix;
    assert log[..|ApiErrorPrefix|] == message[..|ApiErrorPrefix|];
    ApiErrorRoundTrip(status, text);
  }

  /** The row after the update an outcome performs. */
  function Settle(msg: ScheduledMessage, outcome: Outcome): ScheduledMessage {
    match outcome
    case Delivered => msg.(status := Sent, errorLog := None)
    case MarkedFailed(log) => msg.(status := Failed, errorLog := Some(log))
    case Escaped(_) => msg
  }

  /** The table after the messages in `handled` were handled, in that order, against the snapshot. */
  function Settled(snapshot: map<nat, ScheduledMessage>, tenants: map<nat, Tenant>,
                   http: Request -> HttpReply, faults: (nat, Status) -> Option<string>,
                   handled: seq<nat>): map<nat, ScheduledMessage>
    requires forall i | 0 <= i < |handled| :: handled[i] in snapshot
  {
    if handled == [] then snapshot
    else
      var id := handled[|handled| - 1];
      var h := Handle(id, snapshot[id], tenants, http, faults);
      Settled(snapshot, tenants, http, faults, handled[..|handled| - 1])[id := Settle(snapshot[id], h.outcome)]
  }

  /**
   * Row by row: a handled message holds what its own handling wrote (whatever
   * happened to the others), every other message is as in the snapshot.
   */
  lemma {:induction false} SettledAt(snapshot: map<nat, ScheduledMessage>, tenants: map<nat, Tenant>,
                                     http: Request -> HttpReply, faults: (nat, Status) -> Option<string>,
                                     handled: seq<nat>, id: nat)
    requires forall i | 0 <= i < |handled| :: handled[i] in snapshot
    ensures Settled(snapshot, tenants, http, faults, handled).Keys == snapshot.Keys
    ensures id in snapshot ==>
              Settled(snapshot, tenants, http, faults, handled)[id]
              == if id in handled then Settle(snapshot[id], Handle(id, snapshot[id], tenants, http, faults).outcome)
                 else snapshot[id]
  {
    if handled != [] {
      var prefix := handled[..|handled| - 1];
      SettledAt(snapshot, tenants, http, faults, prefix, id);
      assert handled == prefix + [handled[|handled| - 1]];
    }
  }

  /** The POSTs made while handling `handled`, in order. */
  function PostsOf(snapshot: map<nat, ScheduledMessage>, tenants: map<nat, Tenant>,
                   http: Request -> HttpReply, faults: (nat, Status) -> Option<string>,
                   handled: seq<nat>): seq<Request>
    requires forall i | 0 <= i < |handled| :: handled[i] in snapshot
  {
    if handled == [] then []
    else
      var id := handled[|handled| - 1];
      var h := Handle(id, snapshot[id], tenants, http, faults);
      PostsOf(snapshot, tenants, http, faults, handled[..|handled| - 1])
        + (if h.post.Some? then [h.post.value] else [])
  }

  predicate Distinct(s: seq<nat>) {
    forall i, j | 0 <= i < j < |s| :: s[i] != s[j]
  }

  /**
   * The body of the `for` loop for one selected message `msg` stored under
   * `id`: the request it posts, if any, and the error escaping the `catch`
   * block, if any.
   */
  method HandleMessage(db: Database, id: nat, msg: ScheduledMessage, tenants: map<nat, Tenant>,
                       http: Request -> HttpReply, faults: (nat, Status) -> Option<string>)
    returns (post: Option<Request>, escaped: Option<string>)
    requires id in db.messages && db.messages[id] == msg
    modifies db
    ensures var h := Handle(id, msg, tenants, http, faults);
            && post == h.post
            && (escaped.Some? <==> Escapes(id, msg, tenants, http, faults))
            && (escaped.Some? ==> h.outcome == Escaped(escaped.value))
            && db.messages == old(db.messages)[id := Settle(msg, h.outcome)]
    ensures db.tenants == old(db.tenants) && db.followUps == old(db.followUps) && db.nextId == old(db.nextId)
  {
    HandleOutcome(id, msg, tenants, http, faults);
    post, escaped := None, None;
    // try
    var error: Option<string> := None;
    if msg.tenantId !in tenants {
      error := Some(MissingTenantError);
    } else {
      var request := BuildRequest(msg, tenants[msg.tenantId]);
      post := Some(request);
      var reply := http(request);
      match reply {
        case Thrown(m) =>
          error := Some(m);
        case Response(status, text) =>
          if !IsOk(status) {
            error := Some(ApiErrorText(status, text));
          } else {
            var fault := faults(id, Sent);
            if fault.Some? {
              error := fault;
            } else {
              db.UpdateMessage(id, Sent, None);
            }
          }
      }
    }
    // catch
    if error.Some? {
      var fault := faults(id, Failed);
      if fault.Some? {
        escaped := fault;
        assert db.messages == old(db.messages)[id := msg];
      } else {
        db.UpdateMessage(id, Failed, Some(ErrorLogOf(error.value)));
      }
    }
  }

  /**
   * What a cycle may change: when every handled message was PENDING and due
   * at `now`, only the status and diagnostic of handled rows change; rows not
   * selected (terminal, or not yet due) are untouched; and well-formed
   * diagnostics stay well formed (at most 1000 characters, only on FAILED).
   */
  lemma {:induction false} SettledChangesOnlyHandledRows(
    snapshot: map<nat, ScheduledMessage>, tenants: map<nat, Tenant>,
    http: Request -> HttpReply, faults: (nat, Status) -> Option<string>,
    handled: seq<nat>, now: int)
    requires forall i | 0 <= i < |handled| ::
               handled[i] in snapshot && snapshot[handled[i]].status == Pending && snapshot[handled[i]].scheduledAt <= now
    ensures var after := Settled(snapshot, tenants, http, faults, handled);
            && after.Keys == snapshot.Keys
            && (forall id | id in snapshot ::
                  after[id] == snapshot[id].(status := after[id].status, errorLog := after[id].errorLog))
            && (forall id | id in snapshot && (snapshot[id].status != Pending || snapshot[id].scheduledAt > now) ::
                  after[id] == snapshot[id])
            && (forall id | id in snapshot && WellFormedLog(snapshot[id]) :: WellFormedLog(after[id]))
  {
    var after := Settled(snapshot, tenants, http, faults, handled);
    forall id | id in snapshot
      ensures after.Keys == snapshot.Keys
      ensures after[id] == snapshot[id].(status := after[id].status, errorLog := after[id].errorLog)
      ensures snapshot[id].status != Pending || snapshot[id].scheduledAt > now ==> after[id] == snapshot[id]
      ensures WellFormedLog(snapshot[id]) ==> WellFormedLog(after[id])
    {
      SettledAt(snapshot, tenants, http, faults, handled, id);
    }
    SettledAt(snapshot, tenants, http, faults, handled, 0);
  }

  /**
   * A cycle that went through every selected message leaves nothing due at
   * `now`: each of them is now SENT or FAILED, so a second cycle at the same
   * time selects nothing.
   */
  lemma {:induction false} CompletedCycleLeavesNothingDue(
    snapshot: map<nat, ScheduledMessage>, tenants: map<nat, Tenant>,
    http: Request -> HttpReply, faults: (nat, Status) -> Option<string>,
    handled: seq<nat>, now: int)
    requires forall i | 0 <= i < |handled| :: handled[i] in snapshot
    requires forall id | id in snapshot && snapshot[id].status == Pending && snapshot[id].scheduledAt <= now :: id in handled
    requires forall i | 0 <= i < |handled| :: !Escapes(handled[i], snapshot[handled[i]], tenants, http, faults)
    ensures var after := Settled(snapshot, tenants, http, faults, handled);
            forall id | id in after :: !(after[id].status == Pending && after[id].scheduledAt <= now)
  {
    var after := Settled(snapshot, tenants, http, faults, handled);
    forall id | id in after
      ensures !(after[id].status == Pending && after[id].scheduledAt <= now)
    {
      SettledAt(snapshot, tenants, http, faults, handled, id);
      if id in handled {
        var i :| 0 <= i < |handled| && handled[i] == id;
        HandleOutcome(id, snapshot[id], tenants, http, faults);
      }
    }
  }

  /**
   * The `findMany` query: every PENDING message with `scheduledAt <= now`,
   * each once, in an order the store chooses.
   */
  method FindDue(messages: map<nat, ScheduledMessage>, now: int) returns (selected: seq<nat>)
    ensures Distinct(selected)
    ensures forall id :: id in selected <==>
              id in messages && messages[id].status == Pending && messages[id].scheduledAt <= now
  {
    var remaining := DueIds(messages, now);
    selected := [];
    while remaining != {}
      invariant Distinct(selected)
      invariant forall id :: id in selected ==> id !in remaining
      invariant forall id :: id in selected || id in remaining <==> id in DueIds(messages, now)
      decreases remaining
    {
      var id :| id in remaining;
      selected := selected + [id];
      remaining := remaining - {id};
    }
  }

  /**
   * `processScheduledMessages`: one dispatch cycle at time `now`. `selected`
   * is what the query returned, `handled` the part of it the loop got
   * through (all of it unless a FAILED update threw), `posts` the requests
   * sent, in order. What this means for the rows: only status and
   * diagnostic change, rows that were terminal or not yet due are
   * untouched, a completed cycle leaves nothing due, and the store
   * invariant is kept.
   */
  method ProcessScheduledMessages(db: Database, now: int,
                                  http: Request -> HttpReply, faults: (nat, Status) -> Option<string>)
    returns (selected: seq<nat>, handled: seq<nat>, posts: seq<Request>, result: CycleResult)
    modifies db
    ensures db.tenants == old(db.tenants) && db.followUps == old(db.followUps) && db.nextId == old(db.nextId)
    ensures Distinct(selected)
    ensures forall id :: id in selected <==>
              id in old(db.messages) && old(db.messages)[id].status == Pending && old(db.messages)[id].scheduledAt <= now
    ensures handled <= selected
    ensures result.Completed? ==> handled == selected
    ensures EscapesOnlyAtEnd(old(db.messages), old(db.tenants), http, faults, handled, result.Aborted?)
    ensures result.Aborted? ==>
              |handled| > 0 && result.id == handled[|handled| - 1] && faults(result.id, Failed) == Some(result.error)
    ensures db.messages == Settled(old(db.messages), old(db.tenants), http, faults, handled)
    ensures posts == PostsOf(old(db.messages), old(db.tenants), http, faults, handled)
    ensures db.messages.Keys == old(db.messages).Keys
    ensures forall id | id in old(db.messages) ::
              db.messages[id] == old(db.messages)[id].(status := db.messages[id].status, errorLog := db.messages[id].errorLog)
    ensures forall id | id in old(db.messages) && (old(db.messages)[id].status != Pending || old(db.messages)[id].scheduledAt > now) ::
              db.messages[id] == old(db.messages)[id]
    ensures result.Completed? ==> forall id | id in db.messages :: !(db.messages[id].status == Pending && db.messages[id].scheduledAt <= now)
    ensures old(db.Valid()) ==> db.Valid()
  {
    ghost var snapshot := db.messages;
    ghost var wasValid := db.Valid();
    selected := FindDue(db.messages, now);
    handled, posts, result := SendSelected(db, selected, http, faults);
    SettledChangesOnlyHandledRows(snapshot, db.tenants, http, faults, handled, now);
    if result.Completed? {
      CompletedCycleLeavesNothingDue(snapshot, db.tenants, http, faults, handled, now);
    }
    if wasValid {
      assert forall id | id in db.messages :: db.messages[id].tenantId == snapshot[id].tenantId;
    }
  }

  /**
   * The `for` loop of `processScheduledMessages` over the selected messages:
   * each is handled in turn against the table as it was when the query ran,
   * and the loop stops at the first exception that escapes.
   */
  method SendSelected(db: Database, selected: seq<nat>,
                      http: Request -> HttpReply, faults: (nat, Status) -> Option<string>)
    returns (handled: seq<nat>, posts: seq<Request>, result: CycleResult)
    requires Distinct(selected)
    requires forall i | 0 <= i < |selected| :: selected[i] in db.messages
    modifies db
    ensures db.tenants == old(db.tenants) && db.followUps == old(db.followUps) && db.nextId == old(db.nextId)
    ensures handled <= selected
    ensures result.Completed? ==> handled == selected
    ensures EscapesOnlyAtEnd(old(db.messages), old(db.tenants), http, faults, handled, result.Aborted?)
    ensures result.Aborted? ==>
              |handled| > 0 && result.id == handled[|handled| - 1] && faults(result.id, Failed) == Some(result.error)
    ensures db.messages == Settled(old(db.messages), old(db.tenants), http, faults, handled)
    ensures posts == PostsOf(old(db.messages), old(db.tenants), http, faults, handled)
  {
    var snapshot := db.messages;
    var tenants := db.tenants;
    posts, result := [], Completed;
    for i := 0 to |selected|
      invariant db.tenants == tenants && db.followUps == old(db.followUps) && db.nextId == old(db.nextId)
      invariant EscapesOnlyAtEnd(snapshot, tenants, http, faults, selected[..i], false)
      invariant db.messages == Settled(snapshot, tenants, http, faults, selected[..i])
      invariant posts == PostsOf(snapshot, tenants, http, faults, selected[..i])
    {
      var id := selected[i];
      assert selected[..i + 1] == selected[..i] + [id];
      assert selected[..i + 1][..i] == selected[..i];
      assert id !in selected[..i];
      SettledAt(snapshot, tenants, http, faults, selected[..i], id);
      var post, escaped := HandleMessage(db, id, snapshot[id], tenants, http, faults);
      posts := posts + (if post.Some? then [post.value] else []);
      if escaped.Some? {
        handled, result := selected[..i + 1], Aborted(id, escaped.value);
        EscapesOnlyAtEndNext(snapshot, tenants, http, faults, selected[..i], id, true);
        return;
      }
      EscapesOnlyAtEndNext(snapshot, tenants, http, faults, selected[..i], id, false);
    }
    handled := selected;
    assert selected[..|selected|] == selected;
  }

  /**
   * Of the messages in `handled`, an exception escaped from the last one
   * when `aborted`, and from none of the others.
   */
  predicate EscapesOnlyAtEnd(snapshot: map<nat, ScheduledMessage>, tenants: map<nat, Tenant>,
                             http: Request -> HttpReply, faults: (nat, Status) -> Option<string>,
                             handled: seq<nat>, aborted: bool)
    requires forall i | 0 <= i < |handled| :: handled[i] in snapshot
  {
    forall i | 0 <= i < |handled| ::
      Escapes(handled[i], snapshot[handled[i]], tenants, http, faults) <==> (aborted && i == |handled| - 1)
  }

  lemma EscapesOnlyAtEndNext(snapshot: map<nat, ScheduledMessage>, tenants: map<nat, Tenant>,
                             http: Request -> HttpReply, faults: (nat, Status) -> Option<string>,
                             handled: seq<nat>, id: nat, aborted: bool)
    requires forall i | 0 <= i < |handled| :: handled[i] in snapshot
    requires id in snapshot
    requires EscapesOnlyAtEnd(snapshot, tenants, http, faults, handled, false)
    requires Escapes(id, snapshot[id], tenants, http, faults) <==> aborted
    ensures EscapesOnlyAtEnd(snapshot, tenants, http, faults, handled + [id], aborted)
  {
    var next := handled + [id];
    forall i | 0 <= i < |next|
      ensures Escapes(next[i], snapshot[next[i]], tenants, http, faults) <==> (aborted && i == |next| - 1)
    {
      if i < |handled| {
        assert next[i] == handled[i];
      }
    }
  }

  /**
   * What one cycle meets: the time it reads, the answers `fetch` gives in
   * it, and the store updates that throw in it. Each cycle calls `fetch` and
   * the store anew, so these may differ from cycle to cycle.
   */
  datatype Tick = Tick(now: int, http: Request -> HttpReply, faults: (nat, Status) -> Option<string>)

  /**
   * `startWorker` over a bounded run: one awaited cycle in `start`, then,
   * only if it did not throw, one cycle per interval tick in `ticks`, each
   * throwing cycle caught and logged. Every exception that ends a cycle is
   * the FAILED-update exception of that cycle's store. Rows that were SENT
   * or FAILED before the run are never changed by it; rows keep their
   * content, time, conversation and tenant; the store invariant is kept.
   */
  method StartWorker(db: Database, start: Tick, ticks: seq<Tick>)
    returns (first: CycleResult, intervalStarted: bool, tickResults: seq<CycleResult>)
    modifies db
    ensures intervalStarted == first.Completed?
    ensures first.Aborted? ==> start.faults(first.id, Failed) == Some(first.error)
    ensures |tickResults| == if intervalStarted then |ticks| else 0
    ensures |tickResults| <= |ticks| && AbortsFromFailedUpdates(ticks, tickResults)
    ensures db.tenants == old(db.tenants) && db.followUps == old(db.followUps) && db.nextId == old(db.nextId)
    ensures db.messages.Keys == old(db.messages).Keys
    ensures forall id | id in old(db.messages) ::
              db.messages[id] == old(db.messages)[id].(status := db.messages[id].status, errorLog := db.messages[id].errorLog)
    ensures forall id | id in old(db.messages) && old(db.messages)[id].status != Pending ::
              db.messages[id] == old(db.messages)[id]
    ensures old(db.Valid()) ==> db.Valid()
  {
    ghost var wasValid := db.Valid();
    var _, _, _, result := ProcessScheduledMessages(db, start.now, start.http, start.faults);
    first, intervalStarted, tickResults := result, result.Completed?, [];
    if !intervalStarted {
      return;
    }
    for k := 0 to |ticks|
      invariant |tickResults| == k
      invariant AbortsFromFailedUpdates(ticks, tickResults)
      invariant db.tenants == old(db.tenants) && db.followUps == old(db.followUps) && db.nextId == old(db.nextId)
      invariant RowsKept(old(db.messages), db.messages)
      invariant wasValid ==> db.Valid()
    {
      ghost var before := db.messages;
      var _, _, _, tickResult := ProcessScheduledMessages(db, ticks[k].now, ticks[k].http, ticks[k].faults);
      RowsKeptTrans(old(db.messages), before, db.messages);
      AbortsFromFailedUpdatesNext(ticks, tickResults, tickResult);
      tickResults := tickResults + [tickResult];
    }
  }

  /** Each cycle that ended with an exception ended with the FAILED-update exception of its own tick's store. */
  predicate AbortsFromFailedUpdates(ticks: seq<Tick>, results: seq<CycleResult>)
    requires |results| <= |ticks|
  {
    forall k | 0 <= k < |results| ::
      results[k].Aborted? ==> ticks[k].faults(results[k].id, Failed) == Some(results[k].error)
  }

  lemma AbortsFromFailedUpdatesNext(ticks: seq<Tick>, results: seq<CycleResult>, next: CycleResult)
    requires |results| < |ticks|
    requires AbortsFromFailedUpdates(ticks, results)
    requires next.Aborted? ==> ticks[|results|].faults(next.id, Failed) == Some(next.error)
    ensures AbortsFromFailedUpdates(ticks, results + [next])
  {
    var extended := results + [next];
    forall k | 0 <= k < |extended|
      ensures extended[k].Aborted? ==> ticks[k].faults(extended[k].id, Failed) == Some(extended[k].error)
    {
      if k < |results| {
        assert extended[k] == results[k];
      }
    }
  }

  /**
   * From `before` to `after` only status and diagnostic changed, and no row
   * that was SENT or FAILED in `before` changed at all.
   */
  ghost predicate RowsKept(before: map<nat, ScheduledMessage>, after: map<nat, ScheduledMessage>) {
    && after.Keys == before.Keys
    && (forall id | id in before ::
          after[id] == before[id].(status := after[id].status, errorLog := after[id].errorLog))
    && (forall id | id in before && before[id].status != Pending :: after[id] == before[id])
  }

  lemma RowsKeptTrans(a: map<nat, ScheduledMessage>, b: map<nat, ScheduledMessage>, c: map<nat, ScheduledMessage>)
    requires RowsKept(a, b)
    requires c.Keys == b.Keys
    requires forall id | id in b :: c[id] == b[id].(status := c[id].status, errorLog := c[id].errorLog)
    requires forall id | id in b && b[id].status != Pending :: c[id] == b[id]
    ensures RowsKept(a, c)
  {
  }
}
