/**
 * `POST /api/schedule` (src/app/api/schedule/route.ts): validate the
 * payload, upsert the tenant by its Chatwoot URL, store a PENDING message.
 */
module ScheduleRoute {
  import opened Wrappers
  import opened Store
  import opened Api

  /**
   * The payload fields the endpoint reads, after `request.json()`. The empty
   * string and None stand for every falsy JSON value (absent, null, "", 0);
   * `scheduledAt`, `conversationId` and `accountId` are the values the
   * endpoint's `new Date(...)` and `Number(...)` produce.
   */
  datatype ScheduleBody = ScheduleBody(
    message: string,
    scheduledAt: Option<int>,
    conversationId: Option<int>,
    accountId: int,
    chatwootUrl: string,
    token: string)

  /** The required-field check: `message`, `scheduledAt`, `conversationId`, `chatwootUrl` and `token` are truthy. */
  predicate HasRequiredFields(b: ScheduleBody) {
    && b.message != ""
    && b.scheduledAt.Some?
    && b.conversationId.Some?
    && b.chatwootUrl != ""
    && b.token != ""
  }

  /**
   * The handler. `body` is None when `request.json()` throws. A failed
   * create leaves the tenant upsert that preceded it in place.
   */
  method Post(db: Database, body: Option<ScheduleBody>, faults: WriteFaults)
    returns (reply: Reply<ScheduledMessage>)
    requires db.Valid()
    modifies db
    ensures db.Valid()
    ensures db.followUps == old(db.followUps)
    ensures StatusCode(reply) == 400 <==> body.Some? && !HasRequiredFields(body.value)
    ensures StatusCode(reply) == 201 <==>
              body.Some? && HasRequiredFields(body.value) && !faults.upsertThrows && !faults.createThrows
    ensures StatusCode(reply) == 500 <==>
              body.None? || (HasRequiredFields(body.value) && (faults.upsertThrows || faults.createThrows))
    ensures body.None? || !HasRequiredFields(body.value) || faults.upsertThrows ==>
              db.tenants == old(db.tenants) && db.messages == old(db.messages)
    ensures body.Some? && HasRequiredFields(body.value) && !faults.upsertThrows ==>
              exists tenantId :: UpsertedAt(old(db.tenants), db.tenants, tenantId,
                                            body.value.chatwootUrl, body.value.token, body.value.accountId)
    ensures !reply.Created? ==> db.messages == old(db.messages)
    ensures reply.Created? ==>
              var b := body.value;
              && reply.id !in old(db.messages)
              && db.messages == old(db.messages)[reply.id := reply.row]
              && reply.row == ScheduledMessage(b.message, b.scheduledAt.value, b.conversationId.value,
                                               Pending, None, reply.row.tenantId)
              && UpsertedAt(old(db.tenants), db.tenants, reply.row.tenantId, b.chatwootUrl, b.token, b.accountId)
  {
    if body.None? {
      return ServerError;
    }
    var b := body.value;
    if !HasRequiredFields(b) {
      return BadRequest;
    }
    if faults.upsertThrows {
      return ServerError;
    }
    var tenantId := db.UpsertTenant(b.chatwootUrl, b.token, b.accountId);
    if faults.createThrows {
      return ServerError;
    }
    var id, row := db.CreateMessage(b.message, b.scheduledAt.value, b.conversationId.value, tenantId);
    reply := Created(id, row);
  }
}
