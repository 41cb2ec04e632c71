/**
 * The persistent tables the dispatcher and the create endpoints share:
 * tenants (one per Chatwoot instance URL), scheduled messages and follow-ups.
 * Each table maps a row id to the row. The `Database` methods are the store
 * operations the source performs (tenant upsert, row create, row update),
 * each as one atomic step.
 */
module Store {
  import opened Wrappers

  datatype Status = Pending | Sent | Failed

  /** A Chatwoot instance and the credentials used to post to it. */
  datatype Tenant = Tenant(chatwootUrl: string, apiAccessToken: string, accountId: int)

  datatype ScheduledMessage = ScheduledMessage(
    content: string,
    scheduledAt: int,
    conversationId: int,
    status: Status,
    errorLog: Option<string>,
    tenantId: nat)

  datatype FollowUp = FollowUp(
    note: string,
    scheduledAt: int,
    conversationId: int,
    status: string,
    tenantId: nat)

  /** Upper bound on the length of a stored error diagnostic. */
  const MaxErrorLog := 1000

  /** At most one tenant per Chatwoot URL (the URL is the table's unique key). */
  ghost predicate UniqueUrls(tenants: map<nat, Tenant>) {
    forall i, j | i in tenants && j in tenants ::
      tenants[i].chatwootUrl == tenants[j].chatwootUrl ==> i == j
  }

  /** A diagnostic is present only on a FAILED row, and is bounded. */
  ghost predicate WellFormedLog(m: ScheduledMessage) {
    m.errorLog.Some? ==> m.status == Failed && |m.errorLog.value| <= MaxErrorLog
  }

  /**
   * `after` is `before` upserted on `url`: the row `id` now holds the given
   * credentials; `id` is the row that already had this URL, or a new row
   * when none had it. Every other row is untouched.
   */
  ghost predicate UpsertedAt(before: map<nat, Tenant>, after: map<nat, Tenant>, id: nat,
                             url: string, token: string, accountId: int)
  {
    && after == before[id := Tenant(url, token, accountId)]
    && (id in before <==> exists k | k in before :: before[k].chatwootUrl == url)
    && (id in before ==> before[id].chatwootUrl == url)
  }

  class Database {
    var tenants: map<nat, Tenant>
    var messages: map<nat, ScheduledMessage>
    var followUps: map<nat, FollowUp>
    var nextId: nat

    /** Fresh ids, unique URLs, every row references an existing tenant, diagnostics well formed. */
    ghost predicate Valid()
      reads this
    {
      && (forall id | id in tenants :: id < nextId)
      && (forall id | id in messages :: id < nextId)
      && (forall id | id in followUps :: id < nextId)
      && UniqueUrls(tenants)
      && (forall id | id in messages :: messages[id].tenantId in tenants && WellFormedLog(messages[id]))
      && (forall id | id in followUps :: followUps[id].tenantId in tenants)
    }

    constructor ()
      ensures Valid()
      ensures tenants == map[] && messages == map[] && followUps == map[]
    {
      tenants, messages, followUps, nextId := map[], map[], map[], 0;
    }

    /** `tenant.upsert` keyed by `chatwootUrl`: replace token and account id, or create the tenant. */
    method UpsertTenant(url: string, token: string, accountId: int) returns (id: nat)
      requires Valid()
      modifies this
      ensures Valid()
      ensures UpsertedAt(old(tenants), tenants, id, url, token, accountId)
      ensures messages == old(messages) && followUps == old(followUps)
    {
      if exists k | k in tenants :: tenants[k].chatwootUrl == url {
        id :| id in tenants && tenants[id].chatwootUrl == url;
      } else {
        id := nextId;
        nextId := nextId + 1;
      }
      tenants := tenants[id := Tenant(url, token, accountId)];
    }

    /** `scheduledMessage.create`: a new PENDING row without diagnostic. */
    method CreateMessage(content: string, scheduledAt: int, conversationId: int, tenantId: nat)
      returns (id: nat, row: ScheduledMessage)
      requires Valid() && tenantId in tenants
      modifies this
      ensures Valid()
      ensures id !in old(messages) && messages == old(messages)[id := row]
      ensures row == ScheduledMessage(content, scheduledAt, conversationId, Pending, None, tenantId)
      ensures tenants == old(tenants) && followUps == old(followUps)
    {
      id := nextId;
      nextId := nextId + 1;
      row := ScheduledMessage(content, scheduledAt, conversationId, Pending, None, tenantId);
      messages := messages[id := row];
    }

    /** `followUp.create`: a new row with status "PENDING". */
    method CreateFollowUp(note: string, scheduledAt: int, conversationId: int, tenantId: nat)
      returns (id: nat, row: FollowUp)
      requires Valid() && tenantId in tenants
      modifies this
      ensures Valid()
      ensures id !in old(followUps) && followUps == old(followUps)[id := row]
      ensures row == FollowUp(note, scheduledAt, conversationId, "PENDING", tenantId)
      ensures tenants == old(tenants) && messages == old(messages)
    {
      id := nextId;
      nextId := nextId + 1;
      row := FollowUp(note, scheduledAt, conversationId, "PENDING", tenantId);
      followUps := followUps[id := row];
    }

    /** `scheduledMessage.update` of one row's status and diagnostic. */
    method UpdateMessage(id: nat, status: Status, errorLog: Option<string>)
      requires id in messages
      modifies this
      ensures messages == old(messages)[id := old(messages)[id].(status := status, errorLog := errorLog)]
      ensures tenants == old(tenants) && followUps == old(followUps) && nextId == old(nextId)
    {
      messages := messages[id := messages[id].(status := status, errorLog := errorLog)];
    }
  }
}
