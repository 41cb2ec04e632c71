/**
 * `POST /api/followup` and `GET /api/followup?conversationId=`
 * (src/app/api/followup/route.ts): create a follow-up reminder, and list a
 * conversation's reminders by due time.
 */
module FollowUpRoute {
  import opened Wrappers
  import opened Store
  import opened Api

  /**
   * The payload fields the POST handler reads. As for scheduled messages, ""
   * and None stand for every falsy JSON value, and the numbers are what
   * `new Date(...)` and `Number(...)` produce.
   */
  datatype FollowUpBody = FollowUpBody(
    note: string,
    scheduledAt: Option<int>,
    conversationId: Option<int>,
    chatwootUrl: string,
    token: string,
    accountId: int)

  /** `note`, `scheduledAt`, `conversationId`, `chatwootUrl` and `token` are truthy; `accountId` is not required. */
  predicate HasRequiredFields(b: FollowUpBody) {
    && b.note != ""
    && b.scheduledAt.Some?
    && b.conversationId.Some?
    && b.chatwootUrl != ""
    && b.token != ""
  }

  /** The POST handler. `body` is None when `request.json()` throws. */
  method Post(db: Database, body: Option<FollowUpBody>, faults: WriteFaults)
    returns (reply: Reply<FollowUp>)
    requires db.Valid()
    modifies db
    ensures db.Valid()
    ensures db.messages == old(db.messages)
    ensures StatusCode(reply) == 400 <==> body.Some? && !HasRequiredFields(body.value)
    ensures StatusCode(reply) == 201 <==>
              body.Some? && HasRequiredFields(body.value) && !faults.upsertThrows && !faults.createThrows
    ensures StatusCode(reply) == 500 <==>
              body.None? || (HasRequiredFields(body.value) && (faults.upsertThrows || faults.createThrows))
    ensures body.None? || !HasRequiredFields(body.value) || faults.upsertThrows ==>
              db.tenants == old(db.tenants) && db.followUps == old(db.followUps)
    ensures body.Some? && HasRequiredFields(body.value) && !faults.upsertThrows ==>
              exists tenantId :: UpsertedAt(old(db.tenants), db.tenants, tenantId,
                                            body.value.chatwootUrl, body.value.token, body.value.accountId)
    ensures !reply.Created? ==> db.followUps == old(db.followUps)
    ensures reply.Created? ==>
              var b := body.value;
              && reply.id !in old(db.followUps)
              && db.followUps == old(db.followUps)[reply.id := reply.row]
              && reply.row == FollowUp(b.note, b.scheduledAt.value, b.conversationId.value,
                                       "PENDING", reply.row.tenantId)
              && UpsertedAt(old(db.tenants), db.tenants, reply.row.tenantId, b.chatwootUrl, b.token, b.accountId)
  {
    if body.None? {
      return ServerError;
    }
    var b := body.value;
    if !HasRequiredFields(b) {
      return BadRequest;
    }
    if faults.upsertThrows {
      return ServerError;
    }
    var tenantId := db.UpsertTenant(b.chatwootUrl, b.token, b.accountId);
    if faults.createThrows {
      return ServerError;
    }
    var id, row := db.CreateFollowUp(b.note, b.scheduledAt.value, b.conversationId.value, tenantId);
    reply := Created(id, row);
  }

  /** The reply of the GET handler: 200 with the rows, 400, or 500. */
  datatype ListReply = Listed(rows: seq<(nat, FollowUp)>) | MissingConversation | QueryFailed

  /** Rows in ascending order of `scheduledAt` (`orderBy: { scheduledAt: 'asc' }`). */
  predicate SortedByDue(rows: seq<(nat, FollowUp)>) {
    forall i, j | 0 <= i < j < |rows| :: rows[i].1.scheduledAt <= rows[j].1.scheduledAt
  }

  /** No row is listed twice. */
  predicate DistinctIds(rows: seq<(nat, FollowUp)>) {
    forall i, j | 0 <= i < j < |rows| :: rows[i].0 != rows[j].0
  }

  /** `row` is a stored follow-up of conversation `conversationId`, under its id. */
  predicate Matches(followUps: map<nat, FollowUp>, conversationId: int, row: (nat, FollowUp)) {
    row.0 in followUps && followUps[row.0] == row.1 && row.1.conversationId == conversationId
  }

  /** Inserts `x` before the first row of `rows` due no earlier than it. */
  function InsertByDue(rows: seq<(nat, FollowUp)>, x: (nat, FollowUp)): (r: seq<(nat, FollowUp)>)
    ensures multiset(r) == multiset(rows) + multiset{x}
  {
    if rows == [] then [x]
    else if x.1.scheduledAt <= rows[0].1.scheduledAt then [x] + rows
    else
      assert rows == [rows[0]] + rows[1..];
      [rows[0]] + InsertByDue(rows[1..], x)
  }

  /** Every row of `rows` is due no earlier than `t`. */
  predicate DueNoEarlier(rows: seq<(nat, FollowUp)>, t: int) {
    forall i | 0 <= i < |rows| :: t <= rows[i].1.scheduledAt
  }

  /** A lower bound on due times survives inserting a row that respects it. */
  lemma {:induction false} InsertByDueBounded(rows: seq<(nat, FollowUp)>, x: (nat, FollowUp), t: int)
    requires DueNoEarlier(rows, t) && t <= x.1.scheduledAt
    ensures DueNoEarlier(InsertByDue(rows, x), t)
  {
    if rows != [] && x.1.scheduledAt > rows[0].1.scheduledAt {
      InsertByDueBounded(rows[1..], x, t);
    }
  }

  /** Inserting into due-time order keeps due-time order. */
  lemma {:induction false} InsertByDueSorted(rows: seq<(nat, FollowUp)>, x: (nat, FollowUp))
    requires SortedByDue(rows)
    ensures SortedByDue(InsertByDue(rows, x))
  {
    if rows != [] && x.1.scheduledAt > rows[0].1.scheduledAt {
      InsertByDueSorted(rows[1..], x);
      InsertByDueBounded(rows[1..], x, rows[0].1.scheduledAt);
    }
  }

  /** No row of `rows` has the id `id`. */
  predicate AvoidsId(rows: seq<(nat, FollowUp)>, id: nat) {
    forall i | 0 <= i < |rows| :: rows[i].0 != id
  }

  /** An id absent from the rows and from the inserted row stays absent. */
  lemma {:induction false} InsertByDueAvoids(rows: seq<(nat, FollowUp)>, x: (nat, FollowUp), id: nat)
    requires AvoidsId(rows, id) && x.0 != id
    ensures AvoidsId(InsertByDue(rows, x), id)
  {
    if rows != [] && x.1.scheduledAt > rows[0].1.scheduledAt {
      InsertByDueAvoids(rows[1..], x, id);
    }
  }

  /** Inserting a row whose id is new keeps the ids distinct. */
  lemma {:induction false} InsertByDueKeepsIdsDistinct(rows: seq<(nat, FollowUp)>, x: (nat, FollowUp))
    requires DistinctIds(rows) && AvoidsId(rows, x.0)
    ensures DistinctIds(InsertByDue(rows, x))
  {
    if rows != [] && x.1.scheduledAt > rows[0].1.scheduledAt {
      InsertByDueKeepsIdsDistinct(rows[1..], x);
      InsertByDueAvoids(rows[1..], x, rows[0].0);
    }
  }

  /**
   * The GET handler. `conversationId` is None when the query parameter is
   * absent or empty; `queryThrows` says whether `followUp.findMany` throws.
   */
  method Get(db: Database, conversationId: Option<int>, queryThrows: bool) returns (reply: ListReply)
    ensures reply.MissingConversation? <==> conversationId.None?
    ensures reply.QueryFailed? <==> conversationId.Some? && queryThrows
    ensures reply.Listed? ==>
              && (forall row :: row in reply.rows <==> Matches(db.followUps, conversationId.value, row))
              && DistinctIds(reply.rows)
              && SortedByDue(reply.rows)
  {
    if conversationId.None? {
      return MissingConversation;
    }
    if queryThrows {
      return QueryFailed;
    }
    var wanted := conversationId.value;
    var rows: seq<(nat, FollowUp)> := [];
    var rest := db.followUps.Keys;
    while rest != {}
      invariant rest <= db.followUps.Keys
      invariant SortedByDue(rows) && DistinctIds(rows)
      invariant forall row :: row in rows <==> Matches(db.followUps, wanted, row) && row.0 !in rest
      decreases |rest|
    {
      var id :| id in rest;
      if db.followUps[id].conversationId == wanted {
        var x := (id, db.followUps[id]);
        var next := InsertByDue(rows, x);
        InsertByDueSorted(rows, x);
        InsertByDueKeepsIdsDistinct(rows, x);
        assert forall y :: y in next <==> y in rows || y == x by {
          forall y
            ensures y in next <==> y in rows || y == x
          {
            assert y in next <==> y in multiset(next);
            assert y in rows <==> y in multiset(rows);
          }
        }
        rows := next;
      }
      rest := rest - {id};
    }
    reply := Listed(rows);
  }
}
