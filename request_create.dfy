/**
 * `Request::Create`: records a new request for a case under a fresh
 * message id and publishes the request to the SMEV gateway's queue.
 */
module RequestCreate {
  import opened Wrappers
  import opened Values
  import opened RequestStore
  import opened Outbox

  const QueueName: string := "smev3.queue"
  const ResponseQueueName: string := "case_core_smev3.response.queue"

  predicate Forwarded(n: Name)
  {
    n == "special_data" || n == "service_id"
  }

  /**
   * `message_data`: the reply queue, the message id, and those of
   * `special_data` and `service_id` the attribute map holds.
   */
  function MessageData(attrs: Snapshot, messageId: string): (m: OutboundMessage)
    ensures m.queue == ResponseQueueName && m.id == messageId
    ensures forall n :: n in m.content <==> n in attrs && Forwarded(n)
    ensures forall n :: n in m.content ==> m.content[n] == attrs[n]
  {
    OutboundMessage(ResponseQueueName, messageId, map n | n in attrs && Forwarded(n) :: attrs[n])
  }

  /** The fields `create` stores: only the message id. */
  function RequestFields(messageId: string): seq<(Name, Value)>
  {
    [("message_id", Some(messageId))]
  }

  /**
   * `create(case_id, case_attributes)` with `messageId` standing for the
   * fresh `SecureRandom.uuid`: the request is stored before the message is
   * published.
   */
  method Create(caseId: CaseId, attrs: Snapshot, messageId: string, requests: Requests, broker: Broker)
    requires requests.Valid()
    modifies requests, broker
    ensures requests.Valid()
    ensures requests.nextId == old(requests.nextId) + 1
    ensures requests.records == old(requests.records) + [RequestRecord(old(requests.nextId), caseId)]
    ensures requests.attributes == old(requests.attributes) + [RequestAttribute(old(requests.nextId), "message_id", Some(messageId))]
    ensures broker.published == old(broker.published) + [Publication(QueueName, MessageData(attrs, messageId))]
  {
    var id := requests.Create(caseId, RequestFields(messageId));
    assert AttributeRecords(id, RequestFields(messageId)) == [RequestAttribute(id, "message_id", Some(messageId))];
    broker.Publish(QueueName, MessageData(attrs, messageId));
  }

  /**
   * A reply to a freshly created request finds it again: with a message id
   * no earlier attribute carries, `find(message_id:)` after `create` returns
   * the new request, and the published message names that same id.
   */
  lemma {:induction false} CreatedRequestIsFound(
    records: seq<RequestRecord>, attrs: seq<RequestAttribute>, id: nat, caseId: CaseId, messageId: string)
    requires forall i :: 0 <= i < |records| ==> records[i].id != id
    requires forall j :: 0 <= j < |attrs| ==> !(attrs[j].name == "message_id" && attrs[j].value == Some(messageId))
    ensures Find(records + [RequestRecord(id, caseId)], attrs + [RequestAttribute(id, "message_id", Some(messageId))],
                 "message_id", messageId) == Some(RequestRecord(id, caseId))
  {
    var attrs' := attrs + [RequestAttribute(id, "message_id", Some(messageId))];
    var j := FirstAttribute(attrs', "message_id", messageId);
    assert attrs'[|attrs|].name == "message_id" && attrs'[|attrs|].value == Some(messageId);
    assert j == Some(|attrs|);
    FindLast(records, RequestRecord(id, caseId));
  }

  lemma {:induction false} FindLast(records: seq<RequestRecord>, r: RequestRecord)
    requires forall i :: 0 <= i < |records| ==> records[i].id != r.id
    ensures FindRecord(records + [r], r.id) == Some(r)
  {
    if records != [] {
      assert (records + [r])[1..] == records[1..] + [r];
      FindLast(records[1..], r);
    } else {
      assert (records + [r]) == [r];
    }
  }
}
