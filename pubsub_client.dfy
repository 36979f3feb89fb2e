/**
 * The Pub/Sub utilities (backend/app/utils/pubsub.py): how the real client encodes a
 * message before publishing it, the in-memory client used when the feature is off, and
 * the choice between the two. The Google publisher and subscriber, JSON serialisation
 * and UTF-8 encoding are oracles.
 */
module PubSubClient {
  import opened Wrappers
  import opened Strings
  import opened JsonValue

  /** What may be published: a dict, sent as JSON, or a string. */
  datatype Message = DictMessage(body: Json) | TextMessage(text: string)

  /** `json.dumps` and `str.encode("utf-8")`. */
  type Dumps = Json -> string
  type Utf8 = string -> seq<bv8>

  /** The bytes the real client hands to the publisher. */
  function EncodeMessage(m: Message, dumps: Dumps, utf8: Utf8): seq<bv8> {
    match m
    case DictMessage(j) => utf8(dumps(j))
    case TextMessage(s) => utf8(s)
  }

  /** `publisher.topic_path` */
  function TopicPath(project: string, topic: string): string {
    "projects/" + project + "/topics/" + topic
  }

  /** One `publisher.publish` call. */
  datatype PublishRequest = PublishRequest(topicPath: string, data: seq<bv8>, attributes: map<string, string>)

  /** `PubSubClient.publish_message` up to the publisher call: the topic path under the
      client's project, the encoded message, and the attributes or none. */
  function PublishRequestFor(project: string, topic: string, m: Message, attributes: Option<map<string, string>>,
                             dumps: Dumps, utf8: Utf8): (r: PublishRequest)
    ensures StartsWith(r.topicPath, "projects/" + project + "/topics/")
    ensures m.DictMessage? ==> r.data == utf8(dumps(m.body))
    ensures m.TextMessage? ==> r.data == utf8(m.text)
    ensures r.attributes == (if attributes.Some? then attributes.value else map[])
  {
    var path := TopicPath(project, topic);
    assert path == ("projects/" + project + "/topics/") + topic;
    PublishRequest(path, EncodeMessage(m, dumps, utf8), if attributes.Some? then attributes.value else map[])
  }

  /** One message kept by the in-memory client. */
  datatype Published = Published(topicId: string, message: Message, attributes: Option<map<string, string>>, id: string)

  const MockIdPrefix := "mock-msg-"

  /** The id of the `n`-th message the in-memory client keeps, counting from 0. */
  function MockId(n: nat): string {
    MockIdPrefix + NatToString(n)
  }

  /** Different positions have different ids. */
  lemma MockIdInjective(i: nat, j: nat)
    requires i != j
    ensures MockId(i) != MockId(j)
  {
    NatToStringValue(i);
    NatToStringValue(j);
    assert MockId(i)[|MockIdPrefix|..] == NatToString(i);
    assert MockId(j)[|MockIdPrefix|..] == NatToString(j);
  }

  /** `MockPubSubClient`: published messages are kept in a list. */
  class MockPubSubClient {
    var projectId: string
    var messages: seq<Published>

    /** Every kept message carries the id of its position. */
    predicate Valid()
      reads this
    {
      forall k :: 0 <= k < |messages| ==> messages[k].id == MockId(k)
    }

    /** The given project id when non-empty, else the configured one; no messages. */
    constructor(projectId: Option<string>, configured: string)
      ensures this.projectId == (if projectId.Some? && projectId.value != "" then projectId.value else configured)
      ensures messages == [] && Valid()
    {
      this.projectId := if projectId.Some? && projectId.value != "" then projectId.value else configured;
      messages := [];
    }

    /** `publish_message`: keeps exactly one more record, whose id counts the records
        kept before. */
    method PublishMessage(topicId: string, message: Message, attributes: Option<map<string, string>>)
      returns (id: string)
      requires Valid()
      modifies this
      ensures id == MockId(|old(messages)|)
      ensures messages == old(messages) + [Published(topicId, message, attributes, id)]
      ensures projectId == old(projectId)
      ensures Valid()
    {
      id := MockId(|messages|);
      messages := messages + [Published(topicId, message, attributes, id)];
    }

    /** `create_subscription`: a path under the client's project; nothing is kept. */
    function CreateSubscription(topicId: string, subscriptionId: string): (path: string)
      reads this
      ensures StartsWith(path, "projects/" + projectId + "/subscriptions/")
      ensures path[|"projects/" + projectId + "/subscriptions/"|..] == subscriptionId
    {
      var path := "projects/" + projectId + "/subscriptions/" + subscriptionId;
      assert path == ("projects/" + projectId + "/subscriptions/") + subscriptionId;
      path
    }
  }

  /** The ids the in-memory client hands out are all different. */
  lemma MockIdsUnique(c: MockPubSubClient, i: nat, j: nat)
    requires c.Valid() && i < j < |c.messages|
    ensures c.messages[i].id != c.messages[j].id
  {
    MockIdInjective(i, j);
  }

  /** Which client the module exposes. */
  datatype ClientKind = Mock | Real

  /** `FEATURE_PUBSUB == False` selects the in-memory client. */
  function SelectClient(featurePubsub: bool): (k: ClientKind)
    ensures k == Mock <==> !featurePubsub
  {
    if featurePubsub == false then Mock else Real
  }
}
