/**
 * One cache node: a local key-value map, a fixed list of peers, and the rules of its two HTTP
 * endpoints. Sending an update to a peer is recorded as a `PeerNotification` appended to `sent`.
 */
module DistributedCaches {
  import opened Wrappers
  import opened CacheModel

  /** One update addressed to one peer, in the order the node sends them. */
  datatype PeerNotification = PeerNotification(peer: string, update: CacheUpdate)

  /**
   * What the get endpoint does with a request: answer with a status and a body, or abort
   * because the key was null and the map lookup threw (the handler only catches I/O errors;
   * the exchange is closed without a response).
   */
  datatype GetOutcome = Responded(status: int, body: string) | Aborted

  const KEY_PARAM: string := "key="
  const HTTP_OK := 200
  const HTTP_NOT_FOUND := 404
  const HTTP_BAD_METHOD := 405
  const HTTP_SERVER_ERROR := 500

  /** One notification per peer, in the order of the peer list, each with the same update. */
  function Notifications(peers: seq<string>, update: CacheUpdate): (r: seq<PeerNotification>)
    ensures |r| == |peers|
    ensures forall i | 0 <= i < |r| :: r[i] == PeerNotification(peers[i], update)
  {
    if peers == [] then [] else [PeerNotification(peers[0], update)] + Notifications(peers[1..], update)
  }

  /**
   * The key of a get request: what follows `key=` when the query starts with it, and null
   * (None) when the query is absent or starts otherwise.
   */
  function ExtractKey(query: Option<string>): (key: Option<string>)
    ensures key.Some? <==> query.Some? && KEY_PARAM <= query.value
    ensures key.Some? ==> query.value == KEY_PARAM + key.value
  {
    if query.Some? && |query.value| >= 4 && query.value[..4] == KEY_PARAM then
      Some(query.value[4..])
    else
      None
  }

  /** A query built as `key=` followed by any text gives back exactly that text. */
  lemma ExtractKeyOfParam(k: string)
    ensures ExtractKey(Some(KEY_PARAM + k)) == Some(k)
  {
    var key := ExtractKey(Some(KEY_PARAM + k));
    assert key.Some? && KEY_PARAM + k == KEY_PARAM + key.value;
    assert key.value == (KEY_PARAM + key.value)[4..];
  }

  class DistributedCache {
    var localCache: map<string, string>
    const peerNodes: seq<string>
    const port: int
    /** The notifications handed to the network so far, oldest first. */
    var sent: seq<PeerNotification>

    /** Starting the HTTP server is transport and not part of this model. */
    constructor (port: int, peerNodes: seq<string>)
      ensures this.port == port && this.peerNodes == peerNodes
      ensures localCache == map[] && sent == []
    {
      this.port := port;
      this.peerNodes := peerNodes;
      localCache := map[];
      sent := [];
    }

    /** Present with the stored value exactly when the key has an entry; reading changes nothing. */
    function Get(key: string): (r: Option<string>)
      reads this
      ensures r.Some? <==> key in localCache
      ensures r.Some? ==> r.value == localCache[key]
    {
      if key in localCache then Some(localCache[key]) else None
    }

    /** Overwrites the key unconditionally, then notifies every peer. */
    method Put(key: string, value: string)
      modifies this
      ensures localCache == old(localCache)[key := value]
      ensures sent == old(sent) + Notifications(peerNodes, CacheUpdate(key, value, null))
      ensures Get(key) == Some(value)
      ensures forall k | k != key :: Get(k) == old(Get(k))
    {
      localCache := localCache[key := value];
      NotifyOtherNodes(key, value);
    }

    /** Sends the same update to each peer in turn. */
    method NotifyOtherNodes(key: string, value: string)
      modifies this`sent
      ensures sent == old(sent) + Notifications(peerNodes, CacheUpdate(key, value, null))
    {
      var update := CacheUpdate(key, value, null);
      var notifications := Notifications(peerNodes, update);
      for i := 0 to |notifications|
        invariant sent == old(sent) + notifications[..i]
      {
        SendNotification(notifications[i]);
        assert notifications[..i + 1] == notifications[..i] + [notifications[i]];
      }
      assert notifications[..|notifications|] == notifications;
    }

    /** Hands one notification to the network (recorded, not delivered: delivery is I/O). */
    method SendNotification(notification: PeerNotification)
      modifies this`sent
      ensures sent == old(sent) + [notification]
    {
      sent := sent + [notification];
    }

    /**
     * The update endpoint, given the request body as the JSON mapping decoded it (None when it
     * could not be read). A decoded update is applied as a plain `Put`, so it is stored without
     * any clock comparison and fanned out again to every peer; then 200 is answered.
     */
    method HandleUpdateRequest(decoded: Option<CacheUpdate>) returns (status: int)
      modifies this
      ensures decoded.None? ==> status == HTTP_SERVER_ERROR && localCache == old(localCache) && sent == old(sent)
      ensures decoded.Some? ==> status == HTTP_OK
      ensures decoded.Some? ==> localCache == old(localCache)[decoded.value.key := decoded.value.value]
      ensures decoded.Some? ==>
        sent == old(sent) + Notifications(peerNodes, CacheUpdate(decoded.value.key, decoded.value.value, null))
    {
      if decoded.None? {
        return HTTP_SERVER_ERROR;
      }
      var update := decoded.value;
      Put(update.key, update.value);
      return HTTP_OK;
    }

    /**
     * The get endpoint: 405 for any method but GET; abort when no key could be extracted;
     * otherwise 200 with the stored value as body, or 404 with an empty body.
     */
    function HandleGetRequest(requestMethod: string, query: Option<string>): (r: GetOutcome)
      reads this
      ensures r.Responded? ==> r.status in {HTTP_OK, HTTP_NOT_FOUND, HTTP_BAD_METHOD}
      ensures (r.Responded? && r.status == HTTP_BAD_METHOD) <==> requestMethod != "GET"
      ensures r.Aborted? <==> requestMethod == "GET" && (query.None? || !(KEY_PARAM <= query.value))
      ensures (r.Responded? && r.status == HTTP_OK) <==>
        requestMethod == "GET" && query.Some? && KEY_PARAM <= query.value && query.value[4..] in localCache
      ensures r.Responded? && r.status == HTTP_OK ==> r.body == localCache[query.value[4..]]
      ensures r.Responded? && r.status != HTTP_OK ==> r.body == ""
    {
      if requestMethod != "GET" then
        Responded(HTTP_BAD_METHOD, "")
      else
        match ExtractKey(query)
        case None => Aborted
        case Some(key) =>
          match Get(key)
          case Some(value) => Responded(HTTP_OK, value)
          case None => Responded(HTTP_NOT_FOUND, "")
    }
  }

  /** The behaviour the cache's unit tests exercise, on a node with no peers. */
  method LocalScenario() {
    var cache := new DistributedCache(9999, []);
    cache.Put("my-key", "value");
    assert cache.Get("my-key") == Some("value");
    assert cache.Get("missing") == None;
    cache.Put("key", "v1");
    cache.Put("key", "v2");
    assert cache.Get("key") == Some("v2");
    assert cache.sent == [];
    assert cache.HandleGetRequest("GET", Some("key=key")) == Responded(HTTP_OK, "v2");
    assert cache.HandleGetRequest("POST", Some("key=key")) == Responded(HTTP_BAD_METHOD, "");
  }

  /**
   * Two nodes that list each other: an update node A sends to B is applied by B with a `Put`,
   * which sends the same key and value straight back to A, whose `Put` sends it to B again.
   */
  method EchoScenario() {
    var a := new DistributedCache(8080, ["b:8081"]);
    var b := new DistributedCache(8081, ["a:8080"]);
    a.Put("x", "1");
    assert a.sent == [PeerNotification("b:8081", CacheUpdate("x", "1", null))];
    var status := b.HandleUpdateRequest(Some(a.sent[0].update));
    assert status == HTTP_OK && b.Get("x") == Some("1");
    assert b.sent == [PeerNotification("a:8080", CacheUpdate("x", "1", null))];
    status := a.HandleUpdateRequest(Some(b.sent[0].update));
    assert a.sent == [PeerNotification("b:8081", CacheUpdate("x", "1", null))] + [PeerNotification("b:8081", CacheUpdate("x", "1", null))];
  }
}
