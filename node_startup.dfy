/**
 * Node start-up: the `PEER_NODES` setting is split on commas, empty fields are dropped,
 * and the cache is built over the resulting peer list.
 */
module NodeStartup {
  import opened DistributedCaches

  const SEPARATOR := ','

  /** The comma-separated fields of `s`, empty ones included: one more field than commas. */
  function Fields(s: string): (r: seq<string>)
    ensures |r| >= 1
    ensures forall i | 0 <= i < |r| :: SEPARATOR !in r[i]
    decreases |s|
  {
    if |s| == 0 then [""]
    else
      var rest := Fields(s[1..]);
      if s[0] == SEPARATOR then [""] + rest
      else [[s[0]] + rest[0]] + rest[1..]
  }

  /** Fields glued back together with commas between them. */
  function Join(fields: seq<string>): string
    requires |fields| >= 1
  {
    if |fields| == 1 then fields[0] else fields[0] + [SEPARATOR] + Join(fields[1..])
  }

  /** `fields` with its trailing empty strings removed. */
  function DropTrailingEmpty(fields: seq<string>): (r: seq<string>)
    ensures r <= fields
    ensures r == [] || r[|r| - 1] != ""
    ensures forall i | |r| <= i < |fields| :: fields[i] == ""
  {
    if fields == [] then []
    else if fields[|fields| - 1] == "" then DropTrailingEmpty(fields[..|fields| - 1])
    else fields
  }

  /**
   * Java's `split(",")`: an input without a comma is its own single field; otherwise the
   * fields, less the empty ones at the end.
   */
  function Split(s: string): seq<string> {
    if SEPARATOR !in s then [s] else DropTrailingEmpty(Fields(s))
  }

  /** The fields that are not empty, in order. */
  function NonEmpty(fields: seq<string>): (r: seq<string>)
    ensures |r| <= |fields|
    ensures forall i | 0 <= i < |r| :: r[i] != "" && r[i] in fields
    ensures forall f | f in fields && f != "" :: f in r
  {
    if fields == [] then []
    else (if fields[0] == "" then [] else [fields[0]]) + NonEmpty(fields[1..])
  }

  /** The peer list built from the `PEER_NODES` setting. */
  function PeerNodes(peersEnv: string): seq<string> {
    NonEmpty(Split(peersEnv))
  }

  /** Builds the node as start-up does; reading the environment and the port number is left out. */
  method Launch(port: int, peersEnv: string) returns (cache: DistributedCache)
    ensures fresh(cache) && cache.port == port && cache.peerNodes == PeerNodes(peersEnv)
    ensures cache.localCache == map[] && cache.sent == []
  {
    var peers := PeerNodes(peersEnv);
    cache := new DistributedCache(port, peers);
  }

  /** Splitting and joining are inverse: the fields of a string glue back to it. */
  lemma {:induction false} JoinFields(s: string)
    ensures Join(Fields(s)) == s
    decreases |s|
  {
    if |s| > 0 {
      var rest := Fields(s[1..]);
      JoinFields(s[1..]);
      if s[0] == SEPARATOR {
        assert Fields(s) == [""] + rest;
        assert s == [s[0]] + s[1..];
      } else if |rest| == 1 {
        assert s == [s[0]] + s[1..];
      } else {
        assert Fields(s)[1..] == rest[1..];
        assert s == [s[0]] + s[1..];
      }
    }
  }

  /** A comma-free prefix joins the first field of what follows it. */
  lemma {:induction false} FieldsOfCommaFreePrefix(a: string, t: string)
    requires SEPARATOR !in a
    ensures Fields(a + t) == [a + Fields(t)[0]] + Fields(t)[1..]
    decreases |a|
  {
    if |a| > 0 {
      assert (a + t)[0] == a[0] && (a + t)[1..] == a[1..] + t;
      FieldsOfCommaFreePrefix(a[1..], t);
      var rest := Fields(a[1..] + t);
      assert rest[0] == a[1..] + Fields(t)[0] && rest[1..] == Fields(t)[1..];
      assert [a[0]] + (a[1..] + Fields(t)[0]) == a + Fields(t)[0];
    } else {
      assert a + t == t && a + Fields(t)[0] == Fields(t)[0];
    }
  }

  /** The other direction: comma-free fields, once joined, split back into themselves. */
  lemma {:induction false} FieldsJoin(fields: seq<string>)
    requires |fields| >= 1
    requires forall i | 0 <= i < |fields| :: SEPARATOR !in fields[i]
    ensures Fields(Join(fields)) == fields
    decreases |fields|
  {
    if |fields| == 1 {
      FieldsOfCommaFreePrefix(fields[0], "");
      assert fields[0] + "" == fields[0];
    } else {
      var tail := [SEPARATOR] + Join(fields[1..]);
      FieldsJoin(fields[1..]);
      assert tail[0] == SEPARATOR && tail[1..] == Join(fields[1..]);
      assert Fields(tail) == [""] + Fields(Join(fields[1..]));
      assert fields[0] + "" == fields[0];
      FieldsOfCommaFreePrefix(fields[0], tail);
      assert fields[0] + [SEPARATOR] + Join(fields[1..]) == fields[0] + tail;
      assert fields == [fields[0]] + fields[1..];
    }
  }

  /** Filtering distributes over concatenation. */
  lemma {:induction false} NonEmptyAppend(xs: seq<string>, ys: seq<string>)
    ensures NonEmpty(xs + ys) == NonEmpty(xs) + NonEmpty(ys)
    decreases |xs|
  {
    if xs != [] {
      assert (xs + ys)[0] == xs[0] && (xs + ys)[1..] == xs[1..] + ys;
      NonEmptyAppend(xs[1..], ys);
      var head := if xs[0] == "" then [] else [xs[0]];
      assert NonEmpty(xs + ys) == head + (NonEmpty(xs[1..]) + NonEmpty(ys));
    } else {
      assert xs + ys == ys;
    }
  }

  /** Only empty fields are removed by Java's trailing-empty rule, so the filter does not notice it. */
  lemma NonEmptyIgnoresTrailingEmpty(fields: seq<string>)
    ensures NonEmpty(DropTrailingEmpty(fields)) == NonEmpty(fields)
  {
    var kept := DropTrailingEmpty(fields);
    var dropped := fields[|kept|..];
    assert fields == kept + dropped;
    NonEmptyAppend(kept, dropped);
    AllEmptyFiltersToNothing(dropped);
  }

  lemma {:induction false} AllEmptyFiltersToNothing(fields: seq<string>)
    requires forall i | 0 <= i < |fields| :: fields[i] == ""
    ensures NonEmpty(fields) == []
    decreases |fields|
  {
    if fields != [] {
      AllEmptyFiltersToNothing(fields[1..]);
    }
  }

  /** The peer list is exactly the non-empty comma-separated fields of the setting, in order. */
  lemma PeerNodesAreNonEmptyFields(peersEnv: string)
    ensures PeerNodes(peersEnv) == NonEmpty(Fields(peersEnv))
  {
    if SEPARATOR !in peersEnv {
      FieldsOfCommaFreePrefix(peersEnv, "");
      assert peersEnv + "" == peersEnv;
    } else {
      NonEmptyIgnoresTrailingEmpty(Fields(peersEnv));
    }
  }

  /** No peer is empty and no peer contains a comma. */
  lemma PeerNodesWellFormed(peersEnv: string)
    ensures forall p | p in PeerNodes(peersEnv) :: p != "" && SEPARATOR !in p
  {
    PeerNodesAreNonEmptyFields(peersEnv);
  }

  /** Peers listed with commas between them come back, less the empty entries, in order. */
  lemma PeerNodesOfJoin(peers: seq<string>)
    requires |peers| >= 1
    requires forall i | 0 <= i < |peers| :: SEPARATOR !in peers[i]
    ensures PeerNodes(Join(peers)) == NonEmpty(peers)
  {
    PeerNodesAreNonEmptyFields(Join(peers));
    FieldsJoin(peers);
  }

  /** The default, an empty setting, gives no peers. */
  lemma EmptySettingHasNoPeers()
    ensures PeerNodes("") == []
  {
  }

  /** A non-empty setting without a comma names a single peer, the setting itself. */
  lemma SinglePeer(peersEnv: string)
    requires peersEnv != "" && SEPARATOR !in peersEnv
    ensures PeerNodes(peersEnv) == [peersEnv]
  {
  }
}
