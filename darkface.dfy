/** The DarkFace synthesis manager: synthesis sessions bound to an
    exploration, the clustering of that exploration's nodes by tag or by
    seed node, synthesis nodes, and the memory atom a finalized
    synthesis of high enough quality leaves behind. */
module DarkFace {
  import opened Wrappers
  import opened Ids
  import Seqs
  import Choice
  import Store
  import Sorting
  import LF = LightFace

  type Time = int

  datatype Status = Active | Completed

  /** A cluster grows from a seed: a tag for tag clustering, a node for
      content clustering. */
  datatype Seed = SeedTag(tag: string) | SeedNode(node: LF.Node)

  datatype Cluster = Cluster(id: string, name: string, seed: Seed, nodes: seq<LF.Node>, nodeCount: int)

  datatype SynthesisNode = SynthesisNode(
    id: string,
    title: string,
    content: string,
    clusterId: Option<string>,
    sourceNodeIds: seq<string>,
    createdAt: Time)

  /** An evaluation criterion: a free-form JSON object. */
  type Criterion = map<string, string>

  datatype SynthesisSession = SynthesisSession(
    id: string,
    title: string,
    explorationId: string,
    explorationTopic: string,
    startTime: Time,
    status: Status,
    criteria: seq<Criterion>,
    nodes: seq<SynthesisNode>,
    clusters: seq<Cluster>,
    createdAt: Time,
    updatedAt: Time,
    summary: Option<string>,
    qualityScore: Option<real>,
    completionTime: Option<Time>)

  datatype Link = Link(relation: string, target: string)

  datatype MemoryAtom = MemoryAtom(
    id: string,
    atomType: string,
    tags: seq<string>,
    actors: seq<string>,
    source: string,
    createdAt: Time,
    content: string,
    contentHash: string,
    links: seq<Link>)

  datatype Error =
    | SynthesisNotFound(id: string)
    | ExplorationNotFound(id: string)
    | NoNodes(id: string)
    | UnknownMethod(name: string)
    /** `random.sample` with a negative count raises `ValueError`. */
    | NegativeSample
    /** `random.choice` of an empty list raises `IndexError`. */
    | EmptyChoice

  const TagSimilarity := "tag_similarity"
  const ContentSimilarity := "content_similarity"

  /** The two clustering methods have different names. */
  lemma MethodsDiffer()
    ensures TagSimilarity != ContentSimilarity
  {
    assert |TagSimilarity| != |ContentSimilarity|;
  }

  /** The score above which a finalized synthesis becomes a memory atom. */
  const AtomThreshold: real := 0.7

  // ---------------------------------------------------------------------
  // Clustering by tags

  /** `all_tags`: every tag of every node. */
  function TagsOf(nodes: seq<LF.Node>): (r: set<string>)
    ensures forall t :: t in r <==> exists i :: 0 <= i < |nodes| && t in nodes[i].tags
  {
    if nodes == [] then {}
    else
      var init := nodes[..|nodes| - 1];
      assert forall i :: 0 <= i < |init| ==> init[i] == nodes[i];
      TagsOf(init) + AsSet(nodes[|nodes| - 1].tags)
  }

  function AsSet(xs: seq<string>): set<string> {
    set x | x in xs
  }

  /** The position of the first seed among `tags`, or -1 if none is. */
  function MatchIndex(tags: seq<string>, seeds: seq<string>): (r: int)
    ensures -1 <= r < |seeds|
    ensures r >= 0 ==> seeds[r] in tags && forall j :: 0 <= j < r ==> seeds[j] !in tags
    ensures r < 0 ==> forall j :: 0 <= j < |seeds| ==> seeds[j] !in tags
  {
    if seeds == [] then -1
    else
      var m := MatchIndex(tags, seeds[..|seeds| - 1]);
      if m >= 0 then m
      else if seeds[|seeds| - 1] in tags then |seeds| - 1
      else -1
  }

  /** The cluster a node joins: the first whose seed is one of its tags,
      or the first cluster when none is, since an overlap of 0 already
      beats the initial -1 and later equal overlaps do not replace it. */
  function FirstMatch(tags: seq<string>, seeds: seq<string>): (c: nat)
    ensures |seeds| > 0 ==> c < |seeds|
  {
    var m := MatchIndex(tags, seeds);
    if m >= 0 then m else 0
  }

  /** The nodes the assignment loop puts in cluster `c`, in node order. */
  function Group(nodes: seq<LF.Node>, seeds: seq<string>, c: nat): (g: seq<LF.Node>)
    ensures forall n :: n in g ==> n in nodes && FirstMatch(n.tags, seeds) == c
    ensures forall i :: 0 <= i < |nodes| && FirstMatch(nodes[i].tags, seeds) == c ==> nodes[i] in g
  {
    if nodes == [] then []
    else
      var init, last := nodes[..|nodes| - 1], nodes[|nodes| - 1];
      assert forall i :: 0 <= i < |init| ==> init[i] == nodes[i];
      Group(init, seeds, c) + if FirstMatch(last.tags, seeds) == c then [last] else []
  }

  lemma GroupStep(nodes: seq<LF.Node>, i: nat, seeds: seq<string>)
    requires i < |nodes|
    ensures forall c: nat :: Group(nodes[..i + 1], seeds, c)
              == Group(nodes[..i], seeds, c) + if FirstMatch(nodes[i].tags, seeds) == c then [nodes[i]] else []
  {
    assert nodes[..i + 1][..i] == nodes[..i];
  }

  function Groups(nodes: seq<LF.Node>, seeds: seq<string>): seq<seq<LF.Node>> {
    seq(|seeds|, c requires 0 <= c < |seeds| => Group(nodes, seeds, c))
  }

  /** The first pass puts every node in exactly one cluster. */
  lemma {:induction false} GroupsPartition(nodes: seq<LF.Node>, seeds: seq<string>)
    requires |seeds| > 0
    ensures multiset(Seqs.Flatten(Groups(nodes, seeds))) == multiset(nodes)
  {
    if nodes == [] {
      Seqs.FlattenEmpty(Groups(nodes, seeds));
    } else {
      var init, last := nodes[..|nodes| - 1], nodes[|nodes| - 1];
      var f := FirstMatch(last.tags, seeds);
      GroupsPartition(init, seeds);
      GroupsSnoc(nodes, seeds);
      Seqs.FlattenAppend(Groups(init, seeds), f, last);
      assert nodes == init + [last];
    }
  }

  /** One more node joins the group of its first match. */
  lemma GroupsSnoc(nodes: seq<LF.Node>, seeds: seq<string>)
    requires |seeds| > 0 && nodes != []
    ensures var init, last := nodes[..|nodes| - 1], nodes[|nodes| - 1];
      var f := FirstMatch(last.tags, seeds);
      Groups(nodes, seeds) == Groups(init, seeds)[f := Groups(init, seeds)[f] + [last]]
  {
    var init, last := nodes[..|nodes| - 1], nodes[|nodes| - 1];
    var f := FirstMatch(last.tags, seeds);
    var before := Groups(init, seeds);
    forall c | 0 <= c < |seeds| ensures Groups(nodes, seeds)[c] == before[f := before[f] + [last]][c] {
      assert Group(nodes, seeds, c) == Group(init, seeds, c) + if f == c then [last] else [];
    }
  }

  function SeedTags(cs: seq<Cluster>): seq<string> {
    seq(|cs|, c requires 0 <= c < |cs| => if cs[c].seed.SeedTag? then cs[c].seed.tag else "")
  }

  /** Cluster `c` of a tag clustering once the fill step is done: its
      first-pass group, or a single filler node when that group is empty. */
  ghost predicate TagCluster(cl: Cluster, c: nat, nodes: seq<LF.Node>, seeds: seq<string>) {
    && cl.id == Indexed("cluster", c + 1)
    && cl.seed.SeedTag?
    && cl.name == "Cluster: " + cl.seed.tag
    && cl.nodeCount == |cl.nodes|
    && var g := Group(nodes, seeds, c);
       if g != [] then cl.nodes == g
       else if nodes == [] then cl.nodes == []
       else |cl.nodes| == 1 && cl.nodes[0] in nodes
  }

  ghost predicate TagClustering(nodes: seq<LF.Node>, k: nat, cs: seq<Cluster>) {
    var tags := TagsOf(nodes);
    var seeds := SeedTags(cs);
    && |cs| == k
    && (forall c :: 0 <= c < k ==> TagCluster(cs[c], c, nodes, seeds) && cs[c].seed.tag in tags)
    && (|tags| >= k ==> Seqs.Distinct(seeds))
    && (|tags| < k ==> forall t :: t in tags ==> t in seeds[..|tags|])
  }

  /** `_cluster_by_tags`. */
  method ClusterByTags(nodes: seq<LF.Node>, k: int) returns (r: Result<seq<Cluster>, Error>)
    ensures r.Failure? <==> k < 0 || (k == 0 && nodes != []) || (k > 0 && TagsOf(nodes) == {})
    ensures r.Success? ==> k >= 0 && TagClustering(nodes, k, r.value)
  {
    var allTags := CollectTags(nodes);
    if k < 0 {
      return Failure(NegativeSample);
    }
    var seeds := ChooseSeedTags(allTags, k);
    if seeds.Failure? {
      return Failure(seeds.error);
    }
    var seedTags := seeds.value;
    var firstPass := AssignByTags(nodes, seedTags);
    if firstPass.Failure? {
      return Failure(firstPass.error);
    }
    var clusters := FillEmpty(nodes, seedTags, firstPass.value);
    assert SeedTags(clusters) == seedTags;
    r := Success(clusters);
  }

  /** The loop that gathers `all_tags`. */
  method CollectTags(nodes: seq<LF.Node>) returns (allTags: set<string>)
    ensures allTags == TagsOf(nodes)
  {
    allTags := {};
    for i := 0 to |nodes|
      invariant allTags == TagsOf(nodes[..i])
    {
      assert nodes[..i + 1][..i] == nodes[..i];
      allTags := allTags + AsSet(nodes[i].tags);
    }
    assert nodes[..|nodes|] == nodes;
  }

  /** The seed tags: `k` distinct tags when there are enough, otherwise
      every tag once followed by random repeats, which fail when there is
      no tag to repeat. */
  method ChooseSeedTags(allTags: set<string>, k: nat) returns (r: Result<seq<string>, Error>)
    ensures r.Failure? <==> k > 0 && allTags == {}
    ensures r.Failure? ==> r.error == EmptyChoice
    ensures r.Success? ==> |r.value| == k && forall c :: 0 <= c < k ==> r.value[c] in allTags
    ensures r.Success? && |allTags| >= k ==> Seqs.Distinct(r.value)
    ensures r.Success? && |allTags| < k ==> forall t :: t in allTags ==> t in r.value[..|allTags|]
  {
    var tagList := Choice.Elements(allTags);
    var seedTags: seq<string>;
    if |allTags| >= k {
      seedTags := Choice.SampleOf(tagList, k);
      Choice.SubDistinct(seedTags, tagList);
      forall c | 0 <= c < k ensures seedTags[c] in allTags {
        assert seedTags[c] in multiset(seedTags);
      }
    } else {
      seedTags := tagList;
      while |seedTags| < k
        invariant tagList <= seedTags && |seedTags| <= k
        invariant |seedTags| > |tagList| ==> tagList != []
        invariant forall c :: 0 <= c < |seedTags| ==> seedTags[c] in allTags
      {
        if |tagList| == 0 {
          return Failure(EmptyChoice);
        }
        var j := Choice.Pick(|tagList|);
        seedTags := seedTags + [tagList[j]];
      }
      assert seedTags[..|allTags|] == tagList;
    }
    r := Success(seedTags);
  }

  /** The inner loop of the assignment: the cluster with the best overlap,
      keeping the earliest on ties; -1 when there are no clusters. */
  method BestCluster(tags: seq<string>, seedTags: seq<string>) returns (best: int)
    ensures seedTags == [] ==> best == -1
    ensures seedTags != [] ==> best == FirstMatch(tags, seedTags)
  {
    best := -1;
    var bestOverlap := -1;
    for c := 0 to |seedTags|
      invariant c == 0 ==> best == -1 && bestOverlap == -1
      invariant c > 0 ==> best == FirstMatch(tags, seedTags[..c])
      invariant c > 0 ==> bestOverlap == if MatchIndex(tags, seedTags[..c]) >= 0 then 1 else 0
    {
      assert seedTags[..c + 1][..c] == seedTags[..c];
      var overlap := if seedTags[c] in tags then 1 else 0;
      if overlap > bestOverlap {
        bestOverlap := overlap;
        best := c;
      }
    }
    assert seedTags[..|seedTags|] == seedTags;
  }

  /** Builds one empty cluster per seed tag and puts every node in the
      cluster `BestCluster` picks; with no clusters, the random fallback
      has nothing to choose from. */
  method AssignByTags(nodes: seq<LF.Node>, seedTags: seq<string>) returns (r: Result<seq<Cluster>, Error>)
    ensures r.Failure? <==> seedTags == [] && nodes != []
    ensures r.Failure? ==> r.error == EmptyChoice
    ensures r.Success? ==> |r.value| == |seedTags|
    ensures r.Success? ==>
              forall c :: 0 <= c < |seedTags| ==> r.value[c] == Fresh(c, seedTags[c], Group(nodes, seedTags, c))
  {
    var k := |seedTags|;
    var clusters: seq<Cluster> := [];
    for i := 0 to k
      invariant |clusters| == i
      invariant forall c :: 0 <= c < i ==> clusters[c] == Fresh(c, seedTags[c], [])
    {
      clusters := clusters + [Fresh(i, seedTags[i], [])];
    }
    for i := 0 to |nodes|
      invariant |clusters| == k
      invariant k == 0 ==> i == 0
      invariant forall c :: 0 <= c < k ==> clusters[c] == Fresh(c, seedTags[c], Group(nodes[..i], seedTags, c))
    {
      var node := nodes[i];
      var best := BestCluster(node.tags, seedTags);
      if best < 0 {
        return Failure(EmptyChoice);
      }
      GroupStep(nodes, i, seedTags);
      clusters := clusters[best := clusters[best].(nodes := clusters[best].nodes + [node])];
    }
    assert nodes[..|nodes|] == nodes;
    r := Success(clusters);
  }

  /** The statistics loop: records each cluster's size and gives an empty
      cluster one randomly chosen node. */
  method FillEmpty(nodes: seq<LF.Node>, seedTags: seq<string>, firstPass: seq<Cluster>) returns (clusters: seq<Cluster>)
    requires |firstPass| == |seedTags|
    requires forall c :: 0 <= c < |seedTags| ==> firstPass[c] == Fresh(c, seedTags[c], Group(nodes, seedTags, c))
    ensures |clusters| == |seedTags|
    ensures forall c :: 0 <= c < |seedTags| ==>
              TagCluster(clusters[c], c, nodes, seedTags) && clusters[c].seed == SeedTag(seedTags[c])
  {
    clusters := firstPass;
    for c := 0 to |seedTags|
      invariant |clusters| == |seedTags|
      invariant forall d :: c <= d < |seedTags| ==> clusters[d] == firstPass[d]
      invariant forall d :: 0 <= d < c ==>
                  TagCluster(clusters[d], d, nodes, seedTags) && clusters[d].seed == SeedTag(seedTags[d])
    {
      clusters := clusters[c := clusters[c].(nodeCount := |clusters[c].nodes|)];
      if clusters[c].nodeCount == 0 && |nodes| > 0 {
        var j := Choice.Pick(|nodes|);
        clusters := clusters[c := clusters[c].(nodes := clusters[c].nodes + [nodes[j]], nodeCount := 1)];
      }
    }
  }

  /** A tag cluster as first built, before node counts are set. */
  function Fresh(c: nat, tag: string, nodes: seq<LF.Node>): Cluster {
    Cluster(Indexed("cluster", c + 1), "Cluster: " + tag, SeedTag(tag), nodes, 0)
  }

  // ---------------------------------------------------------------------
  // Clustering by seed node

  /** `[node for node in pool if node not in seeds]`. */
  function Remaining(pool: seq<LF.Node>, seeds: seq<LF.Node>): (r: seq<LF.Node>)
    ensures forall n :: n in r <==> n in pool && n !in seeds
    ensures (forall n :: n in pool ==> n in seeds) ==> r == []
  {
    if pool == [] then []
    else
      var init, last := pool[..|pool| - 1], pool[|pool| - 1];
      assert pool == init + [last];
      Remaining(init, seeds) + if last !in seeds then [last] else []
  }

  /** The nodes of a cluster after its seed. */
  function Rest(s: seq<LF.Node>): seq<LF.Node> {
    if s == [] then [] else s[1..]
  }

  function Tails(cs: seq<Cluster>): seq<seq<LF.Node>> {
    seq(|cs|, c requires 0 <= c < |cs| => Rest(cs[c].nodes))
  }

  const NoNode := LF.Node("", "", "", [], 0, None)

  function SeedNodes(cs: seq<Cluster>): seq<LF.Node> {
    seq(|cs|, c requires 0 <= c < |cs| => if cs[c].seed.SeedNode? then cs[c].seed.node else NoNode)
  }

  ghost predicate ContentClustering(nodes: seq<LF.Node>, k: nat, cs: seq<Cluster>) {
    var seeds := SeedNodes(cs);
    && |cs| == k
    && (forall c :: 0 <= c < k ==>
          && cs[c].id == Indexed("cluster", c + 1)
          && cs[c].seed.SeedNode?
          && cs[c].seed.node in nodes
          && cs[c].name == "Theme: " + cs[c].seed.node.title
          && |cs[c].nodes| >= 1 && cs[c].nodes[0] == cs[c].seed.node
          && cs[c].nodeCount == |cs[c].nodes|)
    && (|nodes| >= k ==>
          && multiset(seeds) <= multiset(nodes)
          && multiset(Seqs.Flatten(Tails(cs))) == multiset(Remaining(nodes, seeds)))
    && (|nodes| < k ==> nodes <= seeds && forall c :: 0 <= c < k ==> |cs[c].nodes| == 1)
  }

  /** `_cluster_by_content`. When there are fewer nodes than clusters the
      seed list is the node list itself, so the padding lands in the node
      list and no node is left over for the assignment loop. */
  method ClusterByContent(nodes: seq<LF.Node>, k: int) returns (r: Result<seq<Cluster>, Error>)
    ensures r.Failure? <==> k < 0 || (k == 0 && nodes != []) || (k > 0 && nodes == [])
    ensures r.Success? ==> k >= 0 && ContentClustering(nodes, k, r.value)
  {
    if k < 0 {
      return Failure(NegativeSample);
    }
    var seeds, pool := ChooseSeedNodes(nodes, k);
    if seeds.Failure? {
      return Failure(seeds.error);
    }
    var seedNodes := seeds.value;
    var remaining := Remaining(pool, seedNodes);
    assert k == 0 && nodes != [] ==> remaining != [] by {
      if k == 0 && nodes != [] {
        assert nodes[0] in remaining;
      }
    }
    r := AssignRandomly(seedNodes, remaining);
  }

  /** The seed nodes: `k` drawn without replacement when there are enough;
      otherwise the node list itself, padded with random repeats. In that
      case the returned pool, from which the remaining nodes are taken, is
      the padded list. */
  method ChooseSeedNodes(nodes: seq<LF.Node>, k: nat) returns (r: Result<seq<LF.Node>, Error>, pool: seq<LF.Node>)
    ensures r.Failure? <==> k > 0 && nodes == []
    ensures r.Failure? ==> r.error == EmptyChoice
    ensures r.Success? ==> |r.value| == k && forall c :: 0 <= c < k ==> r.value[c] in nodes
    ensures r.Success? && |nodes| >= k ==> multiset(r.value) <= multiset(nodes) && pool == nodes
    ensures r.Success? && |nodes| < k ==> nodes <= r.value && pool == r.value
  {
    pool := nodes;
    var seedNodes: seq<LF.Node>;
    if |nodes| >= k {
      seedNodes := Choice.SampleOf(nodes, k);
      forall c | 0 <= c < k ensures seedNodes[c] in nodes {
        assert seedNodes[c] in multiset(seedNodes);
      }
    } else {
      seedNodes := nodes;
      while |seedNodes| < k
        invariant nodes <= seedNodes && |seedNodes| <= k
        invariant |seedNodes| > |nodes| ==> nodes != []
        invariant forall c :: 0 <= c < |seedNodes| ==> seedNodes[c] in nodes
      {
        if |seedNodes| == 0 {
          return Failure(EmptyChoice), pool;
        }
        var j := Choice.Pick(|seedNodes|);
        seedNodes := seedNodes + [seedNodes[j]];
      }
      pool := seedNodes;
    }
    r := Success(seedNodes);
  }

  /** Builds one cluster per seed node, holding just that node, adds each
      remaining node to a randomly chosen cluster and records the sizes;
      with no clusters there is nothing to choose from. */
  method AssignRandomly(seedNodes: seq<LF.Node>, remaining: seq<LF.Node>) returns (r: Result<seq<Cluster>, Error>)
    ensures r.Failure? <==> seedNodes == [] && remaining != []
    ensures r.Failure? ==> r.error == EmptyChoice
    ensures r.Success? ==>
              && |r.value| == |seedNodes|
              && SeedNodes(r.value) == seedNodes
              && multiset(Seqs.Flatten(Tails(r.value))) == multiset(remaining)
              && (remaining == [] ==> forall c :: 0 <= c < |seedNodes| ==> r.value[c].nodes == [seedNodes[c]])
              && forall c :: 0 <= c < |seedNodes| ==>
                   && r.value[c].id == Indexed("cluster", c + 1)
                   && r.value[c].seed == SeedNode(seedNodes[c])
                   && r.value[c].name == "Theme: " + seedNodes[c].title
                   && |r.value[c].nodes| >= 1 && r.value[c].nodes[0] == seedNodes[c]
                   && r.value[c].nodeCount == |r.value[c].nodes|
  {
    if seedNodes == [] && remaining != [] {
      return Failure(EmptyChoice);
    }
    var clusters, added := Distribute(seedNodes, remaining);
    clusters := RecordSizes(clusters);
    assert SeedNodes(clusters) == seedNodes;
    assert Tails(clusters) == added;
    r := Success(clusters);
  }

  /** The assignment loop: each remaining node goes to a cluster drawn at
      random. `added` records, per cluster, the nodes it received after
      its seed; the clusters are the seeds followed by those nodes. */
  method Distribute(seedNodes: seq<LF.Node>, remaining: seq<LF.Node>) returns (clusters: seq<Cluster>, added: seq<seq<LF.Node>>)
    requires seedNodes != [] || remaining == []
    ensures |clusters| == |seedNodes| && |added| == |seedNodes|
    ensures forall c :: 0 <= c < |seedNodes| ==> clusters[c] == Seeded(c, seedNodes[c], added[c])
    ensures multiset(Seqs.Flatten(added)) == multiset(remaining)
    ensures remaining == [] ==> forall c :: 0 <= c < |seedNodes| ==> added[c] == []
  {
    added := Scatter(|seedNodes|, remaining);
    clusters := SeedClusters(seedNodes, added);
  }

  /** Each remaining node, in order, appended to one of `k` lists drawn
      at random. */
  method Scatter<T>(k: nat, remaining: seq<T>) returns (added: seq<seq<T>>)
    requires k > 0 || remaining == []
    ensures |added| == k
    ensures multiset(Seqs.Flatten(added)) == multiset(remaining)
    ensures remaining == [] ==> forall c :: 0 <= c < k ==> added[c] == []
  {
    added := Empties(k);
    for i := 0 to |remaining|
      invariant |added| == k
      invariant forall c :: 0 <= c < k ==> |added[c]| <= i
      invariant multiset(Seqs.Flatten(added)) == multiset(remaining[..i])
    {
      var c := Choice.Pick(k);
      ScatterStep(added, c, remaining, i);
      added := added[c := added[c] + [remaining[i]]];
    }
    assert remaining[..|remaining|] == remaining;
  }

  /** `k` empty lists. */
  function Empties<T>(k: nat): (r: seq<seq<T>>)
    ensures |r| == k
    ensures forall c :: 0 <= c < k ==> r[c] == []
    ensures Seqs.Flatten(r) == []
  {
    if k == 0 then [] else
      var r := Empties(k - 1) + [[]];
      assert r[..k - 1] == Empties(k - 1);
      r
  }

  /** One round of `Scatter`: the next node joins list `c`. */
  lemma ScatterStep<T>(added: seq<seq<T>>, c: nat, remaining: seq<T>, i: nat)
    requires c < |added| && i < |remaining|
    requires forall d :: 0 <= d < |added| ==> |added[d]| <= i
    requires multiset(Seqs.Flatten(added)) == multiset(remaining[..i])
    ensures var grown := added[c := added[c] + [remaining[i]]];
      && (forall d :: 0 <= d < |added| ==> |grown[d]| <= i + 1)
      && multiset(Seqs.Flatten(grown)) == multiset(remaining[..i + 1])
  {
    Seqs.FlattenAppend(added, c, remaining[i]);
    assert remaining[..i + 1] == remaining[..i] + [remaining[i]];
  }

  /** One cluster per seed node: the seed, then the nodes it received. */
  method SeedClusters(seedNodes: seq<LF.Node>, added: seq<seq<LF.Node>>) returns (clusters: seq<Cluster>)
    requires |added| == |seedNodes|
    ensures |clusters| == |seedNodes|
    ensures forall c :: 0 <= c < |seedNodes| ==> clusters[c] == Seeded(c, seedNodes[c], added[c])
  {
    clusters := [];
    for i := 0 to |seedNodes|
      invariant |clusters| == i
      invariant forall c :: 0 <= c < i ==> clusters[c] == Seeded(c, seedNodes[c], added[c])
    {
      clusters := clusters + [Seeded(i, seedNodes[i], added[i])];
    }
  }

  /** Sets each cluster's `node_count` to the length of its node list. */
  method RecordSizes(cs: seq<Cluster>) returns (r: seq<Cluster>)
    ensures |r| == |cs|
    ensures forall c :: 0 <= c < |cs| ==> r[c] == cs[c].(nodeCount := |cs[c].nodes|)
  {
    r := cs;
    for c := 0 to |cs|
      invariant |r| == |cs|
      invariant forall d :: c <= d < |cs| ==> r[d] == cs[d]
      invariant forall d :: 0 <= d < c ==> r[d] == cs[d].(nodeCount := |cs[d].nodes|)
    {
      r := r[c := r[c].(nodeCount := |r[c].nodes|)];
    }
  }

  /** A content cluster as first built: its seed node, then `added`. */
  function Seeded(c: nat, seed: LF.Node, added: seq<LF.Node>): Cluster {
    Cluster(Indexed("cluster", c + 1), "Theme: " + seed.title, SeedNode(seed), [seed] + added, 0)
  }

  // ---------------------------------------------------------------------
  // Sessions

  /** `max(0.0, min(1.0, q))`. */
  function Clamp(q: real): (r: real)
    ensures 0.0 <= r <= 1.0
    ensures 0.0 <= q <= 1.0 ==> r == q
    ensures q < 0.0 ==> r == 0.0
    ensures q > 1.0 ==> r == 1.0
  {
    if q < 0.0 then 0.0 else if q > 1.0 then 1.0 else q
  }

  /** Clamping keeps a score on the same side of the atom threshold, so
      the stored score tells whether an atom was emitted. */
  lemma ClampKeepsThreshold(q: real)
    ensures Clamp(q) >= AtomThreshold <==> q >= AtomThreshold
  {
  }

  /** Where `_create_memory_atom` writes the atom of a session. */
  function AtomKey(sessionId: string): string {
    "synthesis_" + sessionId
  }

  /** The content hash `_create_memory_atom` writes: a fixed placeholder. */
  const PlaceholderHash: string := "sha256:" + Zeros(64)

  function Zeros(n: nat): (z: string)
    ensures |z| == n
    ensures forall i :: 0 <= i < n ==> z[i] == '0'
  {
    if n == 0 then "" else Zeros(n - 1) + "0"
  }

  /** The atom record of a finalized session; `date` is the day of `now`.
      The "Synthesis results" fallback for a missing summary is kept as
      the source writes it, but `FinalizeSynthesis` always sets the
      summary first, so there the content is the given summary. */
  function AtomFor(session: SynthesisSession, date: string, now: Time): (a: MemoryAtom)
    ensures a.atomType == "semantic" && a.source == "synthesis_session"
    ensures a.links == [Link("derives-from", "exploration/" + session.explorationId)]
    ensures a.content == session.summary.GetOr("Synthesis results")
  {
    MemoryAtom("semantic/" + date + "_" + session.id, "semantic",
               ["synthesis", "toroidal-grammar", "darkface"], ["DarkFace Synthesizer"],
               "synthesis_session", now, session.summary.GetOr("Synthesis results"),
               PlaceholderHash, [Link("derives-from", "exploration/" + session.explorationId)])
  }

  /** The shape every stored synthesis keeps: it sits under its own id,
      its node ids carry their position, and it has a score in [0, 1]
      exactly when it is completed. */
  ghost predicate WellFormed(id: string, s: SynthesisSession) {
    && s.id == id
    && (forall i :: 0 <= i < |s.nodes| ==> IndexedBy(s.nodes[i].id, i))
    && (s.status == Completed <==> s.qualityScore.Some?)
    && (s.qualityScore.Some? ==> 0.0 <= s.qualityScore.value <= 1.0)
  }

  lemma NodeIdsDistinct(id: string, s: SynthesisSession)
    requires WellFormed(id, s)
    ensures Seqs.Distinct(seq(|s.nodes|, i requires 0 <= i < |s.nodes| => s.nodes[i].id))
  {
    forall i, j | 0 <= i < j < |s.nodes| ensures s.nodes[i].id != s.nodes[j].id {
      IndexedByDistinct(s.nodes[i].id, s.nodes[j].id, i, j);
    }
  }

  predicate StartedFirst(a: SynthesisSession, b: SynthesisSession) {
    a.startTime >= b.startTime
  }

  function Listed(status: Option<Status>): (string, SynthesisSession) -> bool {
    (key: string, s: SynthesisSession) => "synth_" <= key && (status.None? || s.status == status.value)
  }

  /** A listing is sorted newest first and holds exactly the synthesis
      files with the requested status. */
  lemma ListingIsSortedSelection(keys: seq<string>, store: map<string, SynthesisSession>, status: Option<Status>)
    requires forall k :: k in keys <==> k in store
    ensures var listed := Sorting.SortBy(Store.Collected(keys, store, Listed(status)), StartedFirst);
      && Sorting.SortedBy(listed, StartedFirst)
      && (forall s :: s in listed ==> (status.None? || s.status == status.value)
                                      && exists k :: k in store && "synth_" <= k && s == store[k])
      && (forall k :: k in store && "synth_" <= k && (status.None? || store[k].status == status.value) ==>
                        store[k] in listed)
  {
    Store.Listing(keys, store, Listed(status), StartedFirst);
  }

  class DarkFaceSynthesis {
    /** The synthesis documents, keyed by session id. */
    var sessions: map<string, SynthesisSession>
    /** The memory atoms written so far, keyed by file stem. */
    var atoms: map<string, MemoryAtom>

    ghost predicate Valid()
      reads this
    {
      forall id :: id in sessions ==> WellFormed(id, sessions[id])
    }

    constructor (store: map<string, SynthesisSession>, atomStore: map<string, MemoryAtom>)
      ensures sessions == store && atoms == atomStore
    {
      sessions := store;
      atoms := atomStore;
    }

    /** Opens an active synthesis of an existing exploration. */
    method StartSynthesis(explorationId: string, title: string, criteria: Option<seq<Criterion>>,
                          explorations: map<string, LF.Session>, stamp: string, now: Time)
      returns (r: Result<SynthesisSession, Error>)
      modifies this
      ensures explorationId !in explorations ==>
                r == Failure(ExplorationNotFound(explorationId)) && sessions == old(sessions)
      ensures explorationId in explorations ==>
                && r.Success?
                && r.value == SynthesisSession("synth_" + stamp, title, explorationId,
                                               explorations[explorationId].topic, now, Active,
                                               criteria.GetOr([]), [], [], now, now, None, None, None)
                && sessions == old(sessions)[r.value.id := r.value]
      ensures atoms == old(atoms)
      ensures old(Valid()) ==> Valid()
    {
      if explorationId !in explorations {
        return Failure(ExplorationNotFound(explorationId));
      }
      var exploration := explorations[explorationId];
      var session := SynthesisSession("synth_" + stamp, title, explorationId, exploration.topic, now, Active,
                                      criteria.GetOr([]), [], [], now, now, None, None, None);
      sessions := sessions[session.id := session];
      r := Success(session);
    }

    /** Replaces the clusters of a session with a clustering of its
        exploration's nodes. */
    method ClusterNodes(sessionId: string, how: string, k: int,
                        explorations: map<string, LF.Session>, now: Time)
      returns (r: Result<SynthesisSession, Error>)
      modifies this
      ensures sessionId !in old(sessions) ==> r == Failure(SynthesisNotFound(sessionId))
      ensures sessionId in old(sessions) && old(sessions[sessionId]).explorationId !in explorations ==>
                r == Failure(ExplorationNotFound(old(sessions[sessionId]).explorationId))
      ensures sessionId in old(sessions) && old(sessions[sessionId]).explorationId in explorations
              && explorations[old(sessions[sessionId]).explorationId].nodes == [] ==>
                r == Failure(NoNodes(old(sessions[sessionId]).explorationId))
      ensures sessionId in old(sessions) && old(sessions[sessionId]).explorationId in explorations
              && explorations[old(sessions[sessionId]).explorationId].nodes != [] ==>
                var nodes := explorations[old(sessions[sessionId]).explorationId].nodes;
                && (how != TagSimilarity && how != ContentSimilarity ==> r == Failure(UnknownMethod(how)))
                && (how == TagSimilarity ==> (r.Failure? <==> k <= 0 || TagsOf(nodes) == {}))
                && (how == ContentSimilarity ==> (r.Failure? <==> k <= 0))
                && (r.Success? ==>
                      && r.value == old(sessions[sessionId]).(clusters := r.value.clusters, updatedAt := now)
                      && (how == TagSimilarity ==> TagClustering(nodes, k, r.value.clusters))
                      && (how == ContentSimilarity ==> ContentClustering(nodes, k, r.value.clusters)))
      ensures r.Failure? ==> sessions == old(sessions)
      ensures r.Success? ==> sessions == old(sessions)[sessionId := r.value]
      ensures atoms == old(atoms)
      ensures old(Valid()) ==> Valid()
    {
      if sessionId !in sessions {
        return Failure(SynthesisNotFound(sessionId));
      }
      var session := sessions[sessionId];
      if session.explorationId !in explorations {
        return Failure(ExplorationNotFound(session.explorationId));
      }
      var exploration := explorations[session.explorationId];
      var nodes := exploration.nodes;
      if nodes == [] {
        return Failure(NoNodes(session.explorationId));
      }
      var clustered: Result<seq<Cluster>, Error>;
      if how == TagSimilarity {
        clustered := ClusterByTags(nodes, k);
      } else if how == ContentSimilarity {
        clustered := ClusterByContent(nodes, k);
      } else {
        return Failure(UnknownMethod(how));
      }
      if clustered.Failure? {
        return Failure(clustered.error);
      }
      session := session.(clusters := clustered.value, updatedAt := now);
      sessions := sessions[sessionId := session];
      r := Success(session);
    }

    /** Appends one synthesis node; the cluster id is not checked. */
    method AddSynthesisNode(sessionId: string, title: string, content: string, clusterId: Option<string>,
                            sourceNodeIds: Option<seq<string>>, stamp: string, now: Time)
      returns (r: Result<SynthesisNode, Error>)
      modifies this
      ensures sessionId !in old(sessions) ==>
                r == Failure(SynthesisNotFound(sessionId)) && sessions == old(sessions)
      ensures sessionId in old(sessions) ==>
                var s := old(sessions[sessionId]);
                && r == Success(SynthesisNode(Indexed("synth_node_" + stamp, |s.nodes|), title, content,
                                              clusterId, sourceNodeIds.GetOr([]), now))
                && sessions == old(sessions)[sessionId := s.(nodes := s.nodes + [r.value], updatedAt := now)]
      ensures atoms == old(atoms)
      ensures old(Valid()) ==> Valid()
    {
      if sessionId !in sessions {
        return Failure(SynthesisNotFound(sessionId));
      }
      var session := sessions[sessionId];
      var node := SynthesisNode(Indexed("synth_node_" + stamp, |session.nodes|), title, content,
                                clusterId, sourceNodeIds.GetOr([]), now);
      session := session.(nodes := session.nodes + [node], updatedAt := now);
      sessions := sessions[sessionId := session];
      r := Success(node);
      if old(Valid()) {
        var s := old(sessions[sessionId]);
        assert WellFormed(sessionId, s);
        forall i | 0 <= i < |session.nodes| ensures IndexedBy(session.nodes[i].id, i) {
          if i < |s.nodes| {
            assert session.nodes[i] == s.nodes[i];
          } else {
            assert session.nodes[i].id == Indexed("synth_node_" + stamp, i);
          }
        }
      }
    }

    /** Completes a session with a clamped score, and writes its memory
        atom when the score as given reaches the threshold. Finalizing a
        completed session again is allowed and rewrites both. */
    method FinalizeSynthesis(sessionId: string, summary: string, q: real, date: string, now: Time)
      returns (r: Result<SynthesisSession, Error>)
      modifies this
      ensures sessionId !in old(sessions) ==>
                r == Failure(SynthesisNotFound(sessionId)) && sessions == old(sessions) && atoms == old(atoms)
      ensures sessionId in old(sessions) ==>
                && r == Success(old(sessions[sessionId]).(status := Completed, summary := Some(summary),
                                                         qualityScore := Some(Clamp(q)),
                                                         completionTime := Some(now), updatedAt := now))
                && sessions == old(sessions)[sessionId := r.value]
                && atoms == if q >= AtomThreshold then old(atoms)[AtomKey(sessionId) := AtomFor(r.value, date, now)]
                            else old(atoms)
      ensures sessionId in old(sessions) && q >= AtomThreshold ==> atoms[AtomKey(sessionId)].content == summary
      ensures old(Valid()) ==> Valid()
    {
      if sessionId !in sessions {
        return Failure(SynthesisNotFound(sessionId));
      }
      var session := sessions[sessionId];
      session := session.(status := Completed, summary := Some(summary), qualityScore := Some(Clamp(q)),
                          completionTime := Some(now), updatedAt := now);
      sessions := sessions[sessionId := session];
      if q >= AtomThreshold {
        atoms := atoms[AtomKey(sessionId) := AtomFor(session, date, now)];
      }
      r := Success(session);
    }

    /** The synthesis sessions with the requested status, newest first;
        the store is read in the order the directory listing gives. */
    method ListSyntheses(status: Option<Status>) returns (result: seq<SynthesisSession>, ghost visited: seq<string>)
      ensures forall k :: k in visited <==> k in sessions
      ensures result == Sorting.SortBy(Store.Collected(visited, sessions, Listed(status)), StartedFirst)
    {
      var files := Store.ListDir(sessions);
      var found: seq<SynthesisSession> := [];
      for i := 0 to |files|
        invariant found == Store.Collected(files[..i], sessions, Listed(status))
      {
        var file := files[i];
        Store.CollectedSnoc(files[..i], file, sessions, Listed(status));
        assert files[..i + 1] == files[..i] + [file];
        if "synth_" <= file {
          var session := sessions[file];
          if status.None? || session.status == status.value {
            found := found + [session];
          }
        }
      }
      assert files[..|files|] == files;
      visited := files;
      result := Sorting.SortBy(found, StartedFirst);
    }
  }
}
