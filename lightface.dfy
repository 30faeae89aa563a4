/** The LightFace exploration manager: exploration sessions, each a
    growing list of nodes with a mirrored list of parent-to-child
    branches, kept in a store of session documents keyed by session id. */
module LightFace {
  import opened Wrappers
  import opened Ids
  import Sorting
  import Store
  import Seqs

  /** Seconds since some epoch; `datetime.now()` is a parameter `now`. */
  type Time = int

  const SecondsPerDay: int := 86400

  datatype Status = Active | Completed

  datatype Node = Node(
    id: string,
    title: string,
    content: string,
    tags: seq<string>,
    createdAt: Time,
    parentId: Option<string>)

  datatype Branch = Branch(from: string, to: string, createdAt: Time)

  datatype Session = Session(
    id: string,
    topic: string,
    startTime: Time,
    endTime: Time,
    durationDays: int,
    constraints: seq<string>,
    status: Status,
    branches: seq<Branch>,
    nodes: seq<Node>,
    createdAt: Time,
    updatedAt: Time)

  datatype Error = SessionNotFound(id: string) | SessionNotActive(id: string)

  /** `if parent_id:` — neither `None` nor the empty string. */
  predicate Truthy(parentId: Option<string>) {
    parentId.Some? && parentId.value != ""
  }

  /** The status a session has once the expiry check of a load has run. */
  function EffectiveStatus(s: Session, now: Time): (st: Status)
    ensures st == Active <==> s.status == Active && now <= s.endTime
  {
    if now > s.endTime && s.status == Active then Completed else s.status
  }

  /** The session that `list_explorations` saves back: an active session
      past its end time is flipped to completed and stamped. */
  function Expire(s: Session, now: Time): (r: Session)
    ensures r.status == EffectiveStatus(s, now)
    ensures r.nodes == s.nodes && r.branches == s.branches && r.startTime == s.startTime
    ensures s.status == EffectiveStatus(s, now) ==> r == s
  {
    if s.status == Active && now > s.endTime then s.(status := Completed, updatedAt := now) else s
  }

  /** `f"node_{stamp}_{len(session['nodes'])}"`. */
  function NodeId(stamp: string, index: nat): string {
    Indexed("node_" + stamp, index)
  }

  /** The branch list that mirrors the nodes' parent links: one branch per
      node whose parent id is truthy, in node order. */
  function Mirror(nodes: seq<Node>): (bs: seq<Branch>)
    ensures |bs| <= |nodes|
  {
    if nodes == [] then []
    else
      var last := nodes[|nodes| - 1];
      Mirror(nodes[..|nodes| - 1])
        + if Truthy(last.parentId) then [Branch(last.parentId.value, last.id, last.createdAt)] else []
  }

  /** Number of nodes with a truthy parent id. */
  function WithParent(nodes: seq<Node>): nat {
    if nodes == [] then 0
    else WithParent(nodes[..|nodes| - 1]) + if Truthy(nodes[|nodes| - 1].parentId) then 1 else 0
  }

  lemma {:induction false} MirrorCount(nodes: seq<Node>)
    ensures |Mirror(nodes)| == WithParent(nodes)
  {
    if nodes != [] {
      MirrorCount(nodes[..|nodes| - 1]);
    }
  }

  /** Every node's id ends in its own position in the list. */
  ghost predicate IndexedIds(nodes: seq<Node>) {
    forall i :: 0 <= i < |nodes| ==> HasIndex(nodes[i], i)
  }

  ghost predicate HasIndex(node: Node, i: nat) {
    IndexedBy(node.id, i)
  }

  ghost predicate DistinctIds(nodes: seq<Node>) {
    forall i, j :: 0 <= i < j < |nodes| ==> nodes[i].id != nodes[j].id
  }

  lemma IndexedIdsAreDistinct(nodes: seq<Node>)
    requires IndexedIds(nodes)
    ensures DistinctIds(nodes)
  {
    forall i, j | 0 <= i < j < |nodes| ensures nodes[i].id != nodes[j].id {
      assert HasIndex(nodes[i], i) && HasIndex(nodes[j], j);
      IndexedByDistinct(nodes[i].id, nodes[j].id, i, j);
    }
  }

  /** The shape every session document keeps: node ids carry their
      position, and the branch list mirrors the parent links. */
  ghost predicate WellFormed(s: Session) {
    IndexedIds(s.nodes) && s.branches == Mirror(s.nodes)
  }

  /** The session after one successful `add_exploration_node`. */
  function WithNode(s: Session, node: Node, now: Time): Session {
    s.(nodes := s.nodes + [node],
       branches := s.branches
         + if Truthy(node.parentId) then [Branch(node.parentId.value, node.id, now)] else [],
       updatedAt := now)
  }

  /** Adding a node keeps the session well formed: its id carries the new
      position, and a branch is added exactly when the node has a parent. */
  lemma WithNodeWellFormed(s: Session, stamp: string, title: string, content: string,
                           tags: seq<string>, parentId: Option<string>, now: Time)
    requires WellFormed(s)
    ensures WellFormed(WithNode(s, Node(NodeId(stamp, |s.nodes|), title, content, tags, now, parentId), now))
    ensures |WithNode(s, Node(NodeId(stamp, |s.nodes|), title, content, tags, now, parentId), now).branches|
         == WithParent(s.nodes + [Node(NodeId(stamp, |s.nodes|), title, content, tags, now, parentId)])
  {
    var node := Node(NodeId(stamp, |s.nodes|), title, content, tags, now, parentId);
    var ns := s.nodes + [node];
    assert ns[..|ns| - 1] == s.nodes;
    forall i | 0 <= i < |ns| ensures HasIndex(ns[i], i) {
      if i < |s.nodes| {
        assert HasIndex(s.nodes[i], i);
        assert ns[i] == s.nodes[i];
      } else {
        assert ns[i].id == Indexed("node_" + stamp, i);
      }
    }
    assert IndexedIds(ns);
    MirrorCount(ns);
  }

  /** Newest first by start time. */
  predicate NewerFirst(a: Session, b: Session) {
    a.startTime >= b.startTime
  }

  lemma NewerFirstOrders()
    ensures Sorting.Total(NewerFirst) && Sorting.Transitive(NewerFirst)
  {
  }

  predicate Selected(s: Session, status: Option<Status>) {
    status.None? || s.status == status.value
  }

  /** Only the documents whose name starts with `explore_` are sessions. */
  predicate IsSessionFile(key: string) {
    "explore_" <= key
  }

  /** A document as the listing leaves it. */
  function Refreshed(key: string, s: Session, now: Time): (r: Session)
    ensures IsSessionFile(key) ==> r == Expire(s, now)
    ensures !IsSessionFile(key) ==> r == s
  {
    if IsSessionFile(key) then Expire(s, now) else s
  }

  /** The store after the listing has read the documents named in `keys`. */
  function Refresh(keys: seq<string>, store: map<string, Session>, now: Time): (r: map<string, Session>)
    requires forall k :: k in keys ==> k in store
    ensures r.Keys == store.Keys
  {
    if keys == [] then store
    else
      var key := keys[|keys| - 1];
      Refresh(keys[..|keys| - 1], store, now)[key := Refreshed(key, store[key], now)]
  }

  lemma {:induction false} RefreshOutside(keys: seq<string>, store: map<string, Session>, now: Time, k: string)
    requires forall k :: k in keys ==> k in store
    requires k in store && k !in keys
    ensures Refresh(keys, store, now)[k] == store[k]
  {
    if keys != [] {
      RefreshOutside(keys[..|keys| - 1], store, now, k);
    }
  }

  /** Once every document has been read, each was refreshed from its own
      stored value, whatever the reading order. */
  lemma {:induction false} RefreshInside(keys: seq<string>, store: map<string, Session>, now: Time, k: string)
    requires forall k :: k in keys ==> k in store
    requires Seqs.Distinct(keys) && k in keys
    ensures Refresh(keys, store, now)[k] == Refreshed(k, store[k], now)
  {
    var init, key := keys[..|keys| - 1], keys[|keys| - 1];
    if k != key {
      assert k in init;
      RefreshInside(init, store, now, k);
    }
  }

  /** The listing's filter: a session file with the requested status. */
  function Listed(status: Option<Status>): (string, Session) -> bool {
    (key: string, s: Session) => IsSessionFile(key) && Selected(s, status)
  }

  /** Every stored session sits under its own id and is well formed. */
  ghost predicate ValidStore(store: map<string, Session>) {
    forall id :: id in store ==> store[id].id == id && WellFormed(store[id])
  }

  lemma RefreshedValid(store: map<string, Session>, refreshed: map<string, Session>, now: Time)
    requires ValidStore(store)
    requires refreshed.Keys == store.Keys
    requires forall k :: k in refreshed ==> refreshed[k] == Refreshed(k, store[k], now)
    ensures ValidStore(refreshed)
  {
    forall id | id in refreshed ensures refreshed[id].id == id && WellFormed(refreshed[id]) {
      assert refreshed[id] == Refreshed(id, store[id], now);
    }
  }

  class LightFaceExploration {
    /** The session documents on disk, keyed by session id. */
    var sessions: map<string, Session>

    ghost predicate Valid()
      reads this
    {
      ValidStore(sessions)
    }

    constructor (store: map<string, Session>)
      ensures sessions == store
    {
      sessions := store;
    }

    /** Starts a session bound to `topic` that ends `duration` days after
        `now`; a session stored under the same id is overwritten. */
    method StartExploration(topic: string, duration: int, constraints: seq<string>,
                            stamp: string, now: Time) returns (session: Session)
      modifies this
      ensures session.id == "explore_" + stamp && session.topic == topic
      ensures session.status == Active && session.nodes == [] && session.branches == []
      ensures session.startTime == now && session.endTime == now + duration * SecondsPerDay
      ensures session.durationDays == duration && session.constraints == constraints
      ensures sessions == old(sessions)[session.id := session]
      ensures old(Valid()) ==> Valid()
    {
      session := Session("explore_" + stamp, topic, now, now + duration * SecondsPerDay, duration,
                         constraints, Active, [], [], now, now);
      sessions := sessions[session.id := session];
    }

    /** Appends a node to an active, unexpired session. The expiry flip of
        the load is not saved when the call then fails. */
    method AddExplorationNode(sessionId: string, title: string, content: string, tags: seq<string>,
                              parentId: Option<string>, stamp: string, now: Time)
      returns (r: Result<Node, Error>)
      modifies this
      ensures sessionId !in old(sessions) ==>
                r == Failure(SessionNotFound(sessionId)) && sessions == old(sessions)
      ensures sessionId in old(sessions) && EffectiveStatus(old(sessions[sessionId]), now) != Active ==>
                r == Failure(SessionNotActive(sessionId)) && sessions == old(sessions)
      ensures sessionId in old(sessions) && EffectiveStatus(old(sessions[sessionId]), now) == Active ==>
                && r == Success(Node(NodeId(stamp, |old(sessions[sessionId]).nodes|), title, content, tags, now, parentId))
                && sessions == old(sessions)[sessionId := WithNode(old(sessions[sessionId]), r.value, now)]
      ensures old(Valid()) ==> Valid()
    {
      if sessionId !in sessions {
        return Failure(SessionNotFound(sessionId));
      }
      var session := sessions[sessionId];
      if now > session.endTime && session.status == Active {
        session := session.(status := Completed);
      }
      if session.status != Active {
        return Failure(SessionNotActive(sessionId));
      }
      var node := Node(NodeId(stamp, |session.nodes|), title, content, tags, now, parentId);
      session := session.(nodes := session.nodes + [node]);
      if Truthy(parentId) {
        session := session.(branches := session.branches + [Branch(parentId.value, node.id, now)]);
      }
      session := session.(updatedAt := now);
      ghost var before := sessions[sessionId];
      assert session == WithNode(before, node, now);
      if Valid() {
        WithNodeWellFormed(before, stamp, title, content, tags, parentId, now);
      }
      sessions := sessions[sessionId := session];
      r := Success(node);
    }

    /** Marks a session completed whatever its end time; nodes and branches
        are left as they are. */
    method EndExploration(sessionId: string, now: Time) returns (r: Result<Session, Error>)
      modifies this
      ensures sessionId !in old(sessions) ==>
                r == Failure(SessionNotFound(sessionId)) && sessions == old(sessions)
      ensures sessionId in old(sessions) ==>
                && r == Success(old(sessions[sessionId]).(status := Completed, updatedAt := now))
                && sessions == old(sessions)[sessionId := r.value]
      ensures old(Valid()) ==> Valid()
    {
      if sessionId !in sessions {
        return Failure(SessionNotFound(sessionId));
      }
      var session := sessions[sessionId];
      session := session.(status := Completed, updatedAt := now);
      sessions := sessions[sessionId := session];
      r := Success(session);
    }

    /** Loads one session document for the listing, saving it back flipped
        to completed when it is active and past its end time. */
    method LoadExpired(file: string, now: Time) returns (session: Session)
      requires file in sessions
      modifies this
      ensures session == Expire(old(sessions[file]), now)
      ensures sessions == old(sessions)[file := session]
    {
      session := sessions[file];
      if session.status == Active {
        if now > session.endTime {
          session := session.(status := Completed, updatedAt := now);
          sessions := sessions[file := session];
        }
      }
    }

    /** The loop of the listing: reads the documents named in `files` in
        that order, saving expired sessions back, and collects the
        sessions with the requested status. */
    method ReadListed(files: seq<string>, status: Option<Status>, now: Time) returns (found: seq<Session>)
      requires forall k :: k in files ==> k in sessions
      requires Seqs.Distinct(files)
      modifies this
      ensures sessions == Refresh(files, old(sessions), now)
      ensures found == Store.Collected(files, sessions, Listed(status))
    {
      ghost var store := sessions;
      found := [];
      for i := 0 to |files|
        invariant sessions == Refresh(files[..i], store, now)
        invariant found == Store.Collected(files[..i], sessions, Listed(status))
      {
        found := ReadOne(files, i, store, status, now, found);
      }
      assert files[..|files|] == files;
    }

    /** One round of the loop of `ReadListed`: file `files[i]`. */
    method ReadOne(files: seq<string>, i: nat, ghost store: map<string, Session>, status: Option<Status>, now: Time,
                   found: seq<Session>) returns (more: seq<Session>)
      requires i < |files|
      requires forall k :: k in files ==> k in store
      requires Seqs.Distinct(files)
      requires sessions == Refresh(files[..i], store, now)
      requires found == Store.Collected(files[..i], sessions, Listed(status))
      modifies this
      ensures sessions == Refresh(files[..i + 1], store, now)
      ensures more == Store.Collected(files[..i + 1], sessions, Listed(status))
    {
      var file := files[i];
      ghost var pre := sessions;
      assert files[..i + 1] == files[..i] + [file];
      assert files[..i + 1][..i] == files[..i];
      assert file !in files[..i];
      RefreshOutside(files[..i], store, now, file);
      more := found;
      if IsSessionFile(file) {
        var session := LoadExpired(file, now);
        if status.None? || session.status == status.value {
          more := more + [session];
        }
      } else {
        assert pre[file := store[file]] == pre;
      }
      Store.CollectedFrame(files[..i], pre, sessions, Listed(status));
      Store.CollectedSnoc(files[..i], file, sessions, Listed(status));
    }

    /** Saves the expiry flip of every active session past its end time,
        then lists the sessions with the requested status, newest first.
        The store is read in the order the directory listing gives,
        returned as `visited`. */
    method ListExplorations(status: Option<Status>, now: Time)
      returns (result: seq<Session>, ghost visited: seq<string>)
      modifies this
      ensures sessions.Keys == old(sessions).Keys
      ensures forall k :: k in sessions ==> sessions[k] == Refreshed(k, old(sessions)[k], now)
      ensures forall k :: k in visited <==> k in sessions
      ensures Seqs.Distinct(visited)
      ensures result == Sorting.SortBy(Store.Collected(visited, sessions, Listed(status)), NewerFirst)
      ensures old(Valid()) ==> Valid()
    {
      ghost var store := sessions;
      var files := Store.ListDir(sessions);
      var found := ReadListed(files, status, now);
      visited := files;
      forall k | k in sessions ensures sessions[k] == Refreshed(k, store[k], now) {
        RefreshInside(files, store, now, k);
      }
      result := Sorting.SortBy(found, NewerFirst);
      if ValidStore(store) {
        RefreshedValid(store, sessions, now);
      }
    }
  }

  /** What a listing promises: newest first, each listed session has the
      requested status, and no such session is missing. */
  lemma ListingIsSortedSelection(keys: seq<string>, store: map<string, Session>, status: Option<Status>)
    requires forall k :: k in keys <==> k in store
    ensures var listed := Sorting.SortBy(Store.Collected(keys, store, Listed(status)), NewerFirst);
      && Sorting.SortedBy(listed, NewerFirst)
      && (forall s :: s in listed ==> Selected(s, status) && exists k :: k in store && IsSessionFile(k) && s == store[k])
      && (forall k :: k in store && IsSessionFile(k) && Selected(store[k], status) ==> store[k] in listed)
  {
    NewerFirstOrders();
    Store.Listing(keys, store, Listed(status), NewerFirst);
  }

  /** Ending a session twice is the same as ending it once, at the later time. */
  lemma EndIsIdempotent(s: Session, t1: Time, t2: Time)
    ensures var once := s.(status := Completed, updatedAt := t1);
      && once.(status := Completed, updatedAt := t2) == s.(status := Completed, updatedAt := t2)
      && once.nodes == s.nodes && once.branches == s.branches
  {
  }
}
