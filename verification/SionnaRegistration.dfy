/** What failed requests do to the registrations and positions on the server, over whole runs of the
    Sionna extension. */
module SionnaRegistration {
  import opened Outcomes
  import opened KeyOrder
  import opened SionnaSync

  /** The position in the cache. */
  function Cached(s: State, id: string): Option<Position> {
    if id in s.lastPositions then Some(s.lastPositions[id]) else None
  }

  /** Where a synchronisation of `ids` sees the node. */
  function SeenAt(nodes: NodeMap, ids: seq<string>, id: string): Option<Position> {
    if id in ids && id in nodes then nodes[id].location else None
  }

  /** A position is sent that the cache does not have, if the request goes through. */
  predicate NewAndSent(cached: Option<Position>, loc: Option<Position>, ok: bool) {
    loc.Some? && cached != loc && ok
  }

  predicate Known(s: State, dir: Direction, id: string) {
    id in SideOf(s, dir).ids
  }

  // ----- One synchronisation ------------------------------------------------------------------

  /** From `s` to `r`, the node is seen at `loc` and answered by `reply`: what that does to its cache entry and
      its registration. */
  ghost predicate Effect(s: State, r: State, dir: Direction, id: string, loc: Option<Position>, reply: Reply) {
    Cached(r, id) == (if loc.Some? then loc else Cached(s, id))
    && (Known(r, dir, id) <==> Known(s, dir, id) || NewAndSent(Cached(s, id), loc, Granted(reply, dir)))
  }

  lemma NodeEffect(s: State, o: string, node: Node, refAlt: real, reply: Reply, dir: Direction, id: string)
    ensures Effect(s, SyncNode(s, o, node, refAlt, reply, true), dir, id,
                   if o == id then node.location else None, reply)
  {
    if node.location.Some? {
      SendSide(s, o, node, refAlt, reply, dir);
    }
  }

  lemma SeenSnoc(nodes: NodeMap, ids: seq<string>, id: string)
    requires ids != [] && forall o :: o in ids ==> o in nodes
    ensures var n := |ids| - 1;
            SeenAt(nodes, ids, id) == (if ids[n] == id then nodes[id].location else SeenAt(nodes, ids[..n], id))
            && (ids[n] == id ==> SeenAt(nodes, ids[..n], id) == nodes[id].location || SeenAt(nodes, ids[..n], id).None?)
  {
    var n := |ids| - 1;
    assert ids == ids[..n] + [ids[n]];
  }

  /** Two steps in a row; the second sees the node where the first did, if both see it. */
  lemma EffectChain(s: State, mid: State, r: State, dir: Direction, id: string, seen: Option<Position>,
                    loc: Option<Position>, reply: Reply, now: Reply)
    requires Effect(s, mid, dir, id, seen, reply) && Effect(mid, r, dir, id, loc, now)
    requires loc.Some? ==> now == reply && (seen == loc || seen.None?)
    ensures Effect(s, r, dir, id, if loc.Some? then loc else seen, reply)
  {
  }

  /** What a synchronisation does to one node's cache entry and registration. */
  lemma {:induction false} SyncEffect(s: State, nodes: NodeMap, ids: seq<string>, refAlt: real,
                                      replies: map<string, Reply>, dir: Direction, id: string)
    requires forall o :: o in ids ==> o in nodes
    ensures Effect(s, SyncNodes(s, nodes, ids, refAlt, replies, true), dir, id, SeenAt(nodes, ids, id),
                   ReplyTo(replies, id))
    decreases |ids|
  {
    if ids != [] {
      var n := |ids| - 1;
      SyncEffect(s, nodes, ids[..n], refAlt, replies, dir, id);
      var before := SyncNodes(s, nodes, ids[..n], refAlt, replies, true);
      NodeEffect(before, ids[n], nodes[ids[n]], refAlt, ReplyTo(replies, ids[n]), dir, id);
      SeenSnoc(nodes, ids, id);
      EffectChain(s, before, SyncNodes(s, nodes, ids, refAlt, replies, true), dir, id, SeenAt(nodes, ids[..n], id),
                  if ids[n] == id then nodes[id].location else None, ReplyTo(replies, id), ReplyTo(replies, ids[n]));
    }
  }

  // ----- Registrations over runs --------------------------------------------------------------

  /** A scene has been created since the last stop. */
  predicate HasScene(run: seq<Event>) {
    run != []
    && match run[|run| - 1]
       case Stop => false
       case CreateScene(created) => created || HasScene(run[..|run| - 1])
       case Sync(_, _, _) => HasScene(run[..|run| - 1])
  }

  /** Where the node was last seen by a synchronisation of the current scene. */
  function LastSeen(run: seq<Event>, id: string): Option<Position> {
    if run == [] then
      None
    else
      var before := run[..|run| - 1];
      match run[|run| - 1]
      case Stop => None
      case CreateScene(_) => LastSeen(before, id)
      case Sync(nodes, _, _) =>
        if HasScene(before) && id in nodes && nodes[id].location.Some? then nodes[id].location
        else LastSeen(before, id)
  }

  /** Event `k` sees the node elsewhere than before, or for the first time. */
  ghost predicate SeesNew(run: seq<Event>, k: nat, id: string)
    requires k < |run|
  {
    run[k].Sync? && id in run[k].nodes && run[k].nodes[id].location.Some? && HasScene(run[..k])
    && LastSeen(run[..k], id) != run[k].nodes[id].location
  }

  ghost predicate NoStopFrom(run: seq<Event>, k: nat) {
    forall j :: k <= j < |run| ==> !run[j].Stop?
  }

  /** Event `k` sees the node elsewhere and gets its request through, and nothing stops since. */
  ghost predicate Posted(run: seq<Event>, k: nat, dir: Direction, id: string)
    requires k < |run|
  {
    SeesNew(run, k, id) && Granted(ReplyTo(run[k].replies, id), dir) && NoStopFrom(run, k)
  }

  lemma {:induction false} SceneIff(run: seq<Event>, cached: bool)
    ensures Exec(run, cached).hasScene <==> HasScene(run)
    decreases |run|
  {
    if run != [] {
      SceneIff(run[..|run| - 1], cached);
    }
  }

  /** Where an event sees the node, if it is a synchronisation of a scene. */
  function EventSees(s: State, e: Event, id: string): Option<Position> {
    if e.Sync? && s.hasScene && id in e.nodes then e.nodes[id].location else None
  }

  function EventReply(e: Event, id: string): Reply {
    if e.Sync? then ReplyTo(e.replies, id) else GRANTED
  }

  /** What one event other than a stop does to a node's cache entry and registration. */
  lemma EventEffect(s: State, e: Event, dir: Direction, id: string)
    requires !e.Stop?
    ensures Effect(s, Step(s, e, true), dir, id, EventSees(s, e, id), EventReply(e, id))
  {
    if e.Sync? && s.hasScene {
      SyncEffect(s, e.nodes, SortedKeys(e.nodes.Keys), e.refAlt, e.replies, dir, id);
    }
  }

  /** The cache entry is where the node was last seen. */
  lemma {:induction false} CacheIsLastSeen(run: seq<Event>, id: string)
    ensures Cached(Exec(run, true), id) == LastSeen(run, id)
    decreases |run|
  {
    if run != [] {
      var n := |run| - 1;
      CacheIsLastSeen(run[..n], id);
      SceneIff(run[..n], true);
      if !run[n].Stop? {
        EventEffect(Exec(run[..n], true), run[n], TX, id);
      }
    }
  }

  lemma PrefixEvent(run: seq<Event>, k: nat, dir: Direction, id: string)
    requires run != [] && k < |run| - 1
    ensures Posted(run[..|run| - 1], k, dir, id) && !run[|run| - 1].Stop? <==> Posted(run, k, dir, id)
  {
    var before := run[..|run| - 1];
    assert before[..k] == run[..k];
    if NoStopFrom(run, k) {
      assert forall j :: k <= j < |before| ==> before[j] == run[j];
    }
    if NoStopFrom(before, k) {
      assert forall j :: k <= j < |before| ==> before[j] == run[j];
    }
  }

  /** Whether the last event posts the registration. */
  lemma LastEvent(run: seq<Event>, dir: Direction, id: string)
    requires run != [] && !run[|run| - 1].Stop?
    ensures var n := |run| - 1;
            Known(Exec(run, true), dir, id) <==> Known(Exec(run[..n], true), dir, id) || Posted(run, n, dir, id)
  {
    var n := |run| - 1;
    EventEffect(Exec(run[..n], true), run[n], dir, id);
    CacheIsLastSeen(run[..n], id);
    SceneIff(run[..n], true);
  }

  /** Over every run: a device is registered exactly when, since the last stop, some synchronisation saw its
      node elsewhere than the one before and got its request through. In particular a failed registration
      waits for the node to move. */
  lemma {:induction false} RegisteredIff(run: seq<Event>, dir: Direction, id: string)
    ensures Known(Exec(run, true), dir, id) <==> exists k: nat :: k < |run| && Posted(run, k, dir, id)
    decreases |run|
  {
    if run != [] {
      var n := |run| - 1;
      RegisteredIff(run[..n], dir, id);
      if !run[n].Stop? {
        LastEvent(run, dir, id);
      }
      if k: nat :| k < n && Posted(run[..n], k, dir, id) {
        PrefixEvent(run, k, dir, id);
      }
      if k: nat :| k < n && Posted(run, k, dir, id) {
        PrefixEvent(run, k, dir, id);
      }
    }
  }

  /** The node is where it was, whenever a later event up to `n` sees it. */
  ghost predicate StaysAt(run: seq<Event>, i: nat, n: nat, id: string, loc: Position) {
    forall k :: i < k < n && k < |run| ==>
      !run[k].Stop?
      && (run[k].Sync? && id in run[k].nodes && run[k].nodes[id].location.Some? ==>
            run[k].nodes[id].location.value == loc)
  }

  /** After a failed registration, however many synchronisations follow and whatever else they do, the node
      is not registered as long as there is no stop and it stays where it is. */
  lemma {:induction false} FailedRegistrationStays(run: seq<Event>, i: nat, n: nat, dir: Direction, id: string)
    requires i < n <= |run| && SeesNew(run, i, id) && !Granted(ReplyTo(run[i].replies, id), dir)
    requires !Known(Exec(run[..i], true), dir, id)
    requires StaysAt(run, i, n, id, run[i].nodes[id].location.value)
    ensures !Known(Exec(run[..n], true), dir, id) && Cached(Exec(run[..n], true), id) == run[i].nodes[id].location
    decreases n
  {
    assert run[..n][..n - 1] == run[..n - 1];
    EventEffect(Exec(run[..n - 1], true), run[n - 1], dir, id);
    if n == i + 1 {
      SceneIff(run[..i], true);
    } else {
      FailedRegistrationStays(run, i, n - 1, dir, id);
    }
  }

  function FailingRun(id: string, node: Node): seq<Event> {
    [CreateScene(true), Sync(map[id := node], 0.0, map[id := Reply(false, true)]), Sync(map[id := node], 0.0, map[])]
  }

  /** A run that shows it: the second synchronisation would succeed but sends nothing, so the node remains a
      receiver without a transmitter. */
  lemma FailureReached(id: string, node: Node)
    requires node.location.Some?
    ensures !Known(Exec(FailingRun(id, node), true), TX, id) && Known(Exec(FailingRun(id, node), true), RX, id)
    ensures Known(Exec(FailingRun(id, node), false), TX, id)
  {
    var run := FailingRun(id, node);
    assert run[..3] == run && run[..2][..1] == run[..1] && run[..1][..0] == [] && run[..1][0] == CreateScene(true);
    assert HasScene(run[..1]);
    assert LastSeen(run[..1], id) == None by {
      assert LastSeen([], id) == None;
    }
    assert SeesNew(run, 1, id);
    RegisteredIff(run[..1], TX, id);
    FailedRegistrationStays(run, 1, 3, TX, id);
    assert Posted(run, 1, RX, id);
    RegisteredIff(run, RX, id);
    UncachedRegisters(run, 2, TX, id);
  }

  lemma UncachedNode(s: State, o: string, node: Node, refAlt: real, reply: Reply, dir: Direction, id: string)
    requires Known(s, dir, id) || (o == id && node.location.Some? && Granted(reply, dir))
    ensures Known(SyncNode(s, o, node, refAlt, reply, false), dir, id)
  {
    if node.location.Some? {
      SendSide(s, o, node, refAlt, reply, dir);
    }
  }

  lemma {:induction false} SendsAll(s: State, nodes: NodeMap, ids: seq<string>, refAlt: real,
                                    replies: map<string, Reply>, dir: Direction, id: string)
    requires (forall o :: o in ids ==> o in nodes) && id in ids
    requires nodes[id].location.Some? && Granted(ReplyTo(replies, id), dir)
    ensures Known(SyncNodes(s, nodes, ids, refAlt, replies, false), dir, id)
    decreases |ids|
  {
    var n := |ids| - 1;
    var before := SyncNodes(s, nodes, ids[..n], refAlt, replies, false);
    if ids[n] != id {
      assert id in ids[..n];
      SendsAll(s, nodes, ids[..n], refAlt, replies, dir, id);
    }
    UncachedNode(before, ids[n], nodes[ids[n]], refAlt, ReplyTo(replies, ids[n]), dir, id);
  }

  /** Without the cache, the next synchronisation that goes through registers the node. */
  lemma UncachedRegisters(run: seq<Event>, k: nat, dir: Direction, id: string)
    requires k + 1 == |run| && run[k].Sync? && id in run[k].nodes && run[k].nodes[id].location.Some?
    requires HasScene(run[..k]) && Granted(ReplyTo(run[k].replies, id), dir)
    ensures Known(Exec(run, false), dir, id)
  {
    var e := run[k];
    SceneIff(run[..k], false);
    SendsAll(Exec(run[..k], false), e.nodes, SortedKeys(e.nodes.Keys), e.refAlt, e.replies, dir, id);
  }

  // ----- Positions over runs ------------------------------------------------------------------

  /** From `s` to `r`, the device of `id` comes to `at` exactly by a new position that is sent. */
  ghost predicate ComesBySending(s: State, r: State, dir: Direction, id: string, at: Position,
                                 loc: Option<Position>, reply: Reply)
  {
    CurrentAt(r, dir, id, at) <==> CurrentAt(s, dir, id, at) || NewAndSent(Cached(s, id), loc, Granted(reply, dir))
  }

  lemma NodeCurrent(run: seq<Event>, s: State, o: string, node: Node, refAlt: real, reply: Reply, dir: Direction,
                    id: string, at: Position)
    requires Aligned(run, s) && UniqueNames(run) && Named(run, o, NodeName(o, node))
    requires o == id && node.location.Some? ==> at == Shifted(node.location.value, refAlt)
    ensures ComesBySending(s, SyncNode(s, o, node, refAlt, reply, true), dir, id, at,
                           if o == id then node.location else None, reply)
  {
    if node.location.Some? && !Unchanged(s, o, node.location.value) {
      SendCurrent(run, s, o, node, refAlt, reply, dir, id, at);
    }
  }

  lemma ComesChain(s: State, mid: State, r: State, dir: Direction, id: string, at: Position, seen: Option<Position>,
                   loc: Option<Position>, reply: Reply, now: Reply)
    requires ComesBySending(s, mid, dir, id, at, seen, reply) && ComesBySending(mid, r, dir, id, at, loc, now)
    requires Cached(mid, id) == if seen.Some? then seen else Cached(s, id)
    requires loc.Some? ==> now == reply && (seen == loc || seen.None?)
    ensures ComesBySending(s, r, dir, id, at, if loc.Some? then loc else seen, reply)
  {
  }

  lemma {:induction false} SyncCurrent(run: seq<Event>, s: State, nodes: NodeMap, ids: seq<string>, refAlt: real,
                                       replies: map<string, Reply>, dir: Direction, id: string, at: Position)
    requires s.hasScene && Aligned(run, s) && UniqueNames(run)
    requires forall o :: o in ids ==> o in nodes && Named(run, o, NodeName(o, nodes[o]))
    requires id in nodes && nodes[id].location.Some? ==> at == Shifted(nodes[id].location.value, refAlt)
    ensures ComesBySending(s, SyncNodes(s, nodes, ids, refAlt, replies, true), dir, id, at, SeenAt(nodes, ids, id),
                           ReplyTo(replies, id))
    decreases |ids|
  {
    if ids != [] {
      var n := |ids| - 1;
      SyncCurrent(run, s, nodes, ids[..n], refAlt, replies, dir, id, at);
      SyncAligned(run, s, nodes, ids[..n], refAlt, replies, true);
      SyncEffect(s, nodes, ids[..n], refAlt, replies, dir, id);
      var before := SyncNodes(s, nodes, ids[..n], refAlt, replies, true);
      NodeCurrent(run, before, ids[n], nodes[ids[n]], refAlt, ReplyTo(replies, ids[n]), dir, id, at);
      SeenSnoc(nodes, ids, id);
      ComesChain(s, before, SyncNodes(s, nodes, ids, refAlt, replies, true), dir, id, at,
                 SeenAt(nodes, ids[..n], id), if ids[n] == id then nodes[id].location else None,
                 ReplyTo(replies, id), ReplyTo(replies, ids[n]));
    }
  }

  /** In every run, whatever failed before and whatever fails now: a synchronisation leaves a device of a
      located node where the node is exactly when it was there already, or the node is seen at a new
      position and its request goes through. */
  lemma CurrentIff(run: seq<Event>, n: nat, dir: Direction, id: string)
    requires UniqueNames(run) && n < |run| && run[n].Sync? && HasScene(run[..n])
    requires id in run[n].nodes && run[n].nodes[id].location.Some?
    ensures var e, loc := run[n], run[n].nodes[id].location.value;
            StandsAt(SideOf(Exec(run[..n + 1], true), dir), id, loc, e.refAlt)
            <==> StandsAt(SideOf(Exec(run[..n], true), dir), id, loc, e.refAlt)
                 || (SeesNew(run, n, id) && Granted(ReplyTo(e.replies, id), dir))
  {
    var s, e := Exec(run[..n], true), run[n];
    var at := Shifted(e.nodes[id].location.value, e.refAlt);
    assert run[..n + 1][..n] == run[..n];
    AlwaysAligned(run, n, true);
    CacheIsLastSeen(run[..n], id);
    SceneIff(run[..n], true);
    forall o | o in e.nodes
      ensures Named(run, o, NodeName(o, e.nodes[o]))
    {
      NamedAt(run, n, o);
    }
    SyncCurrent(run, s, e.nodes, SortedKeys(e.nodes.Keys), e.refAlt, e.replies, dir, id, at);
    StandsIsCurrent(SideOf(s, dir), id, e.nodes[id].location.value, e.refAlt);
    StandsIsCurrent(SideOf(Exec(run[..n + 1], true), dir), id, e.nodes[id].location.value, e.refAlt);
  }
}
