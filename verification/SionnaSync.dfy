/** The Sionna extension's registration protocol: the client registers each located node as a transmitter
    and a receiver of the scene on the server, and afterwards sends only positions that changed. */
module SionnaSync {
  import opened Outcomes
  import opened KeyOrder

  datatype Position = Position(lat: real, lon: real, alt: real)

  datatype Node = Node(name: string, location: Option<Position>)

  type NodeMap = map<string, Node>

  /** A device of the scene on the server. */
  datatype Device = Device(name: string, position: Position)

  datatype Direction = TX | RX

  /** One direction of the registration: the client's map from node id to device name and its order, and the
      server's list, which is in the order of registration. */
  datatype Side = Side(ids: map<string, string>, order: seq<string>, devices: seq<Device>)

  /** The client's fields and the server's scene; no scene while `m_sceneId` is empty. */
  datatype State = State(hasScene: bool, tx: Side, rx: Side, lastPositions: map<string, Position>)

  const EMPTY: Side := Side(map[], [], [])

  const FRESH: State := State(false, EMPTY, EMPTY, map[])

  /** Whether the TX and the RX request of one node go through; a request that throws did not reach the
      server. */
  datatype Reply = Reply(tx: bool, rx: bool)

  const GRANTED: Reply := Reply(true, true)

  function SideOf(s: State, dir: Direction): Side {
    if dir.TX? then s.tx else s.rx
  }

  function Suffix(dir: Direction): string {
    if dir.TX? then "-tx" else "-rx"
  }

  function Granted(reply: Reply, dir: Direction): bool {
    if dir.TX? then reply.tx else reply.rx
  }

  function NodeName(id: string, node: Node): string {
    if node.name == "" then id else node.name
  }

  /** Altitude above ground, shifted onto the scene's ground level. */
  function Shifted(loc: Position, refAlt: real): Position {
    Position(loc.lat, loc.lon, loc.alt + refAlt)
  }

  /** PUT of a position: applies to the devices of that name. */
  function Moved(devices: seq<Device>, name: string, pos: Position): seq<Device> {
    seq(|devices|, i requires 0 <= i < |devices| =>
      if devices[i].name == name then Device(name, pos) else devices[i])
  }

  // ----- One node -----------------------------------------------------------------------------

  /** POST of a new device under the name `full`, or PUT of a known one's position. */
  function Request(side: Side, id: string, full: string, pos: Position, ok: bool): Side {
    if !ok then
      side
    else if id !in side.ids then
      Side(side.ids[id := full], side.order + [full], side.devices + [Device(full, pos)])
    else
      side.(devices := Moved(side.devices, side.ids[id], pos))
  }

  function SyncSide(s: State, dir: Direction, id: string, name: string, pos: Position, ok: bool): State {
    var side := Request(SideOf(s, dir), id, name + Suffix(dir), pos, ok);
    if dir.TX? then s.(tx := side) else s.(rx := side)
  }

  /** Register or move both devices, and remember the position whether or not the requests went through. */
  function Send(s: State, id: string, node: Node, refAlt: real, reply: Reply): State
    requires node.location.Some?
  {
    var loc, name := node.location.value, NodeName(id, node);
    var s1 := SyncSide(s, TX, id, name, Shifted(loc, refAlt), reply.tx);
    var s2 := SyncSide(s1, RX, id, name, Shifted(loc, refAlt), reply.rx);
    s2.(lastPositions := s2.lastPositions[id := loc])
  }

  predicate Unchanged(s: State, id: string, loc: Position) {
    id in s.lastPositions && s.lastPositions[id] == loc
  }

  /** One iteration of `syncPositions`; with `cached` off, the position check is skipped. */
  function SyncNode(s: State, id: string, node: Node, refAlt: real, reply: Reply, cached: bool): State {
    if node.location.None? then
      s
    else if cached && Unchanged(s, id, node.location.value) then
      s
    else
      Send(s, id, node, refAlt, reply)
  }

  function ReplyTo(replies: map<string, Reply>, id: string): Reply {
    if id in replies then replies[id] else GRANTED
  }

  function SyncNodes(s: State, nodes: NodeMap, ids: seq<string>, refAlt: real, replies: map<string, Reply>,
                     cached: bool): (r: State)
    requires forall id :: id in ids ==> id in nodes
    ensures r.hasScene == s.hasScene
    decreases |ids|
  {
    if ids == [] then
      s
    else
      var n := |ids| - 1;
      var before := SyncNodes(s, nodes, ids[..n], refAlt, replies, cached);
      SyncNode(before, ids[n], nodes[ids[n]], refAlt, ReplyTo(replies, ids[n]), cached)
  }

  lemma SyncNodesSnoc(s: State, nodes: NodeMap, ids: seq<string>, refAlt: real, replies: map<string, Reply>,
                      cached: bool, i: nat)
    requires (forall id :: id in ids ==> id in nodes) && i < |ids|
    ensures SyncNodes(s, nodes, ids[..i + 1], refAlt, replies, cached)
         == SyncNode(SyncNodes(s, nodes, ids[..i], refAlt, replies, cached), ids[i], nodes[ids[i]], refAlt,
                     ReplyTo(replies, ids[i]), cached)
  {
    assert ids[..i + 1][..i] == ids[..i];
  }

  /** The requests for one side do not touch the other. */
  lemma SendSide(s: State, id: string, node: Node, refAlt: real, reply: Reply, dir: Direction)
    requires node.location.Some?
    ensures SideOf(Send(s, id, node, refAlt, reply), dir)
         == Request(SideOf(s, dir), id, NodeName(id, node) + Suffix(dir), Shifted(node.location.value, refAlt),
                    Granted(reply, dir))
  {
  }

  // ----- Whole runs ---------------------------------------------------------------------------

  datatype Event =
    | CreateScene(created: bool)
    | Sync(nodes: NodeMap, refAlt: real, replies: map<string, Reply>)
    | Stop

  function Step(s: State, e: Event, cached: bool): State {
    match e
    case CreateScene(created) => if !s.hasScene && created then s.(hasScene := true) else s
    case Sync(nodes, refAlt, replies) =>
      if s.hasScene then SyncNodes(s, nodes, SortedKeys(nodes.Keys), refAlt, replies, cached) else s
    case Stop => FRESH
  }

  /** The state after a run from the start. */
  function Exec(run: seq<Event>, cached: bool): State {
    if run == [] then FRESH else Step(Exec(run[..|run| - 1], cached), run[|run| - 1], cached)
  }

  // ----- Index alignment ----------------------------------------------------------------------

  /** At some point of the run, the node `id` has the resolved name `name`. */
  ghost predicate Named(run: seq<Event>, id: string, name: string) {
    exists i :: 0 <= i < |run| && run[i].Sync? && id in run[i].nodes && NodeName(id, run[i].nodes[id]) == name
  }

  /** No two nodes ever share a resolved name. */
  ghost predicate UniqueNames(run: seq<Event>) {
    forall a, b, name :: Named(run, a, name) && Named(run, b, name) ==> a == b
  }

  function Names(devices: seq<Device>): seq<string> {
    seq(|devices|, i requires 0 <= i < |devices| => devices[i].name)
  }

  ghost predicate Distinct(names: seq<string>) {
    forall i, j :: 0 <= i < j < |names| ==> names[i] != names[j]
  }

  /** `full` is a name that `id` has in the run, followed by the suffix. */
  ghost predicate Owns(run: seq<Event>, id: string, full: string, suffix: string) {
    |full| >= |suffix| && full[|full| - |suffix|..] == suffix && Named(run, id, full[..|full| - |suffix|])
  }

  lemma OwnsOwn(run: seq<Event>, id: string, name: string, suffix: string)
    requires Named(run, id, name)
    ensures Owns(run, id, name + suffix, suffix)
  {
    var full := name + suffix;
    assert full[..|full| - |suffix|] == name && full[|full| - |suffix|..] == suffix;
  }

  /** The client's order is the server's list. */
  ghost predicate OrderMatches(side: Side) {
    side.order == Names(side.devices)
  }

  ghost predicate HasOwner(side: Side, name: string) {
    exists id :: id in side.ids && side.ids[id] == name
  }

  /** Also, the list is without repetitions, and the registered names are those of the nodes that own them. */
  ghost predicate Registered(run: seq<Event>, side: Side, suffix: string) {
    OrderMatches(side) && Distinct(side.order)
    && (forall id :: id in side.ids ==> side.ids[id] in side.order && Owns(run, id, side.ids[id], suffix))
    && (forall n :: n in side.order ==> HasOwner(side, n))
  }

  ghost predicate Aligned(run: seq<Event>, s: State) {
    Registered(run, s.tx, "-tx") && Registered(run, s.rx, "-rx") && (!s.hasScene ==> s == FRESH)
  }

  lemma OneOwner(run: seq<Event>, side: Side, suffix: string, a: string, b: string)
    requires Registered(run, side, suffix) && UniqueNames(run) && a in side.ids && Owns(run, b, side.ids[a], suffix)
    ensures a == b
  {
  }

  lemma NewName(run: seq<Event>, side: Side, suffix: string, id: string, full: string)
    requires Registered(run, side, suffix) && UniqueNames(run) && id !in side.ids && Owns(run, id, full, suffix)
    ensures full !in side.order
  {
    forall n | n in side.order
      ensures n != full
    {
      assert HasOwner(side, n);
      var o :| o in side.ids && side.ids[o] == n;
      if n == full {
        OneOwner(run, side, suffix, o, id);
      }
    }
  }

  lemma OwnersStay(side: Side, id: string, full: string, pos: Position, n: string)
    requires id !in side.ids && (n == full || HasOwner(side, n))
    ensures HasOwner(Request(side, id, full, pos, true), n)
  {
    var after := Request(side, id, full, pos, true);
    assert after.ids[id] == full;
    if n != full {
      var o :| o in side.ids && side.ids[o] == n;
      assert after.ids[o] == n;
    }
  }

  lemma RequestOrder(side: Side, id: string, full: string, pos: Position, ok: bool)
    requires OrderMatches(side)
    ensures OrderMatches(Request(side, id, full, pos, ok))
  {
    var d := Device(full, pos);
    assert Names(side.devices + [d]) == Names(side.devices) + [full];
    assert id in side.ids ==> Names(Moved(side.devices, side.ids[id], pos)) == Names(side.devices);
  }

  lemma DistinctSnoc(names: seq<string>, n: string)
    requires Distinct(names) && n !in names
    ensures Distinct(names + [n])
  {
  }

  /** A request keeps the registration aligned, whether it goes through or not. */
  lemma RequestAligned(run: seq<Event>, side: Side, suffix: string, id: string, name: string, pos: Position, ok: bool)
    requires Registered(run, side, suffix) && UniqueNames(run) && Named(run, id, name)
    ensures Registered(run, Request(side, id, name + suffix, pos, ok), suffix)
  {
    var full := name + suffix;
    RequestOrder(side, id, full, pos, ok);
    if ok && id !in side.ids {
      OwnsOwn(run, id, name, suffix);
      NewName(run, side, suffix, id, full);
      DistinctSnoc(side.order, full);
      forall n | n in side.order + [full]
        ensures HasOwner(Request(side, id, full, pos, ok), n)
      {
        OwnersStay(side, id, full, pos, n);
      }
    } else if ok {
      forall n | n in side.order
        ensures HasOwner(Request(side, id, full, pos, ok), n)
      {
        assert HasOwner(side, n);
      }
    }
  }

  lemma SendAligned(run: seq<Event>, s: State, id: string, node: Node, refAlt: real, reply: Reply)
    requires s.hasScene && node.location.Some? && Aligned(run, s) && UniqueNames(run)
    requires Named(run, id, NodeName(id, node))
    ensures Aligned(run, Send(s, id, node, refAlt, reply))
  {
    var pos, name := Shifted(node.location.value, refAlt), NodeName(id, node);
    RequestAligned(run, s.tx, "-tx", id, name, pos, reply.tx);
    RequestAligned(run, s.rx, "-rx", id, name, pos, reply.rx);
    SendSide(s, id, node, refAlt, reply, TX);
    SendSide(s, id, node, refAlt, reply, RX);
  }

  lemma {:induction false} SyncAligned(run: seq<Event>, s: State, nodes: NodeMap, ids: seq<string>, refAlt: real,
                                       replies: map<string, Reply>, cached: bool)
    requires s.hasScene && Aligned(run, s) && UniqueNames(run)
    requires forall id :: id in ids ==> id in nodes && Named(run, id, NodeName(id, nodes[id]))
    ensures Aligned(run, SyncNodes(s, nodes, ids, refAlt, replies, cached))
    decreases |ids|
  {
    if ids != [] {
      var n := |ids| - 1;
      SyncAligned(run, s, nodes, ids[..n], refAlt, replies, cached);
      var before := SyncNodes(s, nodes, ids[..n], refAlt, replies, cached);
      var node := nodes[ids[n]];
      if node.location.Some? {
        SendAligned(run, before, ids[n], node, refAlt, ReplyTo(replies, ids[n]));
      }
    }
  }

  lemma NamedAt(run: seq<Event>, i: nat, id: string)
    requires i < |run| && run[i].Sync? && id in run[i].nodes
    ensures Named(run, id, NodeName(id, run[i].nodes[id]))
  {
  }

  lemma FreshAligned(run: seq<Event>)
    ensures Aligned(run, FRESH) && Aligned(run, FRESH.(hasScene := true))
  {
  }

  /** If no two nodes ever share a name: after every prefix of the run, whatever requests failed, the orders
      are the server's lists, no name occurs twice in one, and each name is owned by one node. */
  lemma {:induction false} AlwaysAligned(run: seq<Event>, n: nat, cached: bool)
    requires UniqueNames(run) && n <= |run|
    ensures Aligned(run, Exec(run[..n], cached))
    decreases n
  {
    FreshAligned(run);
    if n > 0 {
      AlwaysAligned(run, n - 1, cached);
      assert run[..n][..n - 1] == run[..n - 1];
      var s, e := Exec(run[..n - 1], cached), run[n - 1];
      if e.Sync? && s.hasScene {
        forall id | id in e.nodes
          ensures Named(run, id, NodeName(id, e.nodes[id]))
        {
          NamedAt(run, n - 1, id);
        }
        SyncAligned(run, s, e.nodes, SortedKeys(e.nodes.Keys), e.refAlt, e.replies, cached);
      }
    }
  }

  ghost predicate OrdersMatch(s: State) {
    OrderMatches(s.tx) && OrderMatches(s.rx)
  }

  lemma {:induction false} SyncOrders(s: State, nodes: NodeMap, ids: seq<string>, refAlt: real,
                                      replies: map<string, Reply>, cached: bool)
    requires OrdersMatch(s) && forall id :: id in ids ==> id in nodes
    ensures OrdersMatch(SyncNodes(s, nodes, ids, refAlt, replies, cached))
    decreases |ids|
  {
    if ids != [] {
      var n := |ids| - 1;
      SyncOrders(s, nodes, ids[..n], refAlt, replies, cached);
      var before := SyncNodes(s, nodes, ids[..n], refAlt, replies, cached);
      var id, node, reply := ids[n], nodes[ids[n]], ReplyTo(replies, ids[n]);
      if node.location.Some? {
        var pos, name := Shifted(node.location.value, refAlt), NodeName(id, node);
        RequestOrder(before.tx, id, name + "-tx", pos, reply.tx);
        RequestOrder(before.rx, id, name + "-rx", pos, reply.rx);
        SendSide(before, id, node, refAlt, reply, TX);
        SendSide(before, id, node, refAlt, reply, RX);
      }
    }
  }

  /** After every run, whatever requests failed and whatever the nodes are called, the client's TX and RX
      orders are the server's lists. */
  lemma {:induction false} OrdersAlwaysMatch(run: seq<Event>, cached: bool)
    ensures OrdersMatch(Exec(run, cached))
    decreases |run|
  {
    if run != [] {
      var n := |run| - 1;
      OrdersAlwaysMatch(run[..n], cached);
      var s, e := Exec(run[..n], cached), run[n];
      if e.Sync? && s.hasScene {
        SyncOrders(s, e.nodes, SortedKeys(e.nodes.Keys), e.refAlt, e.replies, cached);
      }
    }
  }

  lemma EndsInSuffix(run: seq<Event>, side: Side, suffix: string, n: string)
    requires Registered(run, side, suffix) && n in side.order
    ensures |n| >= |suffix| && n[|n| - |suffix|..] == suffix
  {
    assert HasOwner(side, n);
    var id :| id in side.ids && side.ids[id] == n;
    assert Owns(run, id, n, suffix);
  }

  lemma DistinctConcat(a: seq<string>, b: seq<string>)
    requires Distinct(a) && Distinct(b)
    requires forall i, j :: 0 <= i < |a| && 0 <= j < |b| ==> a[i] != b[j]
    ensures Distinct(a + b)
  {
  }

  lemma SidesDiffer(run: seq<Event>, tx: Side, rx: Side, a: string, b: string)
    requires Registered(run, tx, "-tx") && Registered(run, rx, "-rx") && a in tx.order && b in rx.order
    ensures a != b
  {
    EndsInSuffix(run, tx, "-tx", a);
    EndsInSuffix(run, rx, "-rx", b);
    assert a[|a| - 3..][1] == 't' && b[|b| - 3..][1] == 'r';
  }

  /** Over both lists together, no two devices of the scene have the same name. */
  lemma AllNamesDistinct(run: seq<Event>, n: nat, cached: bool)
    requires UniqueNames(run) && n <= |run|
    ensures var s := Exec(run[..n], cached); Distinct(Names(s.tx.devices) + Names(s.rx.devices))
  {
    AlwaysAligned(run, n, cached);
    var s := Exec(run[..n], cached);
    forall i, j | 0 <= i < |s.tx.order| && 0 <= j < |s.rx.order|
      ensures s.tx.order[i] != s.rx.order[j]
    {
      SidesDiffer(run, s.tx, s.rx, s.tx.order[i], s.rx.order[j]);
    }
    DistinctConcat(s.tx.order, s.rx.order);
  }

  // ----- Positions on the server --------------------------------------------------------------

  /** A device of that name exists, and it is at `pos`. */
  ghost predicate Holds(devices: seq<Device>, name: string, pos: Position) {
    (exists i :: 0 <= i < |devices| && devices[i].name == name)
    && forall i :: 0 <= i < |devices| && devices[i].name == name ==> devices[i].position == pos
  }

  ghost predicate Current(side: Side, id: string, pos: Position) {
    id in side.ids && Holds(side.devices, side.ids[id], pos)
  }

  lemma MoveHolds(devices: seq<Device>, name: string, pos: Position)
    requires name in Names(devices)
    ensures Holds(Moved(devices, name, pos), name, pos)
  {
    var i :| 0 <= i < |devices| && devices[i].name == name;
    assert Moved(devices, name, pos)[i].name == name;
  }

  lemma MoveOthers(devices: seq<Device>, name: string, pos: Position, other: string, at: Position)
    requires other != name
    ensures Holds(Moved(devices, name, pos), other, at) <==> Holds(devices, other, at)
  {
    var moved := Moved(devices, name, pos);
    assert forall i :: 0 <= i < |devices| && devices[i].name == other ==> moved[i] == devices[i];
    assert forall i :: 0 <= i < |moved| && moved[i].name == other ==> moved[i] == devices[i];
  }

  lemma AppendHolds(devices: seq<Device>, d: Device)
    requires d.name !in Names(devices)
    ensures Holds(devices + [d], d.name, d.position)
  {
    assert (devices + [d])[|devices|] == d;
    assert forall i :: 0 <= i < |devices| ==> devices[i].name == Names(devices)[i];
  }

  lemma AppendOthers(devices: seq<Device>, d: Device, other: string, at: Position)
    requires other != d.name
    ensures Holds(devices + [d], other, at) <==> Holds(devices, other, at)
  {
    var all := devices + [d];
    assert forall i :: 0 <= i < |devices| ==> all[i] == devices[i];
    assert forall i :: 0 <= i < |all| && all[i].name == other ==> i < |devices| && all[i] == devices[i];
  }

  /** A request that goes through puts the node's device at `pos`. */
  lemma RequestSent(run: seq<Event>, side: Side, suffix: string, id: string, name: string, pos: Position)
    requires Registered(run, side, suffix) && UniqueNames(run) && Named(run, id, name)
    ensures Current(Request(side, id, name + suffix, pos, true), id, pos)
  {
    var full := name + suffix;
    if id in side.ids {
      MoveHolds(side.devices, side.ids[id], pos);
    } else {
      OwnsOwn(run, id, name, suffix);
      NewName(run, side, suffix, id, full);
      AppendHolds(side.devices, Device(full, pos));
    }
  }

  /** A request for one node does not decide where another node's device is. */
  lemma RequestOthers(run: seq<Event>, side: Side, suffix: string, id: string, name: string, pos: Position, ok: bool,
                      o: string, at: Position)
    requires Registered(run, side, suffix) && UniqueNames(run) && Named(run, id, name) && o != id
    ensures Current(Request(side, id, name + suffix, pos, ok), o, at) <==> Current(side, o, at)
  {
    if ok && o in side.ids {
      OwnsOwn(run, id, name, suffix);
      if id in side.ids {
        if side.ids[id] == side.ids[o] {
          OneOwner(run, side, suffix, o, id);
        }
        MoveOthers(side.devices, side.ids[id], pos, side.ids[o], at);
      } else {
        NewName(run, side, suffix, id, name + suffix);
        AppendOthers(side.devices, Device(name + suffix, pos), side.ids[o], at);
      }
    }
  }

  lemma RequestCurrent(run: seq<Event>, side: Side, suffix: string, id: string, name: string, pos: Position, ok: bool,
                       o: string, at: Position)
    requires Registered(run, side, suffix) && UniqueNames(run) && Named(run, id, name) && (o == id ==> at == pos)
    ensures Current(Request(side, id, name + suffix, pos, ok), o, at) <==> Current(side, o, at) || (o == id && ok)
  {
    if o != id {
      RequestOthers(run, side, suffix, id, name, pos, ok, o, at);
    } else if ok {
      RequestSent(run, side, suffix, id, name, pos);
    }
  }

  /** The node's device exists, and it is over the node's place, higher by the reference altitude. */
  ghost predicate StandsAt(side: Side, id: string, loc: Position, refAlt: real) {
    id in side.ids
    && (exists i :: 0 <= i < |side.devices| && side.devices[i].name == side.ids[id])
    && forall i :: 0 <= i < |side.devices| && side.devices[i].name == side.ids[id] ==>
         var pos := side.devices[i].position;
         pos.lat == loc.lat && pos.lon == loc.lon && pos.alt - loc.alt == refAlt
  }

  lemma StandsIsCurrent(side: Side, id: string, loc: Position, refAlt: real)
    ensures StandsAt(side, id, loc, refAlt) <==> Current(side, id, Shifted(loc, refAlt))
  {
  }

  ghost predicate CurrentAt(s: State, dir: Direction, id: string, pos: Position) {
    Current(SideOf(s, dir), id, pos)
  }

  /** Sending decides about the node's own devices only: they are where it is if they were before, or if the
      request goes through. */
  lemma SendCurrent(run: seq<Event>, s: State, id: string, node: Node, refAlt: real, reply: Reply, dir: Direction,
                    o: string, at: Position)
    requires Aligned(run, s) && UniqueNames(run) && Named(run, id, NodeName(id, node))
    requires node.location.Some? && (o == id ==> at == Shifted(node.location.value, refAlt))
    ensures CurrentAt(Send(s, id, node, refAlt, reply), dir, o, at)
        <==> CurrentAt(s, dir, o, at) || (o == id && Granted(reply, dir))
  {
    var pos, name := Shifted(node.location.value, refAlt), NodeName(id, node);
    SendSide(s, id, node, refAlt, reply, dir);
    RequestCurrent(run, SideOf(s, dir), Suffix(dir), id, name, pos, Granted(reply, dir), o, at);
  }

  // ----- The position cache -------------------------------------------------------------------

  ghost predicate NoFailures(run: seq<Event>) {
    forall i :: 0 <= i < |run| && run[i].Sync? ==> forall id :: ReplyTo(run[i].replies, id) == GRANTED
  }

  ghost predicate FixedAltitude(run: seq<Event>, refAlt: real) {
    forall i :: 0 <= i < |run| && run[i].Sync? ==> run[i].refAlt == refAlt
  }

  /** Both devices of the node are at `pos`. */
  ghost predicate BothCurrent(s: State, id: string, pos: Position) {
    CurrentAt(s, TX, id, pos) && CurrentAt(s, RX, id, pos)
  }

  /** What the cache remembers is what the server has. */
  ghost predicate CacheTrue(s: State, refAlt: real) {
    forall id :: id in s.lastPositions ==> BothCurrent(s, id, Shifted(s.lastPositions[id], refAlt))
  }

  lemma SendCacheTrue(run: seq<Event>, s: State, id: string, node: Node, refAlt: real)
    requires node.location.Some? && Aligned(run, s) && UniqueNames(run)
    requires Named(run, id, NodeName(id, node)) && CacheTrue(s, refAlt)
    ensures CacheTrue(Send(s, id, node, refAlt, GRANTED), refAlt)
  {
    var sent := Send(s, id, node, refAlt, GRANTED);
    forall o | o in sent.lastPositions
      ensures BothCurrent(sent, o, Shifted(sent.lastPositions[o], refAlt))
    {
      SendCurrent(run, s, id, node, refAlt, GRANTED, TX, o, Shifted(sent.lastPositions[o], refAlt));
      SendCurrent(run, s, id, node, refAlt, GRANTED, RX, o, Shifted(sent.lastPositions[o], refAlt));
    }
  }

  lemma RequestAgain(side: Side, id: string, full: string, pos: Position, ok: bool)
    requires Current(side, id, pos)
    ensures Request(side, id, full, pos, ok) == side
  {
    assert Moved(side.devices, side.ids[id], pos) == side.devices;
  }

  /** With a true cache, skipping an unchanged position and sending it again come to the same. */
  lemma SkipIsSend(s: State, id: string, node: Node, refAlt: real)
    requires node.location.Some? && CacheTrue(s, refAlt) && Unchanged(s, id, node.location.value)
    ensures Send(s, id, node, refAlt, GRANTED) == s
  {
    var pos, name := Shifted(node.location.value, refAlt), NodeName(id, node);
    assert BothCurrent(s, id, pos);
    RequestAgain(s.tx, id, name + "-tx", pos, true);
    RequestAgain(s.rx, id, name + "-rx", pos, true);
    assert s.lastPositions[id := node.location.value] == s.lastPositions;
  }

  lemma NodeRefines(s: State, id: string, node: Node, refAlt: real)
    requires node.location.Some? && CacheTrue(s, refAlt)
    ensures SyncNode(s, id, node, refAlt, GRANTED, true) == SyncNode(s, id, node, refAlt, GRANTED, false)
  {
    if Unchanged(s, id, node.location.value) {
      SkipIsSend(s, id, node, refAlt);
    }
  }

  lemma {:induction false} SyncRefines(run: seq<Event>, s: State, nodes: NodeMap, ids: seq<string>, refAlt: real,
                                       replies: map<string, Reply>)
    requires s.hasScene && Aligned(run, s) && UniqueNames(run) && CacheTrue(s, refAlt)
    requires forall id :: id in ids ==> id in nodes && Named(run, id, NodeName(id, nodes[id]))
    requires forall id :: ReplyTo(replies, id) == GRANTED
    ensures SyncNodes(s, nodes, ids, refAlt, replies, true) == SyncNodes(s, nodes, ids, refAlt, replies, false)
    ensures CacheTrue(SyncNodes(s, nodes, ids, refAlt, replies, true), refAlt)
    decreases |ids|
  {
    if ids != [] {
      var n := |ids| - 1;
      SyncRefines(run, s, nodes, ids[..n], refAlt, replies);
      SyncAligned(run, s, nodes, ids[..n], refAlt, replies, true);
      var before := SyncNodes(s, nodes, ids[..n], refAlt, replies, true);
      if nodes[ids[n]].location.Some? {
        NodeRefines(before, ids[n], nodes[ids[n]], refAlt);
        SendCacheTrue(run, before, ids[n], nodes[ids[n]], refAlt);
      }
    }
  }

  /** After a synchronisation the cache holds the position of every located node. */
  lemma {:induction false} SyncRemembers(s: State, nodes: NodeMap, ids: seq<string>, refAlt: real,
                                         replies: map<string, Reply>, id: string)
    requires (forall o :: o in ids ==> o in nodes) && id in ids && nodes[id].location.Some?
    ensures Unchanged(SyncNodes(s, nodes, ids, refAlt, replies, true), id, nodes[id].location.value)
    decreases |ids|
  {
    var n := |ids| - 1;
    if ids[n] != id {
      assert id in ids[..n];
      SyncRemembers(s, nodes, ids[..n], refAlt, replies, id);
    }
  }

  /** On runs without failed requests and with a fixed reference altitude, the client with the cache and
      one that always sends are in the same state, the server's included, after every event. */
  lemma {:induction false} CacheRefinesAlwaysSend(run: seq<Event>, n: nat, refAlt: real)
    requires UniqueNames(run) && NoFailures(run) && FixedAltitude(run, refAlt) && n <= |run|
    ensures Exec(run[..n], true) == Exec(run[..n], false)
    ensures CacheTrue(Exec(run[..n], true), refAlt)
    decreases n
  {
    if n > 0 {
      CacheRefinesAlwaysSend(run, n - 1, refAlt);
      AlwaysAligned(run, n - 1, true);
      assert run[..n][..n - 1] == run[..n - 1];
      var s, e := Exec(run[..n - 1], true), run[n - 1];
      if e.Sync? && s.hasScene {
        forall id | id in e.nodes
          ensures Named(run, id, NodeName(id, e.nodes[id]))
        {
          NamedAt(run, n - 1, id);
        }
        SyncRefines(run, s, e.nodes, SortedKeys(e.nodes.Keys), refAlt, e.replies);
      }
    }
  }

  /** On such runs, right after each synchronisation both devices of every located node are where the
      node is. */
  lemma LocatedNodesCurrent(run: seq<Event>, n: nat, refAlt: real, id: string)
    requires UniqueNames(run) && NoFailures(run) && FixedAltitude(run, refAlt) && n < |run|
    requires run[n].Sync? && Exec(run[..n], true).hasScene
    requires id in run[n].nodes && run[n].nodes[id].location.Some?
    ensures var s, loc := Exec(run[..n + 1], true), run[n].nodes[id].location.value;
            StandsAt(s.tx, id, loc, refAlt) && StandsAt(s.rx, id, loc, refAlt)
  {
    CacheRefinesAlwaysSend(run, n + 1, refAlt);
    assert run[..n + 1][..n] == run[..n];
    var s, e := Exec(run[..n], true), run[n];
    SyncRemembers(s, e.nodes, SortedKeys(e.nodes.Keys), refAlt, e.replies, id);
    var after, loc := Exec(run[..n + 1], true), e.nodes[id].location.value;
    assert BothCurrent(after, id, Shifted(loc, refAlt));
    StandsIsCurrent(after.tx, id, loc, refAlt);
    StandsIsCurrent(after.rx, id, loc, refAlt);
  }

  /** After every run without shared names, each device is called after a name that its node had in some
      synchronisation, or after the node's id where that was empty. */
  lemma DeviceNames(run: seq<Event>, cached: bool, dir: Direction, id: string) returns (k: nat)
    requires UniqueNames(run) && id in SideOf(Exec(run, cached), dir).ids
    ensures k < |run| && run[k].Sync? && id in run[k].nodes
    ensures var name := run[k].nodes[id].name;
            SideOf(Exec(run, cached), dir).ids[id]
            == (if name == "" then id else name) + (if dir == TX then "-tx" else "-rx")
  {
    assert run[..|run|] == run;
    AlwaysAligned(run, |run|, cached);
    k := OwnedName(run, SideOf(Exec(run, cached), dir), Suffix(dir), id);
  }

  lemma OwnedName(run: seq<Event>, side: Side, suffix: string, id: string) returns (k: nat)
    requires Registered(run, side, suffix) && id in side.ids
    ensures k < |run| && run[k].Sync? && id in run[k].nodes
    ensures side.ids[id] == (if run[k].nodes[id].name == "" then id else run[k].nodes[id].name) + suffix
  {
    var full := side.ids[id];
    assert Owns(run, id, full, suffix);
    k := NameTime(run, id, full[..|full| - |suffix|]);
    assert full == full[..|full| - |suffix|] + full[|full| - |suffix|..];
  }

  lemma NameTime(run: seq<Event>, id: string, name: string) returns (k: nat)
    requires Named(run, id, name)
    ensures k < |run| && run[k].Sync? && id in run[k].nodes
    ensures name == if run[k].nodes[id].name == "" then id else run[k].nodes[id].name
  {
    k :| 0 <= k < |run| && run[k].Sync? && id in run[k].nodes && NodeName(id, run[k].nodes[id]) == name;
  }
}
