/** The Sionna extension object: its fields as `syncPositions` and `onStop` update them, and the channel
    updates that `computeAndApplyCIR` derives from them. */
module SionnaClient {
  import opened Outcomes
  import opened KeyOrder
  import opened SionnaSync

  // ----- The server's answer and the updates made from it -------------------------------------

  /** The paths of one TX-RX pair. */
  datatype Cir = Cir(delays: seq<real>, re: seq<real>, im: seq<real>)

  /** `cells[(r, t)]` holds the paths from transmitter `t` to receiver `r` of the server's lists; a missing
      cell is one whose extraction throws. */
  datatype Response = Response(numRx: int, numTx: int, cells: map<(nat, nat), Cir>)

  /** The scene on the server. */
  datatype Scene = Scene(tx: seq<Device>, rx: seq<Device>)

  /** One `updateCIR(src, dest)` with the data it uses. */
  datatype Update = Update(src: string, dest: string, rx: nat, tx: nat, cir: Cir)

  /** The reverse lookup from device name to node id; a later id overwrites an earlier one. */
  function Reverse(m: map<string, string>, ids: seq<string>): map<string, string>
    requires forall id :: id in ids ==> id in m
  {
    if ids == [] then
      map[]
    else
      var n := |ids| - 1;
      Reverse(m, ids[..n])[m[ids[n]] := ids[n]]
  }

  lemma ReverseSnoc(m: map<string, string>, ids: seq<string>, i: nat)
    requires (forall id :: id in ids ==> id in m) && i < |ids|
    ensures Reverse(m, ids[..i + 1]) == Reverse(m, ids[..i])[m[ids[i]] := ids[i]]
  {
    assert ids[..i + 1][..i] == ids[..i];
  }

  function ReverseOf(m: map<string, string>): map<string, string> {
    Reverse(m, SortedKeys(m.Keys))
  }

  /** The node ids by device name, as they are looked up in the loops. */
  datatype Owners = Owners(tx: map<string, string>, rx: map<string, string>)

  function OwnersOf(s: State): Owners {
    Owners(ReverseOf(s.tx.ids), ReverseOf(s.rx.ids))
  }

  /** The body of the two nested loops. */
  function PairUpdate(s: State, own: Owners, resp: Response, r: nat, t: nat): seq<Update>
    requires r < |s.rx.order| && t < |s.tx.order|
  {
    if s.tx.order[t] !in own.tx || s.rx.order[r] !in own.rx then
      []
    else
      var src, dest := own.tx[s.tx.order[t]], own.rx[s.rx.order[r]];
      if src == dest || (r, t) !in resp.cells || resp.cells[(r, t)].delays == [] then
        []
      else
        [Update(src, dest, r, t, resp.cells[(r, t)])]
  }

  function RowUpdates(s: State, own: Owners, resp: Response, r: nat, t: nat): seq<Update>
    requires r < |s.rx.order| && t <= |s.tx.order|
    decreases t
  {
    if t == 0 then [] else RowUpdates(s, own, resp, r, t - 1) + PairUpdate(s, own, resp, r, t - 1)
  }

  /** Both indices are limited by the answer's shape and by the registration order. */
  function Limit(num: int, order: seq<string>): (n: nat)
    ensures n <= |order|
  {
    if num < 0 then 0 else if num < |order| then num else |order|
  }

  function Updates(s: State, own: Owners, resp: Response, r: nat): seq<Update>
    requires r <= |s.rx.order|
    decreases r
  {
    if r == 0 then
      []
    else
      Updates(s, own, resp, r - 1) + RowUpdates(s, own, resp, r - 1, Limit(resp.numTx, s.tx.order))
  }

  function AllUpdates(s: State, resp: Response): seq<Update> {
    if !s.hasScene || s.tx.ids == map[] || s.rx.ids == map[] then
      []
    else
      Updates(s, OwnersOf(s), resp, Limit(resp.numRx, s.rx.order))
  }

  // ----- The object ---------------------------------------------------------------------------

  class SionnaExtension {
    var scene: Option<Scene>
    var txMap: map<string, string>
    var rxMap: map<string, string>
    var txOrder: seq<string>
    var rxOrder: seq<string>
    var lastPositions: map<string, Position>

    /** The server lists devices in the order of their registration; no list without a scene. */
    function Snapshot(): State
      reads this
    {
      var listed := if scene.Some? then scene.value else Scene([], []);
      State(scene.Some?, Side(txMap, txOrder, listed.tx), Side(rxMap, rxOrder, listed.rx), lastPositions)
    }

    constructor ()
      ensures Snapshot() == FRESH
    {
      scene, txMap, rxMap, txOrder, rxOrder, lastPositions := None, map[], map[], [], [], map[];
    }

    /** The scene loop of `pollLoop`: a new scene is created only while there is none. */
    method EnsureScene(created: bool)
      modifies this
      ensures Snapshot() == Step(old(Snapshot()), CreateScene(created), true)
    {
      if scene.None? && created {
        scene := Some(Scene([], []));
      }
    }

    method SyncPositions(nodes: NodeMap, refAlt: real, replies: map<string, Reply>)
      modifies this
      ensures Snapshot() == Step(old(Snapshot()), Sync(nodes, refAlt, replies), true)
    {
      if scene.None? {
        return;
      }
      SyncAll(nodes, SortedKeys(nodes.Keys), refAlt, replies);
    }

    method SyncAll(nodes: NodeMap, ids: seq<string>, refAlt: real, replies: map<string, Reply>)
      requires scene.Some? && forall id :: id in ids ==> id in nodes
      modifies this
      ensures Snapshot() == SyncNodes(old(Snapshot()), nodes, ids, refAlt, replies, true)
    {
      ghost var start := Snapshot();
      for i := 0 to |ids|
        invariant scene.Some?
        invariant Snapshot() == SyncNodes(start, nodes, ids[..i], refAlt, replies, true)
      {
        SyncNodesSnoc(start, nodes, ids, refAlt, replies, true, i);
        SyncOne(ids[i], nodes[ids[i]], refAlt, ReplyTo(replies, ids[i]));
      }
      assert ids[..|ids|] == ids;
    }

    method SyncOne(id: string, node: Node, refAlt: real, reply: Reply)
      requires scene.Some?
      modifies this
      ensures scene.Some? && Snapshot() == SyncNode(old(Snapshot()), id, node, refAlt, reply, true)
    {
      if node.location.None? {
        return;
      }
      var loc := node.location.value;
      if id in lastPositions && lastPositions[id] == loc {
        return;
      }
      var name := if node.name == "" then id else node.name;
      var pos := Position(loc.lat, loc.lon, loc.alt + refAlt);
      SendTx(id, name, pos, reply.tx);
      SendRx(id, name, pos, reply.rx);
      lastPositions := lastPositions[id := loc];
    }

    /** POST of a new transmitter, or PUT of a known one's position. */
    method SendTx(id: string, name: string, pos: Position, ok: bool)
      requires scene.Some?
      modifies this
      ensures scene.Some? && Snapshot() == SyncSide(old(Snapshot()), TX, id, name, pos, ok)
    {
      if ok {
        if id !in txMap {
          var txName := name + "-tx";
          scene := Some(Scene(scene.value.tx + [Device(txName, pos)], scene.value.rx));
          txMap := txMap[id := txName];
          txOrder := txOrder + [txName];
        } else {
          scene := Some(Scene(Moved(scene.value.tx, txMap[id], pos), scene.value.rx));
        }
      }
    }

    /** The same for the receiver. */
    method SendRx(id: string, name: string, pos: Position, ok: bool)
      requires scene.Some?
      modifies this
      ensures scene.Some? && Snapshot() == SyncSide(old(Snapshot()), RX, id, name, pos, ok)
    {
      if ok {
        if id !in rxMap {
          var rxName := name + "-rx";
          scene := Some(Scene(scene.value.tx, scene.value.rx + [Device(rxName, pos)]));
          rxMap := rxMap[id := rxName];
          rxOrder := rxOrder + [rxName];
        } else {
          scene := Some(Scene(scene.value.tx, Moved(scene.value.rx, rxMap[id], pos)));
        }
      }
    }

    /** The clearing part of `onStop`. */
    method Clear()
      modifies this
      ensures Snapshot() == Step(old(Snapshot()), Stop, true)
    {
      scene := None;
      txMap, rxMap := map[], map[];
      txOrder, rxOrder := [], [];
      lastPositions := map[];
    }

    method BuildReverse(m: map<string, string>) returns (ids: map<string, string>)
      ensures ids == ReverseOf(m)
    {
      ids := map[];
      var keys := SortedKeys(m.Keys);
      for i := 0 to |keys|
        invariant ids == Reverse(m, keys[..i])
      {
        ReverseSnoc(m, keys, i);
        ids := ids[m[keys[i]] := keys[i]];
      }
      assert keys[..|keys|] == keys;
    }

    /** The loops of `computeAndApplyCIR` over an answer of the server. */
    method ApplyCir(resp: Response) returns (updates: seq<Update>)
      ensures updates == AllUpdates(Snapshot(), resp)
    {
      updates := [];
      if scene.None? || txMap == map[] || rxMap == map[] {
        return;
      }
      var txIds := BuildReverse(txMap);
      var rxIds := BuildReverse(rxMap);
      updates := ApplyRows(resp, Owners(txIds, rxIds));
    }

    method ApplyRows(resp: Response, own: Owners) returns (updates: seq<Update>)
      ensures updates == Updates(Snapshot(), own, resp, Limit(resp.numRx, rxOrder))
    {
      updates := [];
      var r := 0;
      while r < resp.numRx && r < |rxOrder|
        invariant 0 <= r <= Limit(resp.numRx, rxOrder)
        invariant updates == Updates(Snapshot(), own, resp, r)
      {
        var row := ApplyRow(resp, r, own);
        UpdatesStep(Snapshot(), own, resp, r);
        updates := updates + row;
        r := r + 1;
      }
    }

    method ApplyRow(resp: Response, r: nat, own: Owners) returns (row: seq<Update>)
      requires r < |rxOrder|
      ensures row == RowUpdates(Snapshot(), own, resp, r, Limit(resp.numTx, txOrder))
    {
      row := [];
      var t := 0;
      while t < resp.numTx && t < |txOrder|
        invariant 0 <= t <= Limit(resp.numTx, txOrder)
        invariant row == RowUpdates(Snapshot(), own, resp, r, t)
      {
        if txOrder[t] in own.tx && rxOrder[r] in own.rx {
          var src, dest := own.tx[txOrder[t]], own.rx[rxOrder[r]];
          if src != dest && (r, t) in resp.cells && resp.cells[(r, t)].delays != [] {
            row := row + [Update(src, dest, r, t, resp.cells[(r, t)])];
          }
        }
        t := t + 1;
      }
    }
  }

  // ----- What the updates are -----------------------------------------------------------------

  lemma {:induction false} ReverseInverts(m: map<string, string>, ids: seq<string>)
    requires (forall id :: id in ids ==> id in m) && forall a, b :: a in m && b in m && m[a] == m[b] ==> a == b
    ensures forall name :: name in Reverse(m, ids) <==> exists id :: id in ids && m[id] == name
    ensures forall name :: name in Reverse(m, ids) ==> Reverse(m, ids)[name] in ids && m[Reverse(m, ids)[name]] == name
    decreases |ids|
  {
    if ids != [] {
      var n := |ids| - 1;
      ReverseInverts(m, ids[..n]);
      assert forall id :: id in ids <==> id in ids[..n] || id == ids[n];
    }
  }

  /** `ids` gives the one node that owns the name at place `i`. */
  ghost predicate OwnerFound(side: Side, ids: map<string, string>, i: nat)
    requires i < |side.order|
  {
    var name := side.order[i];
    name in ids && ids[name] in side.ids && side.ids[ids[name]] == name
    && forall id :: id in side.ids && side.ids[id] == name ==> id == ids[name]
  }

  /** With aligned registrations, the reverse lookup finds the node that owns each name. */
  lemma ReverseOwner(run: seq<Event>, side: Side, suffix: string, i: nat)
    requires Registered(run, side, suffix) && UniqueNames(run) && i < |side.order|
    ensures OwnerFound(side, ReverseOf(side.ids), i)
  {
    forall a, b | a in side.ids && b in side.ids && side.ids[a] == side.ids[b]
      ensures a == b
    {
      OneOwner(run, side, suffix, a, b);
    }
    ReverseInverts(side.ids, SortedKeys(side.ids.Keys));
    assert side.order[i] in side.order && HasOwner(side, side.order[i]);
    var id :| id in side.ids && side.ids[id] == side.order[i];
    assert id in SortedKeys(side.ids.Keys);
  }

  /** The update is for the transmitter `src` and the receiver `dest`, at exactly the places those devices
      have in the server's lists, and never for a node with itself. */
  ghost predicate OwnIndices(s: State, resp: Response, u: Update) {
    s.hasScene && u.src in s.tx.ids && u.dest in s.rx.ids && u.src != u.dest
    && u.tx < |s.tx.devices| && u.rx < |s.rx.devices|
    && (forall i :: 0 <= i < |s.tx.devices| ==> (s.tx.devices[i].name == s.tx.ids[u.src] <==> i == u.tx))
    && (forall i :: 0 <= i < |s.rx.devices| ==> (s.rx.devices[i].name == s.rx.ids[u.dest] <==> i == u.rx))
    && u.tx < resp.numTx && u.rx < resp.numRx
    && (u.rx, u.tx) in resp.cells && u.cir == resp.cells[(u.rx, u.tx)] && u.cir.delays != []
  }

  lemma OnlyIndex(devices: seq<Device>, names: seq<string>, i: nat)
    requires names == Names(devices) && Distinct(names) && i < |names|
    ensures forall j :: 0 <= j < |devices| ==> (devices[j].name == names[i] <==> j == i)
  {
    assert forall j :: 0 <= j < |devices| ==> devices[j].name == names[j];
  }

  ghost predicate PairOk(s: State, own: Owners, resp: Response, r: nat, t: nat)
    requires r < |s.rx.order| && t < |s.tx.order|
  {
    var pair := PairUpdate(s, own, resp, r, t);
    pair == [] || (|pair| == 1 && OwnIndices(s, resp, pair[0]) && pair[0].rx == r && pair[0].tx == t)
  }

  lemma PairSound(run: seq<Event>, s: State, resp: Response, r: nat, t: nat)
    requires Aligned(run, s) && UniqueNames(run) && s.hasScene
    requires r < Limit(resp.numRx, s.rx.order) && t < Limit(resp.numTx, s.tx.order)
    ensures PairOk(s, OwnersOf(s), resp, r, t)
  {
    ReverseOwner(run, s.tx, "-tx", t);
    ReverseOwner(run, s.rx, "-rx", r);
    OnlyIndex(s.tx.devices, s.tx.order, t);
    OnlyIndex(s.rx.devices, s.rx.order, r);
    PairOfOwners(s, OwnersOf(s), resp, r, t);
  }

  lemma PairOfOwners(s: State, own: Owners, resp: Response, r: nat, t: nat)
    requires s.hasScene && OrderMatches(s.tx) && OrderMatches(s.rx)
    requires r < Limit(resp.numRx, s.rx.order) && t < Limit(resp.numTx, s.tx.order)
    requires OwnerFound(s.tx, own.tx, t) && OwnerFound(s.rx, own.rx, r)
    requires forall j :: 0 <= j < |s.tx.devices| ==> (s.tx.devices[j].name == s.tx.order[t] <==> j == t)
    requires forall j :: 0 <= j < |s.rx.devices| ==> (s.rx.devices[j].name == s.rx.order[r] <==> j == r)
    ensures PairOk(s, own, resp, r, t)
  {
  }

  ghost predicate AllPairsOk(s: State, own: Owners, resp: Response) {
    forall r, t :: 0 <= r < Limit(resp.numRx, s.rx.order) && 0 <= t < Limit(resp.numTx, s.tx.order) ==>
      PairOk(s, own, resp, r, t)
  }

  /** Updates are made in the order of the server's lists, receivers first. */
  ghost predicate InOrder(us: seq<Update>) {
    forall i, j :: 0 <= i < j < |us| ==> us[i].rx < us[j].rx || (us[i].rx == us[j].rx && us[i].tx < us[j].tx)
  }

  /** The updates in `us` are sound, in order, and before row `r`, or in row `r` before column `t`. */
  ghost predicate Sound(s: State, resp: Response, us: seq<Update>, r: nat, t: nat) {
    InOrder(us)
    && forall i :: 0 <= i < |us| ==>
         OwnIndices(s, resp, us[i]) && (us[i].rx < r || (us[i].rx == r && us[i].tx < t))
  }

  lemma {:induction false} RowSound(s: State, own: Owners, resp: Response, r: nat, t: nat, before: seq<Update>)
    requires AllPairsOk(s, own, resp) && r < Limit(resp.numRx, s.rx.order) && t <= Limit(resp.numTx, s.tx.order)
    requires Sound(s, resp, before, r, 0)
    ensures Sound(s, resp, before + RowUpdates(s, own, resp, r, t), r, t)
    decreases t
  {
    if t == 0 {
      assert before + [] == before;
    } else {
      RowSound(s, own, resp, r, t - 1, before);
      assert PairOk(s, own, resp, r, t - 1);
      AppendSound(s, resp, before + RowUpdates(s, own, resp, r, t - 1), PairUpdate(s, own, resp, r, t - 1), r, t - 1);
      RowStep(s, own, resp, r, t - 1, before);
    }
  }

  lemma RowStep(s: State, own: Owners, resp: Response, r: nat, t: nat, before: seq<Update>)
    requires r < |s.rx.order| && t < |s.tx.order|
    ensures before + RowUpdates(s, own, resp, r, t + 1)
         == before + RowUpdates(s, own, resp, r, t) + PairUpdate(s, own, resp, r, t)
  {
    var row, pair := RowUpdates(s, own, resp, r, t), PairUpdate(s, own, resp, r, t);
    assert RowUpdates(s, own, resp, r, t + 1) == row + pair;
    assert before + (row + pair) == before + row + pair;
  }

  lemma AppendSound(s: State, resp: Response, us: seq<Update>, pair: seq<Update>, r: nat, t: nat)
    requires Sound(s, resp, us, r, t)
    requires pair == [] || (|pair| == 1 && OwnIndices(s, resp, pair[0]) && pair[0].rx == r && pair[0].tx == t)
    ensures Sound(s, resp, us + pair, r, t + 1)
  {
    var all := us + pair;
    assert forall i :: 0 <= i < |us| ==> all[i] == us[i];
    assert forall i :: |us| <= i < |all| ==> all[i] == pair[0];
  }

  lemma NextRow(s: State, resp: Response, us: seq<Update>, r: nat, t: nat)
    requires Sound(s, resp, us, r, t)
    ensures Sound(s, resp, us, r + 1, 0)
  {
  }

  lemma WholeRowSound(s: State, own: Owners, resp: Response, r: nat, before: seq<Update>)
    requires AllPairsOk(s, own, resp) && r < Limit(resp.numRx, s.rx.order) && Sound(s, resp, before, r, 0)
    ensures Sound(s, resp, before + RowUpdates(s, own, resp, r, Limit(resp.numTx, s.tx.order)), r + 1, 0)
  {
    var t := Limit(resp.numTx, s.tx.order);
    var row := RowUpdates(s, own, resp, r, t);
    RowSound(s, own, resp, r, t, before);
    NextRow(s, resp, before + row, r, t);
  }

  lemma UpdatesStep(s: State, own: Owners, resp: Response, r: nat)
    requires r < |s.rx.order|
    ensures Updates(s, own, resp, r + 1)
            == Updates(s, own, resp, r) + RowUpdates(s, own, resp, r, Limit(resp.numTx, s.tx.order))
  {
  }

  lemma {:induction false} UpdatesSound(s: State, own: Owners, resp: Response, r: nat)
    requires AllPairsOk(s, own, resp) && r <= Limit(resp.numRx, s.rx.order)
    ensures Sound(s, resp, Updates(s, own, resp, r), r, 0)
    decreases r
  {
    if r > 0 {
      UpdatesSound(s, own, resp, r - 1);
      WholeRowSound(s, own, resp, r - 1, Updates(s, own, resp, r - 1));
      UpdatesStep(s, own, resp, r - 1);
    }
  }

  /** In every reachable state, whatever the server answers, each update uses the data at exactly the
      indices of its transmitter and receiver, never a self-link, and no link is updated twice. */
  lemma UpdatesUseOwnIndices(run: seq<Event>, n: nat, resp: Response)
    requires UniqueNames(run) && n <= |run|
    ensures var s := Exec(run[..n], true);
            var us := AllUpdates(s, resp);
            (forall u :: u in us ==> OwnIndices(s, resp, u))
            && forall i, j :: 0 <= i < j < |us| ==> us[i].src != us[j].src || us[i].dest != us[j].dest
  {
    AlwaysAligned(run, n, true);
    var s := Exec(run[..n], true);
    if s.hasScene {
      forall r, t | 0 <= r < Limit(resp.numRx, s.rx.order) && 0 <= t < Limit(resp.numTx, s.tx.order)
        ensures PairOk(s, OwnersOf(s), resp, r, t)
      {
        PairSound(run, s, resp, r, t);
      }
      UpdatesSound(s, OwnersOf(s), resp, Limit(resp.numRx, s.rx.order));
      var us := AllUpdates(s, resp);
      forall i, j | 0 <= i < j < |us|
        ensures us[i].src != us[j].src || us[i].dest != us[j].dest
      {
        assert OwnIndices(s, resp, us[i]) && OwnIndices(s, resp, us[j]);
        assert s.tx.devices[us[i].tx].name == s.tx.ids[us[i].src];
        assert s.rx.devices[us[i].rx].name == s.rx.ids[us[i].dest];
      }
    }
  }

  lemma {:induction false} PairInRow(s: State, own: Owners, resp: Response, r: nat, t: nat, n: nat, u: Update)
    requires r < |s.rx.order| && t < n <= |s.tx.order| && u in PairUpdate(s, own, resp, r, t)
    ensures u in RowUpdates(s, own, resp, r, n)
    decreases n
  {
    if t < n - 1 {
      PairInRow(s, own, resp, r, t, n - 1, u);
    }
  }

  lemma {:induction false} PairInUpdates(s: State, own: Owners, resp: Response, r: nat, t: nat, n: nat, u: Update)
    requires r < n <= |s.rx.order| && t < Limit(resp.numTx, s.tx.order) && u in PairUpdate(s, own, resp, r, t)
    ensures u in Updates(s, own, resp, n)
    decreases n
  {
    var row := RowUpdates(s, own, resp, n - 1, Limit(resp.numTx, s.tx.order));
    if r < n - 1 {
      PairInUpdates(s, own, resp, r, t, n - 1, u);
    } else {
      PairInRow(s, own, resp, r, t, Limit(resp.numTx, s.tx.order), u);
    }
    InConcat(u, Updates(s, own, resp, n - 1), row);
    UpdatesStep(s, own, resp, n - 1);
  }

  lemma InConcat(u: Update, a: seq<Update>, b: seq<Update>)
    requires u in a || u in b
    ensures u in a + b
  {
  }

  /** Conversely, the link from every registered transmitter to every other node's registered receiver is
      updated if the answer covers their places. */
  lemma CoveredLinksUpdated(run: seq<Event>, s: State, resp: Response, src: string, dest: string, r: nat, t: nat)
    requires UniqueNames(run) && Aligned(run, s) && s.hasScene
    requires src in s.tx.ids && dest in s.rx.ids && src != dest
    requires r < |s.rx.order| && s.rx.order[r] == s.rx.ids[dest] && r < resp.numRx
    requires t < |s.tx.order| && s.tx.order[t] == s.tx.ids[src] && t < resp.numTx
    requires (r, t) in resp.cells && resp.cells[(r, t)].delays != []
    ensures Update(src, dest, r, t, resp.cells[(r, t)]) in AllUpdates(s, resp)
  {
    var u, own := Update(src, dest, r, t, resp.cells[(r, t)]), OwnersOf(s);
    ReverseOwner(run, s.tx, "-tx", t);
    ReverseOwner(run, s.rx, "-rx", r);
    PairOfLink(s, own, resp, u);
    PairInUpdates(s, own, resp, r, t, Limit(resp.numRx, s.rx.order), u);
  }

  lemma PairOfLink(s: State, own: Owners, resp: Response, u: Update)
    requires u.rx < |s.rx.order| && OwnerFound(s.rx, own.rx, u.rx) && u.dest in s.rx.ids
    requires u.tx < |s.tx.order| && OwnerFound(s.tx, own.tx, u.tx) && u.src in s.tx.ids && u.src != u.dest
    requires s.rx.order[u.rx] == s.rx.ids[u.dest] && s.tx.order[u.tx] == s.tx.ids[u.src]
    requires (u.rx, u.tx) in resp.cells && resp.cells[(u.rx, u.tx)] == u.cir && u.cir.delays != []
    ensures u in PairUpdate(s, own, resp, u.rx, u.tx)
  {
  }
}
