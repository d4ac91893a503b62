/** The simulated mesh of `services/NodeManager.ts`: a map from node id to
    `NodeState`, driven by remote messages (gossip of known peers, flooded data
    messages), origin broadcasts and a periodic maintenance tick.

    A node's only memory of the data messages it has handled is its log of the
    50 newest entries: a data message counts as already seen when the text of
    some log entry contains its id. What the manager hands to the connector is
    appended to `sent`. Clock readings and random draws are parameters. */
module Mesh {
  import opened Seqs
  import opened Strings
  import opened MeshTypes

  /** `addLog` keeps the 50 newest entries. */
  const LogCap := 50
  /** A node starts with at most three seed ids. */
  const SeedCount := 3

  /** One `remoteConnector.send(from, to, msg)`. */
  datatype Send = Send(from: NodeId, to: NodeId, msg: P2PMessage)

  /** The random draws of one node's tick: whether the 5% drop fires, and,
      modulo the length of the list drawn from, which peer to drop, which
      known peer to connect and which peer to gossip to. */
  datatype TickChoice = TickChoice(drop: bool, dropAt: nat, pickAt: nat, gossipAt: nat)

  // ---------------------------------------------------------------------
  // Seeding

  /** The generated id for the number `n`: `node-` and `n` padded to two
      digits. */
  function NodeName(n: nat): NodeId {
    "node-" + PadStart(NatToDecimal(n), 2, '0')
  }

  /** Below 100 an id is `node-` followed by the two decimal digits of `n`. */
  lemma NodeNameTwoDigits(n: nat)
    requires n < 100
    ensures NodeName(n) == "node-" + [Digit(n / 10), Digit(n % 10)]
  {
    if n < 10 {
      assert NatToDecimal(n) == [Digit(n)];
      assert PadStart([Digit(n)], 2, '0') == ['0', Digit(n)];
    } else {
      assert NatToDecimal(n / 10) == [Digit(n / 10)];
    }
  }

  /** The ids of the simulated nodes, `node-01` to `node-30`. */
  function NodeIds(): seq<NodeId> {
    seq(NodeCount, i requires 0 <= i < NodeCount => NodeName(i + 1))
  }

  /** Different numbers below 100 get different ids. */
  lemma NodeNameInjective(a: nat, b: nat)
    requires a < 100 && b < 100 && NodeName(a) == NodeName(b)
    ensures a == b
  {
    NodeNameTwoDigits(a);
    NodeNameTwoDigits(b);
    assert Digit(a / 10) == NodeName(a)[5] == Digit(b / 10);
    assert Digit(a % 10) == NodeName(a)[6] == Digit(b % 10);
  }

  /** The generated ids are pairwise distinct. */
  lemma NodeIdsDistinct()
    ensures |NodeIds()| == NodeCount && NoDup(NodeIds())
  {
    var ids := NodeIds();
    forall i, j | 0 <= i < j < NodeCount ensures ids[i] != ids[j] {
      assert ids[i] == NodeName(i + 1) && ids[j] == NodeName(j + 1);
      if NodeName(i + 1) == NodeName(j + 1) {
        NodeNameInjective(i + 1, j + 1);
      }
    }
  }

  /** A node's seed list: the first three of the other ids in the random
      order `shuffled`. */
  function Seeds(shuffled: seq<NodeId>): seq<NodeId> {
    Take(shuffled, SeedCount)
  }

  /** When `shuffled` reorders the ids other than `ids[i]`, the seed list of
      `ids[i]` has at most three distinct ids, all of other nodes. */
  lemma SeedsSpec(ids: seq<NodeId>, i: nat, shuffled: seq<NodeId>)
    requires i < |ids| && NoDup(ids)
    requires multiset(shuffled) == multiset(Minus(ids, [ids[i]]))
    ensures var seeds := Seeds(shuffled);
      && |seeds| <= SeedCount && NoDup(seeds) && ids[i] !in seeds
      && forall s :: s in seeds ==> s in ids
  {
    var others := Minus(ids, [ids[i]]);
    NoDupPermutation(others, shuffled);
    forall s | s in Seeds(shuffled) ensures s in ids && s != ids[i] {
      assert s in multiset(shuffled);
      assert s in multiset(others);
    }
  }

  /** The state a node starts in. */
  function InitialState(id: NodeId, seeds: seq<NodeId>, now: int): NodeState {
    NodeState(id, Online, [], seeds, [], now, None)
  }

  /** The nodes of `ids[..i]` in their initial states, each well formed. */
  ghost predicate InitialUpTo(m: map<NodeId, NodeState>, ids: seq<NodeId>, shuffled: seq<seq<NodeId>>, now: int, i: nat)
    requires i <= |ids| <= |shuffled|
  {
    && (forall k :: k in m <==> k in ids[..i])
    && (forall j :: 0 <= j < i ==> ids[j] in m && m[ids[j]] == InitialState(ids[j], Seeds(shuffled[j]), now))
    && (forall k :: k in m ==> NodeOk(k, m[k]))
  }

  /** Adding the next node keeps `InitialUpTo`. */
  lemma InitStep(m: map<NodeId, NodeState>, ids: seq<NodeId>, shuffled: seq<seq<NodeId>>, now: int, i: nat)
    requires i < |ids| <= |shuffled| && NoDup(ids)
    requires NodeOk(ids[i], InitialState(ids[i], Seeds(shuffled[i]), now))
    requires InitialUpTo(m, ids, shuffled, now, i)
    ensures InitialUpTo(m[ids[i] := InitialState(ids[i], Seeds(shuffled[i]), now)], ids, shuffled, now, i + 1)
  {
    var id := ids[i];
    var m' := m[id := InitialState(id, Seeds(shuffled[i]), now)];
    assert ids[..i + 1] == ids[..i] + [id];
    assert id !in ids[..i];
    forall j | 0 <= j < i + 1
      ensures ids[j] in m' && m'[ids[j]] == InitialState(ids[j], Seeds(shuffled[j]), now)
    {
      if j < i {
        assert ids[j] != id;
      }
    }
  }

  /** A node's initial state is well formed. */
  lemma InitialStateOk(ids: seq<NodeId>, i: nat, shuffled: seq<NodeId>, now: int)
    requires i < |ids| && NoDup(ids)
    requires multiset(shuffled) == multiset(Minus(ids, [ids[i]]))
    ensures NodeOk(ids[i], InitialState(ids[i], Seeds(shuffled), now))
  {
    SeedsSpec(ids, i, shuffled);
  }

  /** What the manager maintains for the node under key `k`: the record
      carries `k` as its id, at most five connected peers, no duplicate
      connection, duplicate-free known peers without `k` itself, and at most
      50 log entries. */
  ghost predicate NodeOk(k: NodeId, n: NodeState) {
    && n.id == k
    && |n.connectedPeers| <= MaxConnections && NoDup(n.connectedPeers)
    && NoDup(n.knownPeers) && k !in n.knownPeers
    && |n.messageLog| <= LogCap
  }

  // ---------------------------------------------------------------------
  // The log and message deduplication

  /** `addLog` on one node: newest entry first, at most 50 kept. */
  function WithLog(n: NodeState, content: string, kind: Direction, now: int): NodeState {
    n.(messageLog := Take([LogEntry(now, content, kind)] + n.messageLog, LogCap))
  }

  /** `messageLog.some(log => log.content.includes(id))`. */
  predicate SeenInLog(log: seq<LogEntry>, id: string) {
    exists k :: 0 <= k < |log| && Contains(log[k].content, id)
  }

  /** The dedup window is 50 entries: after a log entry is added, an id
      counts as seen exactly when the new entry or one of the 49 newest
      earlier entries mentions it; the 50th earlier entry is forgotten. */
  lemma LogWindow(n: NodeState, content: string, kind: Direction, now: int, id: string)
    ensures SeenInLog(WithLog(n, content, kind, now).messageLog, id) <==>
      || Contains(content, id)
      || exists k :: 0 <= k < |n.messageLog| && k < LogCap - 1 && Contains(n.messageLog[k].content, id)
  {
    var log := WithLog(n, content, kind, now).messageLog;
    var all := [LogEntry(now, content, kind)] + n.messageLog;
    assert log == Take(all, LogCap);
    if SeenInLog(log, id) {
      var k :| 0 <= k < |log| && Contains(log[k].content, id);
      if k > 0 {
        assert log[k] == n.messageLog[k - 1];
      }
    }
    if exists k :: 0 <= k < |n.messageLog| && k < LogCap - 1 && Contains(n.messageLog[k].content, id) {
      var k :| 0 <= k < |n.messageLog| && k < LogCap - 1 && Contains(n.messageLog[k].content, id);
      assert log[k + 1] == n.messageLog[k];
    }
    if Contains(content, id) {
      assert log[0].content == content;
    }
  }

  function TypeName(t: MsgType): string {
    match t
    case Gossip => "GOSSIP"
    case Data => "DATA"
  }

  /** A payload text in a template literal: an absent one reads
      `undefined`. */
  function TextOf(text: Option<string>): string {
    match text
    case Some(s) => s
    case None => "undefined"
  }

  /** The log line a node writes for a data message it processes. */
  function DataLine(msg: P2PMessage): string {
    "Broadcast: " + TextOf(msg.payload.text) + " (Hops: " + IntToDecimal(msg.hopCount) + ") [ID: " + msg.id + "]"
  }

  /** The data log line mentions the message id. */
  lemma DataLineMentionsId(msg: P2PMessage)
    ensures Contains(DataLine(msg), msg.id)
  {
    ContainsInfix("Broadcast: " + TextOf(msg.payload.text) + " (Hops: " + IntToDecimal(msg.hopCount) + ") [ID: ",
                  msg.id, "]");
  }

  // ---------------------------------------------------------------------
  // Receiving

  /** The copy of a message that is forwarded: one more hop. */
  function Hopped(msg: P2PMessage): P2PMessage {
    msg.(hopCount := msg.hopCount + 1)
  }

  /** The sends of one message to each of `targets`, in order. */
  function Deliver(from: NodeId, targets: seq<NodeId>, m: P2PMessage): (r: seq<Send>)
    ensures |r| == |targets|
    ensures forall k :: 0 <= k < |r| ==> r[k] == Send(from, targets[k], m)
    decreases |targets|
  {
    if targets == [] then []
    else Deliver(from, targets[..|targets| - 1], m) + [Send(from, targets[|targets| - 1], m)]
  }

  /** Delivering to the peers other than `sender` among one more peer. */
  lemma DeliverStep(from: NodeId, peers: seq<NodeId>, i: nat, sender: NodeId, m: P2PMessage)
    requires i < |peers|
    ensures Deliver(from, Minus(peers[..i + 1], [sender]), m)
         == Deliver(from, Minus(peers[..i], [sender]), m) + (if peers[i] == sender then [] else [Send(from, peers[i], m)])
  {
    var before := Minus(peers[..i], [sender]);
    assert peers[..i + 1] == peers[..i] + [peers[i]];
    MinusSnoc(peers[..i], peers[i], [sender]);
    if peers[i] != sender {
      assert (before + [peers[i]])[..|before|] == before;
    }
  }

  /** One turn of the `forwardMessage` loop: the sends so far, plus the
      copy for `peers[i]` unless it is `sender`. */
  function ForwardLoopStep(out: seq<Send>, from: NodeId, peers: seq<NodeId>, i: nat, sender: NodeId, m: P2PMessage)
    : (r: seq<Send>)
    requires i < |peers| && out == Deliver(from, Minus(peers[..i], [sender]), m)
    ensures r == Deliver(from, Minus(peers[..i + 1], [sender]), m)
  {
    DeliverStep(from, peers, i, sender, m);
    out + if peers[i] == sender then [] else [Send(from, peers[i], m)]
  }

  /** The loop of `forwardMessage`: a copy of `m` from `from` to every peer
      other than `sender`, in peer order. */
  method ForwardLoop(from: NodeId, peers: seq<NodeId>, sender: NodeId, m: P2PMessage) returns (out: seq<Send>)
    ensures out == Deliver(from, Minus(peers, [sender]), m)
  {
    out := [];
    var i := 0;
    while i < |peers|
      invariant 0 <= i <= |peers|
      invariant out == Deliver(from, Minus(peers[..i], [sender]), m)
    {
      out := ForwardLoopStep(out, from, peers, i, sender, m);
      i := i + 1;
    }
    assert peers[..|peers|] == peers;
  }

  /** `forwardMessage` over `peers` sends every peer except the message's
      sender one copy with the hop count raised by one, and nobody else. */
  lemma ForwardCopies(from: NodeId, peers: seq<NodeId>, msg: P2PMessage)
    requires NoDup(peers)
    ensures var out := Deliver(from, Minus(peers, [msg.sender]), Hopped(msg));
      && (forall s :: s in out ==> s.from == from && s.to in peers && s.to != msg.sender && s.msg == Hopped(msg))
      && (forall p :: p in peers && p != msg.sender ==> exists s :: s in out && s.to == p)
      && |out| == |peers| - (if msg.sender in peers then 1 else 0)
  {
    var targets := Minus(peers, [msg.sender]);
    var out := Deliver(from, targets, Hopped(msg));
    forall s | s in out ensures s.from == from && s.to in peers && s.to != msg.sender && s.msg == Hopped(msg) {
      var k :| 0 <= k < |out| && out[k] == s;
      assert targets[k] in targets;
    }
    forall p | p in peers && p != msg.sender ensures exists s :: s in out && s.to == p {
      var k :| 0 <= k < |targets| && targets[k] == p;
      assert out[k] in out && out[k].to == p;
    }
    MinusOneLength(peers, msg.sender);
  }

  /** The recipient's state after the peer-learning part of a gossip: the
      union of its known peers, the gossiped ones and the sender, without
      duplicates and without itself; and the sender as a new connection when
      there is room and it is not connected yet. */
  function LearnFrom(n: NodeState, self: NodeId, sender: NodeId, ks: seq<NodeId>, now: int): NodeState {
    var known := Minus(Dedup(n.knownPeers + ks + [sender]), [self]);
    var cp := n.connectedPeers;
    if |cp| < MaxConnections && sender !in cp then
      WithLog(n.(knownPeers := known, connectedPeers := cp + [sender]), "Established connection with " + sender, In, now)
    else
      n.(knownPeers := known)
  }

  /** `handleRemoteMessage` on the state `n` of the recipient `self`. A data
      message already mentioned in the log changes nothing; a gossip without a
      peer list stops after its first log entry (spreading `undefined`
      throws). Receiving never changes who the node is; a data message
      never changes its links or its known peers, and a gossip message never
      drops a link nor changes the last data text. Every message it does not
      drop is logged as received; a processed data message sets the last
      text, logs the text with its id and stamps the node. */
  function Received(n: NodeState, self: NodeId, msg: P2PMessage, now: int): (r: NodeState)
    ensures r.id == n.id && r.status == n.status
    ensures msg.kind == Data ==> r.connectedPeers == n.connectedPeers && r.knownPeers == n.knownPeers
    ensures msg.kind == Gossip ==> r.lastMessage == n.lastMessage && n.connectedPeers <= r.connectedPeers
    ensures !(msg.kind == Data && SeenInLog(n.messageLog, msg.id)) ==>
      LogEntry(now, "Received " + TypeName(msg.kind) + " from " + msg.sender, In) in r.messageLog
    ensures msg.kind == Data && !SeenInLog(n.messageLog, msg.id) ==>
      && r.lastMessage == msg.payload.text && r.lastUpdate == now
      && r.messageLog[0] == LogEntry(now, DataLine(msg), In)
  {
    if msg.kind == Data && SeenInLog(n.messageLog, msg.id) then n
    else
      var logged := WithLog(n, "Received " + TypeName(msg.kind) + " from " + msg.sender, In, now);
      assert logged.messageLog[0] in logged.messageLog;
      match msg.kind
      case Gossip =>
        (match msg.payload.knownPeers
         case None => logged
         case Some(ks) =>
           var r := LearnFrom(logged, self, msg.sender, ks, now).(lastUpdate := now);
           assert r.messageLog == logged.messageLog || r.messageLog[1] == logged.messageLog[0];
           r)
      case Data =>
        var r := WithLog(logged.(lastMessage := msg.payload.text), DataLine(msg), In, now).(lastUpdate := now);
        assert r.messageLog[1] == logged.messageLog[0];
        r
  }

  /** What `handleRemoteMessage` sends: a data message it processes is
      forwarded to the recipient's peers; nothing else is sent. */
  function Forwarded(self: NodeId, n: NodeState, msg: P2PMessage): seq<Send> {
    if msg.kind == Data && !SeenInLog(n.messageLog, msg.id)
    then Deliver(self, Minus(n.connectedPeers, [msg.sender]), Hopped(msg))
    else []
  }

  /** Receiving keeps every bound the manager maintains for the node. */
  lemma ReceivedKeepsNodeOk(k: NodeId, n: NodeState, msg: P2PMessage, now: int)
    requires NodeOk(k, n)
    ensures NodeOk(k, Received(n, k, msg, now))
  {
    if msg.kind == Gossip && msg.payload.knownPeers.Some? && !(msg.kind == Data && SeenInLog(n.messageLog, msg.id)) {
      var logged := WithLog(n, "Received " + TypeName(msg.kind) + " from " + msg.sender, In, now);
      var cp := logged.connectedPeers;
      if |cp| < MaxConnections && msg.sender !in cp {
        assert NoDup(cp + [msg.sender]);
      }
    }
  }

  /** Gossip merges peer lists: afterwards the known peers are exactly the
      old ones, the gossiped ones and the sender, minus the recipient itself,
      each once; the sender becomes a connection exactly when there is room
      (fewer than five) and it is not connected yet. */
  lemma GossipMerge(n: NodeState, self: NodeId, msg: P2PMessage, ks: seq<NodeId>, now: int)
    requires msg.kind == Gossip && msg.payload.knownPeers == Some(ks)
    ensures var r := Received(n, self, msg, now);
      && NoDup(r.knownPeers)
      && (forall p :: p in r.knownPeers <==> (p in n.knownPeers || p in ks || p == msg.sender) && p != self)
      && r.connectedPeers == (if |n.connectedPeers| < MaxConnections && msg.sender !in n.connectedPeers
                              then n.connectedPeers + [msg.sender] else n.connectedPeers)
      && r.lastUpdate == now
  {
    var all := n.knownPeers + ks + [msg.sender];
    forall p ensures p in all <==> p in n.knownPeers || p in ks || p == msg.sender {
    }
  }

  /** Substring deduplication, precisely: a data message leaves the
      recipient's state unchanged exactly when some log entry mentions its
      id. */
  lemma DataDroppedIffSeen(n: NodeState, self: NodeId, msg: P2PMessage, now: int)
    requires msg.kind == Data
    ensures Received(n, self, msg, now) == n <==> SeenInLog(n.messageLog, msg.id)
    ensures SeenInLog(n.messageLog, msg.id) ==> Forwarded(self, n, msg) == []
  {
    if !SeenInLog(n.messageLog, msg.id) {
      var r := Received(n, self, msg, now);
      DataLineMentionsId(msg);
      assert r.messageLog[0].content == DataLine(msg);
      assert SeenInLog(r.messageLog, msg.id);
    }
  }

  /** A processed data message is mentioned in the newest log entry, so a
      redelivery that follows at once is dropped and forwarded nowhere. */
  lemma RedeliveryDropped(n: NodeState, self: NodeId, msg: P2PMessage, now: int, later: int)
    requires msg.kind == Data
    ensures var r := Received(n, self, msg, now);
      Received(r, self, msg, later) == r && Forwarded(self, r, msg) == []
  {
    var r := Received(n, self, msg, now);
    if !SeenInLog(n.messageLog, msg.id) {
      DataLineMentionsId(msg);
      assert r.messageLog[0].content == DataLine(msg);
    }
    assert SeenInLog(r.messageLog, msg.id);
  }

  /** The dedup check also matches ids that merely occur inside other log
      text: a data message with the empty id is dropped by every node whose
      log is not empty. */
  lemma EmptyIdDropped(n: NodeState, self: NodeId, msg: P2PMessage, now: int)
    requires msg.kind == Data && msg.id == "" && |n.messageLog| > 0
    ensures Received(n, self, msg, now) == n
  {
    ContainsEmpty(n.messageLog[0].content);
  }

  // ---------------------------------------------------------------------
  // The maintenance tick

  /** Step 1: when the drop fires and there is a connection, the chosen
      connection is cut out and the timeout logged. */
  function DropStep(n: NodeState, c: TickChoice, now: int): NodeState {
    var cp := n.connectedPeers;
    if |cp| > 0 && c.drop then
      var i := c.dropAt % |cp|;
      WithLog(n.(connectedPeers := RemoveAt(cp, i)), "Connection to " + cp[i] + " timed out", Out, now)
    else n
  }

  /** Step 2: below two connections, one known peer that is not connected is
      connected, when there is one. */
  function ReconnectStep(n: NodeState, c: TickChoice, now: int): NodeState {
    var cp := n.connectedPeers;
    var potential := Minus(n.knownPeers, cp);
    if |cp| < MinConnections && |potential| > 0 then
      var p := potential[c.pickAt % |potential|];
      WithLog(n.(connectedPeers := cp + [p]), "Auto-connecting to known peer " + p, Out, now)
    else n
  }

  /** A node's state after its part of a tick. */
  function Ticked(n: NodeState, c: TickChoice, now: int): NodeState {
    ReconnectStep(DropStep(n, c, now), c, now)
  }

  /** The gossip a node sends at the end of its tick. */
  function GossipMsg(id: NodeId, known: seq<NodeId>, now: int): P2PMessage {
    P2PMessage("gossip-" + IntToDecimal(now), id, Gossip, Payload(Some(known), None), 0)
  }

  /** Step 3, on the state after steps 1 and 2: one gossip to the chosen
      connection, when there is one. */
  function GossipOut(id: NodeId, n: NodeState, c: TickChoice, now: int): seq<Send> {
    var cp := n.connectedPeers;
    if |cp| > 0 then [Send(id, cp[c.gossipAt % |cp|], GossipMsg(id, n.knownPeers, now))] else []
  }

  /** The drop step removes exactly one connection, and only when the drop
      fires and there is a connection; it changes no known peer. */
  lemma DropStepSpec(k: NodeId, n: NodeState, c: TickChoice, now: int)
    requires NodeOk(k, n)
    ensures var r := DropStep(n, c, now);
      && NodeOk(k, r)
      && r.knownPeers == n.knownPeers
      && (if |n.connectedPeers| > 0 && c.drop
          then |r.connectedPeers| == |n.connectedPeers| - 1
            && multiset(r.connectedPeers) == multiset(n.connectedPeers) - multiset{n.connectedPeers[c.dropAt % |n.connectedPeers|]}
          else r == n)
  {
    var cp := n.connectedPeers;
    if |cp| > 0 && c.drop {
      RemoveAtKeepsNoDup(cp, c.dropAt % |cp|);
    }
  }

  /** The reconnect step adds at most one connection, only below two
      connections, and only a known peer that was not connected; it adds one
      whenever such a peer exists. */
  lemma ReconnectStepSpec(k: NodeId, n: NodeState, c: TickChoice, now: int)
    requires NodeOk(k, n)
    ensures var r := ReconnectStep(n, c, now);
      && NodeOk(k, r)
      && r.knownPeers == n.knownPeers
      && (r.connectedPeers == n.connectedPeers ||
          exists p :: p in n.knownPeers && p !in n.connectedPeers && r.connectedPeers == n.connectedPeers + [p])
      && (r.connectedPeers != n.connectedPeers ==> |n.connectedPeers| < MinConnections)
      && (|n.connectedPeers| < MinConnections && (exists p :: p in n.knownPeers && p !in n.connectedPeers)
          ==> |r.connectedPeers| == |n.connectedPeers| + 1)
  {
    var cp := n.connectedPeers;
    var potential := Minus(n.knownPeers, cp);
    if |cp| < MinConnections && |potential| > 0 {
      var p := potential[c.pickAt % |potential|];
      assert p in potential;
      assert NoDup(cp + [p]);
    }
    if exists p :: p in n.knownPeers && p !in cp {
      var p :| p in n.knownPeers && p !in cp;
      assert p in potential;
    }
  }

  /** A tick keeps every bound the manager maintains for the node. */
  lemma TickKeepsNodeOk(k: NodeId, n: NodeState, c: TickChoice, now: int)
    requires NodeOk(k, n)
    ensures NodeOk(k, Ticked(n, c, now))
  {
    DropStepSpec(k, n, c, now);
    ReconnectStepSpec(k, DropStep(n, c, now), c, now);
  }

  /** A tick sends exactly one gossip when the node has a connection and none
      otherwise; it goes to a connection and carries the full known-peer
      list. */
  lemma GossipOutSpec(id: NodeId, n: NodeState, c: TickChoice, now: int)
    ensures var out := GossipOut(id, n, c, now);
      && |out| == (if |n.connectedPeers| > 0 then 1 else 0)
      && forall s :: s in out ==>
        && s.from == id && s.to in n.connectedPeers
        && s.msg.kind == Gossip && s.msg.sender == id && s.msg.hopCount == 0
        && s.msg.payload.knownPeers == Some(n.knownPeers)
  {
  }

  /** The gossip each node of `ids` sends from its state in `nodes`, in
      the order of `ids`. */
  function Gossips(nodes: map<NodeId, NodeState>, ids: seq<NodeId>, roll: NodeId -> TickChoice, now: int): seq<Send>
    requires forall k :: k in ids ==> k in nodes
    decreases |ids|
  {
    if ids == [] then []
    else
      var k := ids[|ids| - 1];
      Gossips(nodes, ids[..|ids| - 1], roll, now) + GossipOut(k, nodes[k], roll(k), now)
  }

  /** Each send of a tick's gossip goes from a node of `ids` to one of its
      connections, carrying the node's known peers; there is at most one per
      id. */
  lemma {:induction false} GossipsSends(nodes: map<NodeId, NodeState>, ids: seq<NodeId>, roll: NodeId -> TickChoice, now: int)
    requires forall k :: k in ids ==> k in nodes
    ensures var out := Gossips(nodes, ids, roll, now);
      && |out| <= |ids|
      && forall s :: s in out ==>
        && s.from in ids && s.to in nodes[s.from].connectedPeers
        && s.msg.kind == Gossip && s.msg.sender == s.from
        && s.msg.payload.knownPeers == Some(nodes[s.from].knownPeers)
    decreases |ids|
  {
    if ids != [] {
      var k := ids[|ids| - 1];
      var init := ids[..|ids| - 1];
      assert forall x :: x in init ==> x in ids;
      GossipsSends(nodes, init, roll, now);
      GossipOutSpec(k, nodes[k], roll(k), now);
    }
  }

  /** Every node of `ids` with a connection sends in a tick's gossip. */
  lemma {:induction false} GossipsCover(nodes: map<NodeId, NodeState>, ids: seq<NodeId>, roll: NodeId -> TickChoice, now: int)
    requires forall k :: k in ids ==> k in nodes
    ensures var out := Gossips(nodes, ids, roll, now);
      forall k :: k in ids && |nodes[k].connectedPeers| > 0 ==> exists s :: s in out && s.from == k
    decreases |ids|
  {
    if ids != [] {
      var k := ids[|ids| - 1];
      var init := ids[..|ids| - 1];
      assert ids == init + [k];
      assert forall x :: x in init ==> x in ids;
      GossipsCover(nodes, init, roll, now);
      var before := Gossips(nodes, init, roll, now);
      var last := GossipOut(k, nodes[k], roll(k), now);
      var out := before + last;
      forall x | x in ids && |nodes[x].connectedPeers| > 0 ensures exists s: Send :: s in out && s.from == x {
        if x == k {
          assert last[0] in out;
        } else {
          assert x in init;
          var s :| s in before && s.from == x;
          assert s in out;
        }
      }
    }
  }

  /** Over distinct ids, no node sends twice in a tick's gossip. */
  lemma {:induction false} GossipsDistinct(nodes: map<NodeId, NodeState>, ids: seq<NodeId>, roll: NodeId -> TickChoice, now: int)
    requires forall k :: k in ids ==> k in nodes
    requires NoDup(ids)
    ensures var out := Gossips(nodes, ids, roll, now);
      forall i, j :: 0 <= i < j < |out| ==> out[i].from != out[j].from
    decreases |ids|
  {
    if ids != [] {
      var k := ids[|ids| - 1];
      var init := ids[..|ids| - 1];
      assert forall x :: x in init ==> x in ids;
      assert NoDup(init) by {
        forall a, b | 0 <= a < b < |init| ensures init[a] != init[b] { assert init[a] == ids[a] && init[b] == ids[b]; }
      }
      assert k !in init by {
        forall a | 0 <= a < |init| ensures init[a] != k { assert init[a] == ids[a]; }
      }
      GossipsDistinct(nodes, init, roll, now);
      GossipsSends(nodes, init, roll, now);
      GossipOutSpec(k, nodes[k], roll(k), now);
      var before := Gossips(nodes, init, roll, now);
      var last := GossipOut(k, nodes[k], roll(k), now);
      var out := before + last;
      forall i, j | 0 <= i < j < |out| ensures out[i].from != out[j].from {
        if j >= |before| {
          assert out[j] in last && out[i] in before;
        }
      }
    }
  }

  /** A tick's gossip: one message per connected node, each from that node
      to one of its connections, carrying the node's known peers after its
      turn. Every node with a connection sends, and over distinct ids no
      node sends twice. */
  lemma {:induction false} GossipsSpec(nodes: map<NodeId, NodeState>, ids: seq<NodeId>, roll: NodeId -> TickChoice, now: int)
    requires forall k :: k in ids ==> k in nodes
    ensures var out := Gossips(nodes, ids, roll, now);
      && |out| <= |ids|
      && (forall s :: s in out ==>
        && s.from in ids && s.to in nodes[s.from].connectedPeers
        && s.msg.kind == Gossip && s.msg.sender == s.from
        && s.msg.payload.knownPeers == Some(nodes[s.from].knownPeers))
      && (forall k :: k in ids && |nodes[k].connectedPeers| > 0 ==> exists s :: s in out && s.from == k)
      && (NoDup(ids) ==> forall i, j :: 0 <= i < j < |out| ==> out[i].from != out[j].from)
  {
    GossipsSends(nodes, ids, roll, now);
    GossipsCover(nodes, ids, roll, now);
    if NoDup(ids) {
      GossipsDistinct(nodes, ids, roll, now);
    }
  }

  /** The gossip of `ids` does not depend on nodes outside `ids`. */
  lemma {:induction false} GossipsUnchanged(nodes: map<NodeId, NodeState>, ids: seq<NodeId>, k: NodeId, n: NodeState,
                                            roll: NodeId -> TickChoice, now: int)
    requires forall x :: x in ids ==> x in nodes
    requires k !in ids
    ensures Gossips(nodes[k := n], ids, roll, now) == Gossips(nodes, ids, roll, now)
    decreases |ids|
  {
    if ids != [] {
      var init := ids[..|ids| - 1];
      assert forall x :: x in init ==> x in ids;
      GossipsUnchanged(nodes, init, k, n, roll, now);
    }
  }

  /** The gossip of one more node. */
  lemma GossipsStep(nodes: map<NodeId, NodeState>, order: seq<NodeId>, i: nat, roll: NodeId -> TickChoice, now: int)
    requires i < |order| && forall k :: k in order ==> k in nodes
    ensures Gossips(nodes, order[..i + 1], roll, now)
         == Gossips(nodes, order[..i], roll, now) + GossipOut(order[i], nodes[order[i]], roll(order[i]), now)
  {
    assert order[..i + 1][..i] == order[..i];
  }


  /** A second update of the same key overrides the first. */
  lemma UpdateTwice(m: map<NodeId, NodeState>, k: NodeId, a: NodeState, b: NodeState)
    ensures m[k := a][k := b] == m[k := b]
  {
  }

  /** The manager's invariant: `order` lists the map's keys once each,
      and every node is well formed. */
  ghost predicate NodesOk(nodes: map<NodeId, NodeState>, order: seq<NodeId>) {
    && NoDup(order)
    && (forall k :: k in nodes <==> k in order)
    && (forall k :: k in nodes ==> NodeOk(k, nodes[k]))
  }

  /** Replacing one node by a well-formed state keeps the invariant. */
  lemma NodesOkUpdate(nodes: map<NodeId, NodeState>, order: seq<NodeId>, k: NodeId, n: NodeState)
    requires NodesOk(nodes, order) && k in nodes && NodeOk(k, n)
    ensures NodesOk(nodes[k := n], order)
  {
  }

  /** Part way through a tick: the nodes `order[..i]` have had their turn,
      the others are as they were in `start`. */
  ghost predicate TickedUpTo(start: map<NodeId, NodeState>, nodes: map<NodeId, NodeState>, order: seq<NodeId>,
                             i: nat, roll: NodeId -> TickChoice, now: int)
    requires i <= |order|
  {
    && NodesOk(start, order)
    && nodes.Keys == start.Keys
    && (forall j :: 0 <= j < i ==> order[j] in nodes && nodes[order[j]] == Ticked(start[order[j]], roll(order[j]), now))
    && (forall j :: i <= j < |order| ==> order[j] in nodes && nodes[order[j]] == start[order[j]])
  }

  /** The next node's turn extends `TickedUpTo` by one. */
  lemma TickedStep(start: map<NodeId, NodeState>, nodes: map<NodeId, NodeState>, order: seq<NodeId>,
                   i: nat, roll: NodeId -> TickChoice, now: int)
    requires i < |order| && TickedUpTo(start, nodes, order, i, roll, now)
    ensures order[i] in nodes
    ensures TickedUpTo(start, nodes[order[i] := Ticked(nodes[order[i]], roll(order[i]), now)], order, i + 1, roll, now)
  {
    var k := order[i];
    forall j | 0 <= j < |order| && j != i ensures order[j] != k {
    }
  }

  /** One node's turn keeps the tick loop's invariants. */
  lemma TickLoopStep(start: map<NodeId, NodeState>, before: map<NodeId, NodeState>, order: seq<NodeId>, i: nat,
                     roll: NodeId -> TickChoice, now: int, sent0: seq<Send>, sentBefore: seq<Send>, sentAfter: seq<Send>)
    requires i < |order| && TickedUpTo(start, before, order, i, roll, now)
    requires sentBefore == sent0 + Gossips(before, order[..i], roll, now)
    requires order[i] in before
    requires sentAfter == sentBefore + GossipOut(order[i], Ticked(before[order[i]], roll(order[i]), now), roll(order[i]), now)
    ensures var after := before[order[i] := Ticked(before[order[i]], roll(order[i]), now)];
      && TickedUpTo(start, after, order, i + 1, roll, now)
      && sentAfter == sent0 + Gossips(after, order[..i + 1], roll, now)
  {
    var id := order[i];
    var after := before[id := Ticked(before[id], roll(id), now)];
    TickedStep(start, before, order, i, roll, now);
    assert id !in order[..i];
    GossipsUnchanged(before, order[..i], id, after[id], roll, now);
    GossipsStep(after, order, i, roll, now);
  }

  /** After every node's turn, each node has ticked once. */
  lemma TickedAll(start: map<NodeId, NodeState>, nodes: map<NodeId, NodeState>, order: seq<NodeId>,
                  roll: NodeId -> TickChoice, now: int)
    requires TickedUpTo(start, nodes, order, |order|, roll, now)
    ensures nodes.Keys == start.Keys
    ensures forall k :: k in start ==> nodes[k] == Ticked(start[k], roll(k), now)
    ensures NodesOk(nodes, order)
  {
    forall k | k in start ensures nodes[k] == Ticked(start[k], roll(k), now) && NodeOk(k, nodes[k]) {
      var j :| 0 <= j < |order| && order[j] == k;
      TickKeepsNodeOk(k, start[k], roll(k), now);
    }
  }



  // ---------------------------------------------------------------------
  // The manager

  /** `NodeManager`. */
  class NodeManager {
    var nodes: map<NodeId, NodeState>
    /** The order in which the nodes were inserted into the map, which is
        the order `forEach` visits them in. */
    const order: seq<NodeId>
    /** The messages handed to the connector, oldest first. */
    var sent: seq<Send>

    ghost predicate Valid()
      reads this
    {
      NodesOk(nodes, order)
    }

    /** The constructor's `initializeNetwork`: nodes `node-01` to `node-30`,
        each online, unconnected, with an empty log and the seed list drawn
        from `shuffled[i]`, the caller's reordering of the other ids. */
    constructor (shuffled: seq<seq<NodeId>>, now: int)
      requires |shuffled| == NodeCount
      requires forall i :: 0 <= i < NodeCount ==>
        multiset(shuffled[i]) == multiset(Minus(NodeIds(), [NodeIds()[i]]))
      ensures Valid() && order == NodeIds() && sent == []
      ensures forall i :: 0 <= i < NodeCount ==>
        nodes[order[i]] == InitialState(order[i], Seeds(shuffled[i]), now)
    {
      var ids := NodeIds();
      NodeIdsDistinct();
      var m: map<NodeId, NodeState> := map[];
      var i := 0;
      while i < |ids|
        invariant 0 <= i <= |ids|
        invariant InitialUpTo(m, ids, shuffled, now, i)
      {
        InitialStateOk(ids, i, shuffled[i], now);
        InitStep(m, ids, shuffled, now, i);
        m := m[ids[i] := InitialState(ids[i], Seeds(shuffled[i]), now)];
        i := i + 1;
      }
      assert ids[..|ids|] == ids;
      nodes := m;
      order := ids;
      sent := [];
    }

    /** `addLog`: on a known node, the entry goes first and the log is cut
        to 50; an unknown id changes nothing. */
    method AddLog(id: NodeId, content: string, kind: Direction, now: int)
      modifies this`nodes
      ensures nodes == if id in old(nodes) then old(nodes)[id := WithLog(old(nodes)[id], content, kind, now)] else old(nodes)
    {
      if id in nodes {
        var node := nodes[id];
        var log := [LogEntry(now, content, kind)] + node.messageLog;
        nodes := nodes[id := node.(messageLog := Take(log, LogCap))];
      }
    }

    /** `forwardMessage`: a copy with one more hop to every connection of
        `fromId` except the message's sender. */
    method ForwardMessage(fromId: NodeId, msg: P2PMessage)
      modifies this`sent
      ensures fromId !in nodes ==> sent == old(sent)
      ensures fromId in nodes ==>
        sent == old(sent) + Deliver(fromId, Minus(nodes[fromId].connectedPeers, [msg.sender]), Hopped(msg))
    {
      if fromId !in nodes {
        return;
      }
      var out := ForwardLoop(fromId, nodes[fromId].connectedPeers, msg.sender, Hopped(msg));
      sent := sent + out;
    }

    /** `handleRemoteMessage` for `recipientId`: unknown recipients and
        data messages the log already mentions are ignored. */
    method HandleRemoteMessage(recipientId: NodeId, msg: P2PMessage, now: int)
      requires Valid()
      modifies this`nodes, this`sent
      ensures Valid()
      ensures recipientId !in old(nodes) ==> nodes == old(nodes) && sent == old(sent)
      ensures recipientId in old(nodes) ==>
        && nodes == old(nodes)[recipientId := Received(old(nodes)[recipientId], recipientId, msg, now)]
        && sent == old(sent) + Forwarded(recipientId, old(nodes)[recipientId], msg)
    {
      if recipientId !in nodes {
        return;
      }
      var node := nodes[recipientId];
      var alreadySeen := SeenInLog(node.messageLog, msg.id);
      if alreadySeen && msg.kind == Data {
        return;
      }
      Process(recipientId, msg, now);
    }

    /** `handleRemoteMessage` past the deduplication check. */
    method Process(recipientId: NodeId, msg: P2PMessage, now: int)
      requires Valid() && recipientId in nodes
      requires !(msg.kind == Data && SeenInLog(nodes[recipientId].messageLog, msg.id))
      modifies this`nodes, this`sent
      ensures Valid()
      ensures nodes == old(nodes)[recipientId := Received(old(nodes)[recipientId], recipientId, msg, now)]
      ensures sent == old(sent) + Forwarded(recipientId, old(nodes)[recipientId], msg)
    {
      ghost var m0, n0 := nodes, nodes[recipientId];
      ghost var r := Received(n0, recipientId, msg, now);
      ReceivedKeepsNodeOk(recipientId, n0, msg, now);
      NodesOkUpdate(nodes, order, recipientId, r);
      AddLog(recipientId, "Received " + TypeName(msg.kind) + " from " + msg.sender, In, now);
      ghost var logged := WithLog(n0, "Received " + TypeName(msg.kind) + " from " + msg.sender, In, now);
      if msg.kind == Gossip {
        if msg.payload.knownPeers.None? {
          assert r == logged;
          return;
        }
        LearnPeers(recipientId, msg.sender, msg.payload.knownPeers.value, now);
        UpdateTwice(m0, recipientId, logged, nodes[recipientId]);
      } else {
        ProcessData(recipientId, msg, now);
        UpdateTwice(m0, recipientId, logged, nodes[recipientId]);
      }
      ghost var m1 := nodes;
      nodes := nodes[recipientId := nodes[recipientId].(lastUpdate := now)];
      UpdateTwice(m0, recipientId, m1[recipientId], nodes[recipientId]);
      assert nodes[recipientId] == r;
    }

    /** The gossip branch of `handleRemoteMessage`: learn the gossiped
        peers and the sender, and connect the sender when there is room. */
    method LearnPeers(recipientId: NodeId, sender: NodeId, ks: seq<NodeId>, now: int)
      requires recipientId in nodes
      modifies this`nodes
      ensures nodes == old(nodes)[recipientId := LearnFrom(old(nodes)[recipientId], recipientId, sender, ks, now)]
    {
      var node := nodes[recipientId];
      var newKnown := Dedup(node.knownPeers + ks + [sender]);
      node := node.(knownPeers := Minus(newKnown, [recipientId]));
      nodes := nodes[recipientId := node];
      if |node.connectedPeers| < MaxConnections && sender !in node.connectedPeers {
        nodes := nodes[recipientId := node.(connectedPeers := node.connectedPeers + [sender])];
        AddLog(recipientId, "Established connection with " + sender, In, now);
      }
    }

    /** The data branch of `handleRemoteMessage`: remember the text, log
        the message and forward it. */
    method ProcessData(recipientId: NodeId, msg: P2PMessage, now: int)
      requires recipientId in nodes
      modifies this`nodes, this`sent
      ensures nodes == old(nodes)[recipientId :=
        WithLog(old(nodes)[recipientId].(lastMessage := msg.payload.text), DataLine(msg), In, now)]
      ensures sent == old(sent) + Deliver(recipientId, Minus(old(nodes)[recipientId].connectedPeers, [msg.sender]), Hopped(msg))
    {
      nodes := nodes[recipientId := nodes[recipientId].(lastMessage := msg.payload.text)];
      AddLog(recipientId, DataLine(msg), In, now);
      ForwardMessage(recipientId, msg);
    }

    /** `broadcast`: a new data message with the caller-chosen id `msgId`,
        sender `fromId` and hop count 0, logged and forwarded, so that every
        first-hop neighbour receives it with hop count 1. */
    method Broadcast(fromId: NodeId, text: string, msgId: string, now: int)
      requires Valid()
      modifies this`nodes, this`sent
      ensures Valid()
      ensures nodes == if fromId in old(nodes)
        then old(nodes)[fromId := WithLog(old(nodes)[fromId], "Initiating broadcast: " + text, Out, now)]
        else old(nodes)
      ensures fromId in old(nodes) ==>
        sent == old(sent) + Deliver(fromId, Minus(old(nodes)[fromId].connectedPeers, [fromId]),
                                    P2PMessage(msgId, fromId, Data, Payload(None, Some(text)), 1))
      ensures fromId !in old(nodes) ==> sent == old(sent)
      ensures forall k :: |old(sent)| <= k < |sent| ==>
        sent[k].from == fromId && sent[k].msg == P2PMessage(msgId, fromId, Data, Payload(None, Some(text)), 1)
    {
      var msg := P2PMessage(msgId, fromId, Data, Payload(None, Some(text)), 0);
      assert Hopped(msg) == P2PMessage(msgId, fromId, Data, Payload(None, Some(text)), 1);
      AddLog(fromId, "Initiating broadcast: " + text, Out, now);
      if fromId in old(nodes) {
        var n := WithLog(old(nodes)[fromId], "Initiating broadcast: " + text, Out, now);
        assert nodes[fromId].connectedPeers == old(nodes)[fromId].connectedPeers;
        assert NodeOk(fromId, n);
        NodesOkUpdate(old(nodes), order, fromId, n);
      }
      ForwardMessage(fromId, msg);
    }

    /** One node's turn in `tick`. */
    method TickNode(id: NodeId, c: TickChoice, now: int)
      requires id in nodes
      modifies this`nodes, this`sent
      ensures nodes == old(nodes)[id := Ticked(old(nodes)[id], c, now)]
      ensures sent == old(sent) + GossipOut(id, nodes[id], c, now)
    {
      ghost var ticked := Ticked(nodes[id], c, now);
      DropConnection(id, c, now);
      Reconnect(id, c, now);
      assert nodes == old(nodes)[id := ticked];
      SendGossip(id, c, now);
    }

    /** Step 1 of a node's tick: the random connection drop. */
    method DropConnection(id: NodeId, c: TickChoice, now: int)
      requires id in nodes
      modifies this`nodes
      ensures nodes == old(nodes)[id := DropStep(old(nodes)[id], c, now)]
    {
      var node := nodes[id];
      if |node.connectedPeers| > 0 && c.drop {
        var dropIndex := c.dropAt % |node.connectedPeers|;
        var dropped := node.connectedPeers[dropIndex];
        nodes := nodes[id := node.(connectedPeers := RemoveAt(node.connectedPeers, dropIndex))];
        AddLog(id, "Connection to " + dropped + " timed out", Out, now);
      }
    }

    /** Step 2 of a node's tick: reconnect below the minimum. */
    method Reconnect(id: NodeId, c: TickChoice, now: int)
      requires id in nodes
      modifies this`nodes
      ensures nodes == old(nodes)[id := ReconnectStep(old(nodes)[id], c, now)]
    {
      var node := nodes[id];
      if |node.connectedPeers| < MinConnections {
        var potentialPeers := Minus(node.knownPeers, node.connectedPeers);
        if |potentialPeers| > 0 {
          var newPeer := potentialPeers[c.pickAt % |potentialPeers|];
          nodes := nodes[id := node.(connectedPeers := node.connectedPeers + [newPeer])];
          AddLog(id, "Auto-connecting to known peer " + newPeer, Out, now);
        }
      }
    }

    /** Step 3 of a node's tick: gossip the known peers to one connection. */
    method SendGossip(id: NodeId, c: TickChoice, now: int)
      requires id in nodes
      modifies this`sent
      ensures sent == old(sent) + GossipOut(id, nodes[id], c, now)
    {
      var node := nodes[id];
      if |node.connectedPeers| > 0 {
        var randomPeer := node.connectedPeers[c.gossipAt % |node.connectedPeers|];
        sent := sent + [Send(id, randomPeer, GossipMsg(id, node.knownPeers, now))];
      }
    }

    /** `tick`: every node in insertion order takes its turn, with its own
        draws `roll(id)`. */
    method Tick(roll: NodeId -> TickChoice, now: int)
      requires Valid()
      modifies this`nodes, this`sent
      ensures Valid()
      ensures nodes.Keys == old(nodes).Keys
      ensures forall k :: k in old(nodes) ==> nodes[k] == Ticked(old(nodes)[k], roll(k), now)
      ensures sent == old(sent) + Gossips(nodes, order, roll, now)
    {
      var i := 0;
      while i < |order|
        invariant 0 <= i <= |order|
        invariant TickedUpTo(old(nodes), nodes, order, i, roll, now)
        invariant sent == old(sent) + Gossips(nodes, order[..i], roll, now)
      {
        ghost var before := nodes;
        ghost var sentBefore := sent;
        TickNode(order[i], roll(order[i]), now);
        TickLoopStep(old(nodes), before, order, i, roll, now, old(sent), sentBefore, sent);
        i := i + 1;
      }
      assert order[..|order|] == order;
      TickedAll(old(nodes), nodes, order, roll, now);
    }
  }
}
