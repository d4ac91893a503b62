/** The browser mesh node of `p2p.js` (class `P2PNode`): a peer set capped at
    five, a set of known node ids, the set of transaction ids already seen
    (`history`), a log of the 40 newest events and a counter of received
    transactions.

    JavaScript `Set`s iterate in insertion order, and `tick` picks peers by
    position in that order, so `peers` and `knownNodes` are duplicate-free
    sequences in insertion order. What the node hands to the relay connector
    is appended to `sent`. Clock readings and random draws are parameters. */
module P2P {
  import opened Seqs

  type NodeId = string

  /** `connect` refuses a sixth peer. */
  const MaxPeers := 5
  /** `log` keeps the 40 newest entries. */
  const LogCap := 40
  /** A gossip message carries at most the first 10 known ids. */
  const GossipSample := 10

  datatype LogKind = Info | In | Out

  datatype LogEntry = LogEntry(t: string, msg: string, kind: LogKind)

  /** A parsed message: a gossip list of known ids, a transaction, or an
      object with any other `type`, which the node ignores. */
  datatype Packet =
    | Gossip(known: seq<NodeId>)
    | Tx(mid: string, content: string, origin: NodeId)
    | Unrecognised

  /** One `connector.send(this.id, to, packet)`. */
  datatype Send = Send(to: NodeId, packet: Packet)

  /** The sends of `relay`: the same packet to every peer, in peer order. */
  function SendToAll(peers: seq<NodeId>, p: Packet): seq<Send>
    decreases |peers|
  {
    if peers == [] then []
    else SendToAll(peers[..|peers| - 1], p) + [Send(peers[|peers| - 1], p)]
  }

  /** `relay` sends the unmodified packet to each peer exactly once, and to
      nobody else. */
  lemma {:induction false} SendToAllSpec(peers: seq<NodeId>, p: Packet)
    ensures |SendToAll(peers, p)| == |peers|
    ensures forall k :: 0 <= k < |peers| ==> SendToAll(peers, p)[k] == Send(peers[k], p)
    decreases |peers|
  {
    if peers != [] {
      SendToAllSpec(peers[..|peers| - 1], p);
    }
  }

  /** The known set after the gossip loop `known.forEach(n => { if (n !== id)
      knownNodes.add(n) })`. */
  function Learn(knownNodes: seq<NodeId>, known: seq<NodeId>, self: NodeId): seq<NodeId>
    decreases |known|
  {
    if known == [] then knownNodes
    else
      var before := Learn(knownNodes, known[..|known| - 1], self);
      var n := known[|known| - 1];
      if n == self then before else Add(before, n)
  }

  /** Gossip merges the received ids into the known set, never the node's own
      id, keeps earlier entries in place and adds no duplicates. */
  lemma {:induction false} LearnSpec(knownNodes: seq<NodeId>, known: seq<NodeId>, self: NodeId)
    requires NoDup(knownNodes) && self !in knownNodes
    ensures var r := Learn(knownNodes, known, self);
      && NoDup(r)
      && self !in r
      && knownNodes <= r
      && forall n :: n in r <==> n in knownNodes || (n in known && n != self)
    decreases |known|
  {
    if known != [] {
      var init := known[..|known| - 1];
      LearnSpec(knownNodes, init, self);
      var before := Learn(knownNodes, init, self);
      AddSpec(before, known[|known| - 1]);
      assert known == init + [known[|known| - 1]];
    }
  }

  /** The log after `log(e)`: `e` in front of the old entries, the oldest
      of which falls off once there are more than 40. A log within the cap
      stays within it, and keeps its 40 newest entries. */
  function Pushed(logs: seq<LogEntry>, e: LogEntry): (r: seq<LogEntry>)
    ensures |r| >= 1 && r[0] == e
    ensures |logs| < LogCap ==> r[1..] == logs
    ensures |logs| >= LogCap ==> r[1..] == logs[..|logs| - 1]
    ensures |logs| <= LogCap ==> |r| <= LogCap && r == Take([e] + logs, LogCap)
  {
    var l := [e] + logs;
    if |l| > LogCap then l[..|l| - 1] else l
  }

  /** The peer set and the log of a node, as one `tick` step leaves them. */
  datatype Links = Links(peers: seq<NodeId>, logs: seq<LogEntry>)

  /** Step 1 of `tick`: when the 3% draw fires and there are more than two
      peers, `disconnect` the peer at position `dropAt` (modulo the count). */
  function DropTurn(peers: seq<NodeId>, logs: seq<LogEntry>, dropRoll: bool, dropAt: nat, t: string): Links
  {
    if dropRoll && |peers| > 2 then
      var p := peers[dropAt % |peers|];
      Links(Minus(peers, [p]), Pushed(logs, LogEntry(t, "Link to " + p + " dropped", Info)))
    else Links(peers, logs)
  }

  /** Step 2 of `tick`: below three peers, `connect` the known node at
      position `pickAt` (modulo the count) among those that are not peers,
      if there is one; `connect` keeps its own guards. */
  function ReconnectTurn(self: NodeId, peers: seq<NodeId>, logs: seq<LogEntry>, knownNodes: seq<NodeId>,
                         pickAt: nat, t: string): Links
  {
    if |peers| < 3 && |knownNodes| > 0 then
      var potential := Minus(knownNodes, peers);
      if |potential| > 0 then
        var p := potential[pickAt % |potential|];
        if |peers| >= MaxPeers || p == self then Links(peers, logs)
        else Links(Add(peers, p), Pushed(logs, LogEntry(t, "Linked to " + p, Info)))
      else Links(peers, logs)
    else Links(peers, logs)
  }

  /** A fired drop with more than two peers removes exactly the chosen peer,
      and logs it; otherwise step 1 changes nothing. */
  lemma DropTurnSpec(peers: seq<NodeId>, logs: seq<LogEntry>, dropRoll: bool, dropAt: nat, t: string)
    requires NoDup(peers)
    ensures var r := DropTurn(peers, logs, dropRoll, dropAt, t);
      if dropRoll && |peers| > 2 then
        var p := peers[dropAt % |peers|];
        && |r.peers| == |peers| - 1 && NoDup(r.peers)
        && (forall q :: q in r.peers <==> q in peers && q != p)
        && r.logs[0] == LogEntry(t, "Link to " + p + " dropped", Info)
      else r == Links(peers, logs)
  {
    if dropRoll && |peers| > 2 {
      var i := dropAt % |peers|;
      RemoveAtKeepsNoDup(peers, i);
      MinusOfNoDup(peers, i);
    }
  }

  /** Below three peers, a node that knows some node it is not linked to
      gains exactly one new peer, appended after the others, taken from its
      known nodes, and logs it; otherwise step 2 changes nothing. */
  lemma ReconnectTurnSpec(self: NodeId, peers: seq<NodeId>, logs: seq<LogEntry>, knownNodes: seq<NodeId>,
                          pickAt: nat, t: string)
    requires NoDup(peers) && self !in knownNodes
    ensures var r := ReconnectTurn(self, peers, logs, knownNodes, pickAt, t);
      if |peers| < 3 && exists q :: q in knownNodes && q !in peers then
        && |r.peers| == |peers| + 1 && r.peers[..|peers|] == peers
        && r.peers[|peers|] in knownNodes && r.peers[|peers|] !in peers
        && r.logs[0] == LogEntry(t, "Linked to " + r.peers[|peers|], Info)
      else r == Links(peers, logs)
  {
    var potential := Minus(knownNodes, peers);
    if |peers| < 3 && exists q :: q in knownNodes && q !in peers {
      var q :| q in knownNodes && q !in peers;
      assert q in potential;
      var p := potential[pickAt % |potential|];
      assert p in knownNodes && p !in peers;
      assert Add(peers, p) == peers + [p];
    }
  }

  /** `P2PNode`. */
  class P2PNode {
    const id: NodeId
    var peers: seq<NodeId>
    var knownNodes: seq<NodeId>
    var history: set<string>
    var logs: seq<LogEntry>
    var msgCount: nat
    /** The messages handed to the connector, oldest first. */
    var sent: seq<Send>
    /** The transaction ids the node has received and processed. */
    ghost var received: set<string>

    /** The peer set never exceeds five and never holds the node itself, the
        known set never holds the node itself, the log never exceeds 40
        entries, and `msgCount` counts distinct received transaction ids. */
    ghost predicate Valid()
      reads this
    {
      && |peers| <= MaxPeers && NoDup(peers) && id !in peers
      && NoDup(knownNodes) && id !in knownNodes
      && |logs| <= LogCap
      && received <= history && msgCount == |received|
    }

    /** A new node starts with no peers, no known nodes, no history and an
        empty log. Registration with the connector is not modelled. */
    constructor (id: NodeId)
      ensures Valid() && this.id == id
      ensures peers == [] && knownNodes == [] && history == {} && logs == [] && msgCount == 0
      ensures sent == [] && received == {}
    {
      this.id := id;
      peers, knownNodes, history, logs, msgCount, sent := [], [], {}, [], 0, [];
      received := {};
    }

    /** The discovery callback: a node id announced in the lobby is learnt
        unless it is the node's own. */
    method Discover(foundId: NodeId)
      requires Valid()
      modifies this`knownNodes
      ensures Valid()
      ensures knownNodes == if foundId == id then old(knownNodes) else Add(old(knownNodes), foundId)
    {
      if foundId != id {
        AddSpec(knownNodes, foundId);
        knownNodes := Add(knownNodes, foundId);
      }
    }

    /** `log`: the entry goes to the front and the oldest entry is dropped
        when there are then more than 40. */
    method Log(msg: string, kind: LogKind, t: string)
      modifies this`logs
      ensures logs == Pushed(old(logs), LogEntry(t, msg, kind))
    {
      logs := [LogEntry(t, msg, kind)] + logs;
      if |logs| > LogCap {
        logs := logs[..|logs| - 1];
      }
    }

    /** `connect`: adds the peer unless there are already five or it is the
        node itself. An id already present leaves the set as it is but is
        still logged as linked. */
    method Connect(peerId: NodeId, t: string)
      requires Valid()
      modifies this`peers, this`logs
      ensures Valid()
      ensures |old(peers)| >= MaxPeers || peerId == id ==> peers == old(peers) && logs == old(logs)
      ensures |old(peers)| < MaxPeers && peerId != id ==>
        && peers == Add(old(peers), peerId)
        && logs == Pushed(old(logs), LogEntry(t, "Linked to " + peerId, Info))
    {
      if |peers| >= MaxPeers || peerId == id {
        return;
      }
      AddSpec(peers, peerId);
      peers := Add(peers, peerId);
      Log("Linked to " + peerId, Info, t);
    }

    /** `disconnect`: removes the peer and logs it, or does nothing when it
        is not a peer. */
    method Disconnect(peerId: NodeId, t: string)
      requires Valid()
      modifies this`peers, this`logs
      ensures Valid()
      ensures peerId in old(peers) ==>
        && peers == Minus(old(peers), [peerId]) && |peers| == |old(peers)| - 1
        && logs == Pushed(old(logs), LogEntry(t, "Link to " + peerId + " dropped", Info))
      ensures peerId !in old(peers) ==> peers == old(peers) && logs == old(logs)
    {
      if peerId in peers {
        var i :| 0 <= i < |peers| && peers[i] == peerId;
        RemoveAtKeepsNoDup(peers, i);
        assert Minus(peers, [peerId]) == RemoveAt(peers, i) by {
          MinusOfNoDup(peers, i);
        }
        peers := Minus(peers, [peerId]);
        Log("Link to " + peerId + " dropped", Info, t);
      }
    }

    /** `relay`: the packet, unmodified, to every current peer, including the
        one it came from. */
    method Relay(p: Packet)
      modifies this`sent
      ensures sent == old(sent) + SendToAll(peers, p)
    {
      var i := 0;
      while i < |peers|
        invariant 0 <= i <= |peers|
        invariant sent == old(sent) + SendToAll(peers[..i], p)
      {
        assert peers[..i + 1][..i] == peers[..i];
        sent := sent + [Send(peers[i], p)];
        i := i + 1;
      }
      assert peers[..|peers|] == peers;
    }

    /** `_onReceive` on a parsed message from `sender`. */
    method OnReceive(sender: NodeId, packet: Packet, t: string)
      requires Valid()
      modifies this
      ensures Valid()
      ensures packet.Gossip? ==>
        && knownNodes == Learn(old(knownNodes), packet.known, id)
        && (if |old(peers)| < 2 && sender !in old(peers) && sender != id
            then (peers == old(peers) + [sender]
              && logs == Pushed(old(logs), LogEntry(t, "Linked to " + sender, Info)))
            else (peers == old(peers) && logs == old(logs)))
        && history == old(history) && received == old(received) && msgCount == old(msgCount)
        && sent == old(sent)
      ensures packet.Tx? && packet.mid in old(history) ==> unchanged(this)
      ensures packet.Tx? && packet.mid !in old(history) ==>
        && history == old(history) + {packet.mid}
        && received == old(received) + {packet.mid}
        && msgCount == old(msgCount) + 1
        && peers == old(peers) && knownNodes == old(knownNodes)
        && logs == Pushed(old(logs), LogEntry(t, "Received Atomic TX: \"" + packet.content + "\"", In))
        && sent == old(sent) + SendToAll(peers, packet)
      ensures packet.Unrecognised? ==> unchanged(this)
    {
      match packet
      case Gossip(known) =>
        OnGossip(sender, known, t);
      case Tx(mid, content, origin) =>
        OnTx(mid, content, origin, t);
      case Unrecognised =>
    }

    /** The GOSSIP branch of `_onReceive`. */
    method OnGossip(sender: NodeId, known: seq<NodeId>, t: string)
      requires Valid()
      modifies this`knownNodes, this`peers, this`logs
      ensures Valid()
      ensures knownNodes == Learn(old(knownNodes), known, id)
      ensures if |old(peers)| < 2 && sender !in old(peers) && sender != id
        then peers == old(peers) + [sender] && logs == Pushed(old(logs), LogEntry(t, "Linked to " + sender, Info))
        else peers == old(peers) && logs == old(logs)
    {
      var i := 0;
      while i < |known|
        invariant 0 <= i <= |known|
        invariant knownNodes == Learn(old(knownNodes), known[..i], id)
        invariant NoDup(knownNodes) && id !in knownNodes
        modifies this`knownNodes
      {
        assert known[..i + 1][..i] == known[..i];
        if known[i] != id {
          AddSpec(knownNodes, known[i]);
          knownNodes := Add(knownNodes, known[i]);
        }
        i := i + 1;
      }
      assert known[..|known|] == known;
      if |peers| < 2 && sender !in peers {
        Connect(sender, t);
      }
    }

    /** The TX branch of `_onReceive`: a new id is recorded, counted,
        logged and relayed; a known id is ignored. */
    method OnTx(mid: string, content: string, origin: NodeId, t: string)
      requires Valid()
      modifies this`history, this`received, this`msgCount, this`logs, this`sent
      ensures Valid()
      ensures mid in old(history) ==>
        && history == old(history) && received == old(received) && msgCount == old(msgCount)
        && logs == old(logs) && sent == old(sent)
      ensures mid !in old(history) ==>
        && history == old(history) + {mid}
        && received == old(received) + {mid}
        && msgCount == old(msgCount) + 1
        && logs == Pushed(old(logs), LogEntry(t, "Received Atomic TX: \"" + content + "\"", In))
        && sent == old(sent) + SendToAll(peers, Tx(mid, content, origin))
    {
      if mid in history {
        return;
      }
      history := history + {mid};
      received := received + {mid};
      msgCount := msgCount + 1;
      Log("Received Atomic TX: \"" + content + "\"", In, t);
      Relay(Tx(mid, content, origin));
    }

    /** `broadcast`: a new transaction with the caller-chosen id `mid`,
        recorded in `history` before it is relayed so that its echoes are
        dropped. */
    method Broadcast(content: string, mid: string, t: string)
      requires Valid()
      modifies this`history, this`logs, this`sent
      ensures Valid()
      ensures history == old(history) + {mid}
      ensures logs == Pushed(old(logs), LogEntry(t, "Broadcasting: " + content, Out))
      ensures sent == old(sent) + SendToAll(peers, Tx(mid, content, id))
    {
      history := history + {mid};
      Log("Broadcasting: " + content, Out, t);
      Relay(Tx(mid, content, id));
    }

    /** `tick`. `dropRoll` is the outcome of the 3% draw; `dropAt`, `pickAt`
        and `gossipAt` choose, modulo the length, the peer to drop, the known
        node to connect and the peer to gossip to. */
    method Tick(dropRoll: bool, dropAt: nat, pickAt: nat, gossipAt: nat, t: string)
      requires Valid()
      modifies this`peers, this`logs, this`sent
      ensures Valid()
      ensures var d := DropTurn(old(peers), old(logs), dropRoll, dropAt, t);
        var c := ReconnectTurn(id, d.peers, d.logs, knownNodes, pickAt, t);
        peers == c.peers && logs == c.logs
      ensures sent == old(sent) +
        if |peers| > 0 then [Send(peers[gossipAt % |peers|], Gossip(Take(knownNodes, GossipSample)))] else []
      ensures forall p :: p in old(peers) && p !in peers ==>
        dropRoll && |old(peers)| > 2 && p == old(peers)[dropAt % |old(peers)|]
      ensures forall p :: p in peers && p !in old(peers) ==> p in knownNodes && |peers| <= 3
    {
      DropTurnSpec(peers, logs, dropRoll, dropAt, t);
      TickDrop(dropRoll, dropAt, t);
      ghost var afterDrop := peers;
      ReconnectTurnSpec(id, peers, logs, knownNodes, pickAt, t);
      TickReconnect(pickAt, t);
      assert forall p :: p in afterDrop ==> p in peers;
      if |peers| > 0 {
        var target := peers[gossipAt % |peers|];
        sent := sent + [Send(target, Gossip(Take(knownNodes, GossipSample)))];
      }
    }

    /** Step 1 of `tick`: the random drop. */
    method TickDrop(dropRoll: bool, dropAt: nat, t: string)
      requires Valid()
      modifies this`peers, this`logs
      ensures Valid()
      ensures Links(peers, logs) == DropTurn(old(peers), old(logs), dropRoll, dropAt, t)
    {
      if dropRoll && |peers| > 2 {
        Disconnect(peers[dropAt % |peers|], t);
      }
    }

    /** Step 2 of `tick`: reconnect below three peers. */
    method TickReconnect(pickAt: nat, t: string)
      requires Valid()
      modifies this`peers, this`logs
      ensures Valid()
      ensures Links(peers, logs) == ReconnectTurn(id, old(peers), old(logs), knownNodes, pickAt, t)
    {
      if |peers| < 3 && |knownNodes| > 0 {
        var potential := Minus(knownNodes, peers);
        if |potential| > 0 {
          Connect(potential[pickAt % |potential|], t);
        }
      }
    }
  }
}
