/** The record shapes (`types.ts`) and configuration constants
    (`constants.ts`) of the simulated mesh. */
module MeshTypes {
  import opened Seqs

  type NodeId = string

  /** `CONFIG.nodeCount`: the simulation starts 30 nodes. */
  const NodeCount := 30
  /** `CONFIG.maxConnections`: a gossip never grows a node past 5 peers. */
  const MaxConnections := 5
  /** `CONFIG.minConnections`: below 2 peers, a tick connects one more. */
  const MinConnections := 2

  datatype Status = Online | Offline

  datatype Direction = In | Out

  /** `LogEntry`. */
  datatype LogEntry = LogEntry(timestamp: int, content: string, kind: Direction)

  /** `NodeState`; an absent `lastMessage` is `None`. */
  datatype NodeState = NodeState(
    id: NodeId,
    status: Status,
    connectedPeers: seq<NodeId>,
    knownPeers: seq<NodeId>,
    messageLog: seq<LogEntry>,
    lastUpdate: int,
    lastMessage: Option<string>)

  datatype MsgType = Gossip | Data

  /** The payload: a gossip carries `knownPeers`, a data message `text`;
      either may be absent. */
  datatype Payload = Payload(knownPeers: Option<seq<NodeId>>, text: Option<string>)

  /** `P2PMessage`. */
  datatype P2PMessage = P2PMessage(id: string, sender: NodeId, kind: MsgType, payload: Payload, hopCount: int)
}
