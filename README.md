# Atomic Ownership Blockchain and P2P mesh: a Dafny model

This project models the three pieces of sequential logic in the AOB
(Atomic Ownership Blockchain) demo. It proves properties of each model.

- **The per-note ownership ledger** (`blockchain.js`, module `Blockchain`):
  - The serial-number denomination buckets.
  - The simulated signature scheme (`sign`/`verify`).
  - `BanknoteChain`, an append-only list of blocks. The newest block names the
    current owner: line 2 of a genesis block, line 0 of a transfer block.
  - `addTransferBlock` writes `recipient\nprevHash\ntimestamp`, signs it as
    `digest(core + privKey)`, appends `\nSig: <sig>`, hashes the whole text and
    pushes the block.
- **The browser mesh node** (`p2p.js`, module `P2P`, class `P2PNode`):
  - State: a peer set (at most five), a known-node set, the seen-transaction set
    `history`, a log of the 40 newest events and a receive counter.
  - Behaviour: GOSSIP messages merge known ids. TX messages are deduplicated
    through `history` and relayed to every peer. `tick` drops, reconnects and
    gossips.
- **The simulated mesh manager** (`services/NodeManager.ts`, modules
  `MeshTypes` and `Mesh`, class `NodeManager`):
  - A map of 30 `NodeState` records `node-01`..`node-30`.
  - GOSSIP merges peer lists and may connect the sender.
  - DATA messages flood with a hop count and skip the original sender.
  - Deduplication is only a substring search of each node's 50-entry log.
  - A periodic tick drops, reconnects and gossips.

The helpers live in `Seqs` and `Strings`. `Seqs` covers duplicate-free
sequences (an insertion-ordered JavaScript `Set`), `filter`, `splice`, `slice`
and `Array.from(new Set(..))`. `Strings` covers `split`/`join` on one separator,
`includes`, and the decimal and `padStart` rendering of numbers.

Conventions of the model:

- **Digest.** The ledger's digest (SHA-256 rendered in base64) is a parameter
  `digest: string -> string`, an arbitrary total function.
- **Clocks.** Each operation takes one clock reading as a parameter, used for
  every timestamp it writes.
- **Random draws.** Each random draw is a parameter. A probability test is a
  `bool`. A random index is a natural number taken modulo the length of the
  list it picks from, which allows exactly the choices `Math.floor(Math.random()
  * n)` allows.
- **Sends.** Messages handed to a connector are appended to an output sequence
  `sent`.
- **Set order.** JavaScript `Set`s iterate in insertion order, and `tick` picks
  by position. So `peers`, `knownNodes`, `connectedPeers` and `knownPeers` are
  duplicate-free sequences.
- **Map order.** The manager's `Map` is a Dafny `map` plus the insertion order
  `order` that `forEach` follows.

In these places the code behaves differently from what its comments, names or
evident intent suggest; the model follows the code:

- **Ledger.** No block points to its parent by index (the `parentIndex: -1`
  stored with a genesis block is never read), and there is no fork operation:
  each `addTransferBlock` builds on the tip it reads when it starts.
- **`P2PNode.relay`.** It keeps no hop count and does not skip the peer the
  message came from.
- **`P2PNode.connect`.** It logs "Linked to" even for a peer that is already
  present.
- **`P2PNode` tick.** It drops only above two peers and reconnects only below
  three.
- **GOSSIP in the manager.** It connects the sender whenever there are fewer
  than `maxConnections` (five) connections, not `minConnections`.
- **Manager deduplication.** There is no seen-set. A DATA message is dropped
  exactly when the text of one of the 50 newest log entries contains its id.
  An evicted id is processed again. An id that happens to occur inside other log
  text is wrongly taken as seen; the empty id is always seen once the log is
  non-empty.
- **Forwarding.** `forwardMessage` never rewrites `sender`. It therefore skips
  the message's originator, not the previous hop.
- **GOSSIP without `knownPeers`.** Spreading the missing list throws after the
  first log entry. Only that entry remains, and `lastUpdate` is not set. The
  model (`Mesh.Received`) ends at that point.

## Model

| member | source | states |
|---|---|---|
| Blockchain.Denomination | blockchain.js:12-19 | the face value is 0 exactly for serials above 500, and otherwise one of 1, 5, 10, 20, 50 |
| Blockchain.DenominationByHundreds | blockchain.js:12-19 | serials 1..500 get the face value of their hundred (`Faces[(s-1)/100]`); every serial up to 0 gets 1 |
| Blockchain.DenominationMonotone | blockchain.js:12-19 | within the issued range a higher serial never has a lower face value |
| Blockchain.Verify | blockchain.js:26-31 | `verify` accepts a signature exactly when it equals `sign` of the same content under the key passed for the simulation |
| Blockchain.VerifyAcceptsExactlySign | blockchain.js:22-31 | `verify` accepts exactly the signature `sign` makes with the same private key, whatever public key is presented |
| Blockchain.SignVerifyRoundTrip | blockchain.js:22-24 | `verify(c, sign(c, k), pk, k)` holds for every content, key and public key |
| Blockchain.Owner | blockchain.js:41-48 | the owner of a transfer block is always defined: the newline-free text of its data up to the first newline |
| Blockchain.GenesisOwner | index.js:262-264 | a genesis block in the issued layout `GENESIS\nIssuer: AOB-Lab\n<key>` is owned by the issuer key (its third line) |
| Blockchain.TransferSealed | blockchain.js:58-63 | a transfer's signature verifies against its core data `recipient\nprevHash\nts`; its data is that core plus `\nSig: <sig>`; its hash is the digest of its data |
| Blockchain.TransferLines | blockchain.js:58-62 | with newline-free fields, a transfer's lines are exactly recipient, parent hash, timestamp and the signature line |
| Blockchain.TransferOwner | blockchain.js:47 | after a transfer to a newline-free key, that key is the owner, whoever signed |
| Blockchain.AppendKeepsLinked | blockchain.js:54-66 | appending a transfer built on the tip's hash keeps every block's hash the digest of its data and its second line the previous block's hash |
| Blockchain.AppendKeepsLinkedUnderBase64 | blockchain.js:5-10 | when the digest never yields a newline, as base64 text does not, a transfer to a newline-free key on a chain past its genesis block keeps it hash-linked, with no condition on the tip |
| Blockchain.TransferEmbedsParent | blockchain.js:50-58 | the `lastHash` read at the start of a transfer (the tip's hash) is the second line of the new block's data |
| Blockchain.BanknoteChain.constructor | blockchain.js:35-39 | a new chain holds exactly the genesis block, with `denomination == getDenomination(serial)` |
| Blockchain.BanknoteChain.CurrentOwner | blockchain.js:41-48 | when the tip is a transfer, the current owner is defined and newline-free |
| Blockchain.BanknoteChain.AddTransferBlock | blockchain.js:54-68 | appends exactly the block built from the old `lastHash`, with the old `currentOwner` as sender, and keeps every earlier block; the recipient is the owner afterwards; hash links and the sender record of every block are preserved |
| P2P.SendToAllSpec | p2p.js:126-130 | relaying sends the unmodified packet to each peer, in order, once, and to nobody else |
| P2P.LearnSpec | p2p.js:89 | gossip adds every received id except the node's own, keeps the earlier known ids in place and adds no duplicate |
| P2P.P2PNode.constructor | p2p.js:55-65 | a new node has no peers, known nodes, history or log, and a zero counter |
| P2P.P2PNode.Discover | p2p.js:67-69 | a discovered id is learnt unless it is the node's own |
| P2P.Pushed | p2p.js:72-75 | the entry is first; the rest is the old log, less its oldest entry once the log held 40, so a log within 40 stays within 40 and keeps its 40 newest entries |
| P2P.P2PNode.Log | p2p.js:72-75 | the log becomes `Pushed(old log, entry)` |
| P2P.P2PNode.Connect | p2p.js:104-109 | a peer is added (and logged) only below five peers and never the node itself; an existing peer leaves the set unchanged but is logged again |
| P2P.P2PNode.Disconnect | p2p.js:111-116 | a present peer is removed and logged; an absent one changes nothing |
| P2P.P2PNode.Relay | p2p.js:126-130 | the sends are `SendToAll(peers, packet)` |
| P2P.P2PNode.OnReceive | p2p.js:85-102 | GOSSIP merges ids (`Learn`) and connects the sender only below two peers; a TX id in `history` changes nothing; a new TX id joins `history`, raises the count by one, is logged and is relayed; other types change nothing; the count always equals the number of distinct received ids |
| P2P.P2PNode.OnGossip | p2p.js:88-90 | the known set becomes `Learn(old, known, id)`; the sender is linked and logged exactly when there are fewer than two peers, it is not a peer and it is not the node itself |
| P2P.P2PNode.OnTx | p2p.js:92-100 | a known id changes nothing; a new id joins `history` and the received set, raises the count by one, is logged and is relayed to every peer |
| P2P.P2PNode.Broadcast | p2p.js:118-124 | the new id joins `history` before the message is relayed to every peer, so its echoes are dropped |
| P2P.P2PNode.TickDrop | p2p.js:133-135 | peers and log become `DropTurn` of the old ones; the node stays valid |
| P2P.P2PNode.TickReconnect | p2p.js:137-141 | peers and log become `ReconnectTurn` of the old ones; the node stays valid |
| P2P.DropTurnSpec | p2p.js:133-135 | a fired drop with more than two peers removes exactly the chosen peer, and logs it; otherwise step 1 changes nothing |
| P2P.ReconnectTurnSpec | p2p.js:137-141 | below three peers, a node that knows a node it is not linked to gains exactly one new peer, from its known nodes, appended and logged; otherwise step 2 changes nothing |
| P2P.P2PNode.Tick | p2p.js:132-150 | peers and log become `DropTurn` then `ReconnectTurn` of the old ones; the sends are the old ones plus exactly one gossip of the first 10 known ids to the chosen peer when there is a peer, and nothing else; a peer is removed only on a fired drop, a peer is added only from the known nodes and only up to three peers |
| Mesh.NodeNameTwoDigits | services/NodeManager.ts:17 | an id below 100 is `node-` followed by the number's two decimal digits |
| Mesh.NodeNameInjective | services/NodeManager.ts:17 | different numbers below 100 give different ids |
| Mesh.NodeIdsDistinct | services/NodeManager.ts:17 | the 30 generated ids are pairwise distinct |
| Mesh.SeedsSpec | services/NodeManager.ts:21-24 | a seed list drawn from a reordering of the other ids has at most three ids, without duplicates, never the node itself, all of them nodes of the network |
| Mesh.InitialStateOk | services/NodeManager.ts:26-33 | every initial node state satisfies the manager's bounds |
| Mesh.LogWindow | services/NodeManager.ts:142-148 | after a log entry is added, an id counts as seen exactly when the new entry or one of the 49 newest earlier entries mentions it |
| Mesh.DataLineMentionsId | services/NodeManager.ts:66 | the log line of a processed DATA message contains its id |
| Mesh.ForwardCopies | services/NodeManager.ts:76-91 | forwarding sends every connection except `msg.sender` one copy with the hop count raised by one and nothing else changed, and sends to nobody else |
| Mesh.Received | services/NodeManager.ts:42-74 | the node keeps its id and status; DATA never changes links or known peers, GOSSIP never drops a link nor the last text; every message not dropped is logged as "Received TYPE from sender"; a processed DATA message sets the last text, stamps the node and logs its text line with its id as the newest entry |
| Mesh.ReceivedKeepsNodeOk | services/NodeManager.ts:42-74 | receiving any message keeps at most five connections, none twice, duplicate-free known peers without the node itself, and at most 50 log entries |
| Mesh.GossipMerge | services/NodeManager.ts:54-63 | after GOSSIP the known peers are exactly old ∪ gossiped ∪ {sender} minus the node itself, each once; the sender is connected exactly when there are fewer than five connections and it is not connected |
| Mesh.DataDroppedIffSeen | services/NodeManager.ts:48-49 | a DATA message leaves the state unchanged exactly when some log entry contains its id, and is then forwarded nowhere |
| Mesh.RedeliveryDropped | services/NodeManager.ts:48-70 | a DATA message delivered again right after it was handled is dropped and forwarded nowhere |
| Mesh.EmptyIdDropped | services/NodeManager.ts:48-49 | a DATA message with the empty id is dropped by every node whose log is non-empty |
| Mesh.DropStepSpec | services/NodeManager.ts:111-115 | the drop step removes exactly the chosen connection, only when the drop fires and there is a connection, and keeps the bounds and the known peers |
| Mesh.ReconnectStepSpec | services/NodeManager.ts:118-125 | the reconnect step adds at most one connection, only below two, only a known peer not yet connected, and always one when such a peer exists |
| Mesh.TickKeepsNodeOk | services/NodeManager.ts:109-126 | a node's tick keeps the manager's bounds |
| Mesh.GossipOutSpec | services/NodeManager.ts:128-137 | a tick sends one GOSSIP exactly when the node has a connection, to a connection, from the node, with hop count 0 and the full known-peer list |
| Mesh.GossipsSpec | services/NodeManager.ts:108-137 | a whole tick sends at most one GOSSIP per node, each from that node to one of its connections with its full known-peer list; every node with a connection sends one, and over distinct ids no node sends twice |
| Mesh.NodeManager.constructor | services/NodeManager.ts:15-40 | `node-01`..`node-30` in order, each online, unconnected, with an empty log and its seed list; the manager's bounds hold |
| Mesh.NodeManager.AddLog | services/NodeManager.ts:142-148 | on a known node the entry goes first and the log is cut to 50; an unknown id changes nothing |
| Mesh.ForwardLoop | services/NodeManager.ts:85-90 | the loop produces exactly `Deliver` of the connections other than `msg.sender`, in connection order |
| Mesh.NodeManager.ForwardMessage | services/NodeManager.ts:76-91 | the sends are one hopped copy per connection other than `msg.sender`, in connection order; an unknown node sends nothing |
| Mesh.NodeManager.HandleRemoteMessage | services/NodeManager.ts:42-74 | an unknown recipient changes nothing; otherwise the node becomes `Received(node, msg)` and the sends are `Forwarded(node, msg)`; the bounds are kept |
| Mesh.NodeManager.Process | services/NodeManager.ts:52-73 | past the dedup check the node becomes `Received(node, msg)` and the sends are `Forwarded(node, msg)`; a GOSSIP without a peer list stops after its first log entry |
| Mesh.NodeManager.LearnPeers | services/NodeManager.ts:54-63 | the GOSSIP branch leaves the node as `LearnFrom` describes |
| Mesh.NodeManager.ProcessData | services/NodeManager.ts:64-70 | the DATA branch records the text, logs the line and forwards to every connection but the sender |
| Mesh.NodeManager.Broadcast | services/NodeManager.ts:93-106 | the origin logs the broadcast, and every first-hop neighbour gets the DATA message with the chosen id, `sender = fromId` and hop count 1 |
| Mesh.NodeManager.TickNode | services/NodeManager.ts:109-138 | one node's turn leaves it as `Ticked` and sends its `GossipOut` |
| Mesh.NodeManager.DropConnection | services/NodeManager.ts:111-115 | step 1 is `DropStep` |
| Mesh.NodeManager.Reconnect | services/NodeManager.ts:118-125 | step 2 is `ReconnectStep` |
| Mesh.NodeManager.SendGossip | services/NodeManager.ts:128-137 | step 3 sends `GossipOut` of the node's state after steps 1 and 2 |
| Mesh.NodeManager.Tick | services/NodeManager.ts:108-140 | every node ticks once, in insertion order; the sends are the per-node gossips in that order; the keys and the bounds are kept |

## Left out

- **The digest.** Its internals (SHA-256 through `crypto.subtle`, then `btoa`)
  are out; it is an arbitrary function parameter. Its asynchrony is out too.
- **Clocks.** `Date.now`, `toISOString` and `toLocaleTimeString` are
  parameters; their formats are not modelled. The source reads the clock
  afresh at every call (p2p.js:73 for each `log`; NodeManager.ts:72 for
  `lastUpdate`, :131 for each gossip id, :145 for each `addLog`), while the
  model takes one reading per operation. So both log entries of one
  `P2PNode.tick` carry the same time, every entry one manager operation writes
  carries the same `now`, and every gossip id of one manager tick is
  `gossip-<now>`.
- **Random draws.** `Math.random` probabilities (3% in `P2PNode.tick`, 5% in
  the manager's tick) are booleans, so the model does not capture how likely a
  drop is. The same goes for random indices and for the random ids of both
  `broadcast`s, which are parameters; the base-36 id format is not modelled.
- **Seed shuffle.** The shuffle by `sort(() => 0.5 - Math.random())` is a
  caller-supplied reordering of the other ids. Its bias is not modelled.
- **Parsing.** `JSON.parse` of incoming text is unguarded in both `p2p.js` and
  `NodeManager.ts`. Messages are datatypes, and malformed text (which throws) is
  not modelled.
- **Other message types.** A manager message whose type is neither GOSSIP nor
  DATA is outside the `types.ts` record and is not modelled.
- **Number precision.** Hop counts and timestamps are unbounded integers; the
  53-bit precision of JavaScript numbers is not modelled.
- **Side channels.** `NetworkEvents.dispatchEvent`, the `uiUpdate` callbacks,
  `subscribe`/`notify`, `setInterval` scheduling and the registration with a
  connector are not modelled. They do not change the modelled state.
- **Not part of this model.** These do no ledger or mesh logic, or are
  transport:
  - `RemoteConnector` (in `p2p.js` and `services/RemoteConnector.ts`)
  - `index.js`, apart from the genesis data layout
  - `account.js`
  - the React components
  - the browser test
- Blockchain.BanknoteChain.AddTransferBlock: modelled as one atomic step.
  The source reads `lastHash` before two awaits (blockchain.js:55, :60, :63)
  and `currentOwner` after them (:65), and `confirmPay` (index.js:310-317)
  does not serialise calls. Overlapping calls on one note can therefore build
  two blocks on the same tip, and the second breaks the hash link and may
  record the first's recipient as its sender. The model's hash-link and
  sender guarantees cover only calls that do not overlap.
- **`status`.** A node's `status` is never changed by the manager; it stays
  `Online`.
