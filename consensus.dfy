/**
  The adapter between the Raft library and the gossip layer, and the consensus
  node's event handlers.

  `RPCConnector` is the channel the Raft library talks through: `broadcast` and
  `send` hand an envelope to the gossip client, and `received` passes an inbound
  protocol message on to the library only when it is unaddressed or addressed
  to this node. `RaftConsensus` reacts to the library's events: a leader
  election starts or stops the block builder, a committed entry is handed to
  the builder (a failure to commit is swallowed) and restarts it while leader,
  an inbound gossip message of type "RaftMessage" goes to the connector, and a
  newly built block is appended to the replicated log.

  The Raft algorithm is not modelled: whether the node is leader is a field the
  environment sets. The gossip client is an outbox of envelopes, the
  "received" emitter an inbox of events, the block builder a running flag plus
  the list of commit attempts, and the replicated log the list of appended
  entries.
*/
module Consensus {
  import opened Types

  type NodeId = string

  type Bytes = seq<bv8>

  /** A protocol message of the Raft library; `to` is set on messages meant for one node. */
  datatype RaftMessage = RaftMessage(to: Option<NodeId>, content: string)

  /** The gossip group and message type every consensus envelope carries. */
  const ConsensusGroup: string := "consensus"
  const RaftMessageType: string := "RaftMessage"

  /** A call made on the gossip client. */
  datatype GossipCall =
    | BroadcastMessage(broadcastGroup: string, messageType: string, buffer: Bytes, immediate: bool)
    | UnicastMessage(recipient: NodeId, broadcastGroup: string, messageType: string, buffer: Bytes, immediate: bool)

  /** A "received" event the connector emits to the Raft library. */
  datatype ReceivedEvent = ReceivedEvent(originNodeId: NodeId, message: RaftMessage)

  /**
    What the Raft library's channel hands to `broadcast` and `send`, and what
    comes back out of a "RaftMessage" buffer: the sending node and the protocol
    message. `onMessageReceived` reads both fields out of the decoded payload.
  */
  datatype ChannelFrame = ChannelFrame(from: NodeId, data: RaftMessage)

  datatype BlockHeader = BlockHeader(height: int, prevBlockHash: Bytes, timestamp: Timestamp)
  datatype BlockBody = BlockBody(transactions: seq<Transaction>)
  datatype Block = Block(header: BlockHeader, body: BlockBody)

  /** A replicated log entry: one block. */
  datatype ConsensusMessage = ConsensusMessage(block: Block)

  /**
    One call of the block builder's `commitBlock` with `block`, and whether it
    threw. `index` is the Raft log index of the "committed" event that made the
    call; it is not passed to `commitBlock`.
  */
  datatype CommitAttempt = CommitAttempt(block: Block, index: int, failed: bool)

  /** Is `message` one the node `id` should pass on: unaddressed, or addressed to `id`? */
  predicate IsForNode(id: NodeId, message: RaftMessage)
  {
    message.to.None? || message.to.value == id
  }

  /** The events `received` emits on the node `id`: at most one, and only for a message meant for it. */
  function Forwarded(id: NodeId, originNodeId: NodeId, message: RaftMessage): (events: seq<ReceivedEvent>)
    ensures |events| <= 1
    ensures events != [] <==> (message.to == None || message.to == Some(id))
    ensures forall e :: e in events ==> e == ReceivedEvent(originNodeId, message)
  {
    if IsForNode(id, message) then [ReceivedEvent(originNodeId, message)] else []
  }

  /** The envelope `broadcast` hands to the gossip client for a serialised message. */
  function BroadcastEnvelope(buffer: Bytes): GossipCall
  {
    BroadcastMessage(ConsensusGroup, RaftMessageType, buffer, true)
  }

  /** The envelope `send` hands to the gossip client for a serialised message to `nodeId`. */
  function UnicastEnvelope(nodeId: NodeId, buffer: Bytes): GossipCall
  {
    UnicastMessage(nodeId, ConsensusGroup, RaftMessageType, buffer, true)
  }

  /** The events `onMessageReceived` causes on the node `id`: only "RaftMessage" is routed to `received`. */
  function Dispatched(id: NodeId, messageType: string, message: ChannelFrame): (events: seq<ReceivedEvent>)
    ensures messageType != RaftMessageType ==> events == []
    ensures messageType == RaftMessageType ==> events == Forwarded(id, message.from, message.data)
  {
    if messageType == RaftMessageType then Forwarded(id, message.from, message.data) else []
  }

  /**
    A frame a node broadcasts, its buffer decoded on any node `receiver`,
    reaches that node's Raft library exactly when the protocol message is
    unaddressed or addressed to `receiver`, and then with the origin and the
    message the frame carried.
  */
  lemma BroadcastDelivered(receiver: NodeId, d: ChannelFrame,
                           serialize: ChannelFrame -> Bytes, deserialize: Bytes -> ChannelFrame)
    requires deserialize(serialize(d)) == d
    ensures var g := BroadcastEnvelope(serialize(d));
            && g.broadcastGroup == "consensus" && g.messageType == "RaftMessage" && g.immediate
            && Dispatched(receiver, g.messageType, deserialize(g.buffer)) == Forwarded(receiver, d.from, d.data)
            && Dispatched(receiver, g.messageType, deserialize(g.buffer))
               == if d.data.to == None || d.data.to == Some(receiver) then [ReceivedEvent(d.from, d.data)] else []
  {
  }

  /**
    A frame sent to `nodeId`, its buffer decoded at that recipient, reaches the
    recipient's Raft library unless the protocol message is addressed to some
    other node.
  */
  lemma SendDelivered(nodeId: NodeId, d: ChannelFrame,
                      serialize: ChannelFrame -> Bytes, deserialize: Bytes -> ChannelFrame)
    requires deserialize(serialize(d)) == d
    ensures var g := UnicastEnvelope(nodeId, serialize(d));
            && g.recipient == nodeId
            && g.broadcastGroup == "consensus" && g.messageType == "RaftMessage" && g.immediate
            && Dispatched(g.recipient, g.messageType, deserialize(g.buffer)) == Forwarded(nodeId, d.from, d.data)
            && Dispatched(g.recipient, g.messageType, deserialize(g.buffer))
               == if d.data.to == None || d.data.to == Some(nodeId) then [ReceivedEvent(d.from, d.data)] else []
  {
  }

  /** The transport adapter of one node. `serialize` stands for the JSON encoding of a frame into a buffer. */
  class RPCConnector {
    const id: NodeId
    const serialize: ChannelFrame -> Bytes
    /** Every call made on the gossip client, in order. */
    var gossipCalls: seq<GossipCall>
    /** Every "received" event emitted, in order. */
    var emitted: seq<ReceivedEvent>

    constructor (id: NodeId, serialize: ChannelFrame -> Bytes)
      ensures this.id == id && this.serialize == serialize
      ensures gossipCalls == [] && emitted == []
    {
      this.id := id;
      this.serialize := serialize;
      gossipCalls := [];
      emitted := [];
    }

    /** Passes an inbound message on only when it is unaddressed or addressed to this node. */
    method Received(originNodeId: NodeId, message: RaftMessage)
      modifies this`emitted
      ensures emitted == old(emitted) + Forwarded(id, originNodeId, message)
    {
      if IsForNode(id, message) {
        emitted := emitted + [ReceivedEvent(originNodeId, message)];
      }
    }

    /** One gossip broadcast in the consensus group carrying the serialised frame. */
    method Broadcast(data: ChannelFrame)
      modifies this`gossipCalls
      ensures gossipCalls == old(gossipCalls) + [BroadcastMessage("consensus", "RaftMessage", serialize(data), true)]
    {
      gossipCalls := gossipCalls + [BroadcastEnvelope(serialize(data))];
    }

    /** One gossip unicast to `nodeId` in the consensus group carrying the serialised frame. */
    method Send(nodeId: NodeId, data: ChannelFrame)
      modifies this`gossipCalls
      ensures gossipCalls == old(gossipCalls) + [UnicastMessage(nodeId, "consensus", "RaftMessage", serialize(data), true)]
    {
      gossipCalls := gossipCalls + [UnicastEnvelope(nodeId, serialize(data))];
    }
  }

  /**
    A consensus node. `nodeIsLeader` is what the Raft library answers to
    `isLeader()`; `builderRunning` is whether the block builder was last started
    rather than stopped. The ghost flag `synced` records that a leader election
    has been handled since the role last changed.
  */
  class RaftConsensus {
    const connector: RPCConnector
    var nodeIsLeader: bool
    var builderRunning: bool
    var commits: seq<CommitAttempt>
    var appended: seq<ConsensusMessage>
    ghost var synced: bool

    /** Once an election has been handled and the role has not changed since, the builder runs exactly while leader. */
    ghost predicate Valid()
      reads this
    {
      synced ==> builderRunning == nodeIsLeader
    }

    constructor (nodeName: NodeId, serialize: ChannelFrame -> Bytes)
      ensures Valid() && fresh(connector)
      ensures connector.id == nodeName && connector.serialize == serialize
      ensures connector.gossipCalls == [] && connector.emitted == []
      ensures !nodeIsLeader && !builderRunning && commits == [] && appended == []
    {
      connector := new RPCConnector(nodeName, serialize);
      nodeIsLeader := false;
      builderRunning := false;
      commits := [];
      appended := [];
      synced := true;
    }

    /** The Raft library changes the node's role. */
    method RoleChanged(leader: bool)
      requires Valid()
      modifies this`nodeIsLeader, this`synced
      ensures Valid() && nodeIsLeader == leader
    {
      if leader != nodeIsLeader {
        synced := false;
      }
      nodeIsLeader := leader;
    }

    /** Starts the block builder when leader, and stops it otherwise. */
    method OnLeaderElected()
      modifies this`builderRunning, this`synced
      ensures Valid() && synced
      ensures builderRunning == nodeIsLeader
    {
      if nodeIsLeader {
        builderRunning := true;
      } else {
        builderRunning := false;
      }
      synced := true;
    }

    /**
      Hands the committed block to the builder exactly once; `commitFails` is
      whether that call throws, which is caught. Then restarts the builder if
      the node is leader; a follower's builder is left as it was.
    */
    method OnCommitted(data: ConsensusMessage, index: int, commitFails: bool)
      requires Valid()
      modifies this`commits, this`builderRunning
      ensures Valid()
      ensures commits == old(commits) + [CommitAttempt(data.block, index, commitFails)]
      ensures builderRunning == (old(builderRunning) || nodeIsLeader)
    {
      commits := commits + [CommitAttempt(data.block, index, commitFails)];
      if nodeIsLeader {
        builderRunning := true;
      }
    }

    /** Routes a "RaftMessage" gossip message to the connector; any other type has no effect. */
    method OnMessageReceived(fromAddress: string, messageType: string, message: ChannelFrame)
      modifies connector`emitted
      ensures connector.emitted == old(connector.emitted) + Dispatched(connector.id, messageType, message)
    {
      if messageType == RaftMessageType {
        connector.Received(message.from, message.data);
      }
    }

    /** Appends the built block to the replicated log as one entry. */
    method OnNewBlockBuild(block: Block)
      modifies this`appended
      ensures appended == old(appended) + [ConsensusMessage(block)]
    {
      appended := appended + [ConsensusMessage(block)];
    }

    method IsLeader() returns (r: bool)
      ensures r == nodeIsLeader
    {
      r := nodeIsLeader;
    }
  }
}
