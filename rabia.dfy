/**
  The Rabia replica: its cluster configuration (peer count, server count and the
  quorum size used by every phase), the common coin, and the dispatch of an
  inbound message to the client-command handler.
*/
module Rabia {
  import opened Ints
  import opened Wrappers
  import opened Messages

  // ---------------------------------------------------------------------------
  // Quorum arithmetic
  // ---------------------------------------------------------------------------

  /** The quorum size for a cluster of `npeers` peers plus this replica. */
  function QuorumSize(npeers: nat): (q: nat)
    ensures npeers + 2 <= 2 * q <= npeers + 3
  {
    (npeers + 2 + npeers % 2) / 2
  }

  /** Ceiling division, as an independent reference. */
  function CeilDiv(a: nat, b: nat): (c: nat)
    requires b > 0
  {
    (a + b - 1) / b
  }

  /** The formula is the ceiling of (npeers + 2) / 2. */
  lemma QuorumIsCeiling(npeers: nat)
    ensures QuorumSize(npeers) == CeilDiv(npeers + 2, 2)
  {
  }

  /**
    With `nservers == npeers + 1`, the quorum is `nservers / 2 + 1`: a strict
    majority of the servers, and no smaller number is one.
  */
  lemma QuorumIsSmallestMajority(npeers: nat, k: int)
    ensures QuorumSize(npeers) == (npeers + 1) / 2 + 1
    ensures 2 * QuorumSize(npeers) > npeers + 1
    ensures 1 <= QuorumSize(npeers) <= npeers + 1
    ensures 2 * k > npeers + 1 ==> QuorumSize(npeers) <= k
  {
  }

  /** Any two quorums drawn from the same set of servers share a server. */
  lemma QuorumsIntersect(servers: set<uint32>, a: set<uint32>, b: set<uint32>)
    requires |servers| >= 1
    requires a <= servers && b <= servers
    requires |a| >= QuorumSize(|servers| - 1) && |b| >= QuorumSize(|servers| - 1)
    ensures exists s :: s in a && s in b
  {
    QuorumIsSmallestMajority(|servers| - 1, 0);
    SubsetCardinality(a + b, servers);
    assert |a * b| == |a| + |b| - |a + b| > 0;
    var s :| s in a * b;
  }

  lemma {:induction false} SubsetCardinality(x: set<uint32>, y: set<uint32>)
    requires x <= y
    ensures |x| <= |y|
    decreases |y|
  {
    if x != {} {
      var e :| e in x;
      SubsetCardinality(x - {e}, y - {e});
    }
  }

  // ---------------------------------------------------------------------------
  // The common coin
  // ---------------------------------------------------------------------------

  /** `common_coin()`, given the value `r` that `rand()` produced (never negative). */
  function CommonCoin(r: int): (c: int)
    requires r >= 0
    ensures c == 0 || c == 1
  {
    r % 2
  }

  // ---------------------------------------------------------------------------
  // Dispatch of inbound messages
  // ---------------------------------------------------------------------------

  /** A call of the client-command handler, whose own behaviour is not modelled. */
  datatype ClientCall = ClientCall(client: uint64, command: Command)

  /**
    The `switch` in `Run`, on a given message kind: a client request goes to the
    handler with the sender and the command; every other kind is ignored. The
    handler reads the command through a cast, so the message must be a client
    request when the kind says it is.
  */
  function RouteOnKind(kind: MessageType, msg: Message): (call: Option<ClientCall>)
    requires kind == CMD_REQ ==> msg.CmdReq?
    ensures call.Some? <==> kind == CMD_REQ
    ensures call.Some? ==> call.value.client == msg.hdr.src && call.value.command == msg.command
  {
    match kind
    case CMD_REQ => Some(ClientCall(msg.hdr.src, msg.command))
    case _ => None
  }

  /** `Run` as written: it switches on the static `MessageType` of `TMessage`. */
  function RouteAsWritten(msg: Message): (call: Option<ClientCall>)
    ensures call == None
  {
    RouteOnKind(BaseMessageType, msg)
  }

  /** `Run` switching on the runtime `Type` tag of the message. */
  function Route(msg: Message): (call: Option<ClientCall>)
    requires msg.hdr.typeTag == MessageTypeTag(CMD_REQ) ==> msg.CmdReq?
    ensures call.Some? <==> msg.hdr.typeTag == MessageTypeTag(CMD_REQ)
    ensures call.Some? ==> call.value == ClientCall(msg.hdr.src, msg.command)
  {
    match MessageTypeFromTag(msg.hdr.typeTag)
    case Some(kind) => RouteOnKind(kind, msg)
    case None => None
  }

  /** A well-tagged client request reaches the handler under `Route` and not as written. */
  lemma AsWrittenDropsClientRequest()
    ensures var msg := CmdReq(Header(MessageTypeTag(CMD_REQ), 48, 7, 0), Command(1, SET, 1, 42));
      && Route(msg) == Some(ClientCall(7, Command(1, SET, 1, 42)))
      && RouteAsWritten(msg) == None
  {
  }

  // ---------------------------------------------------------------------------
  // The replica
  // ---------------------------------------------------------------------------

  /** `TRabia`; `R` stands for the replicated state machine it is given. */
  class Replica<R> {
    var rsm: R
    /** The `node` argument the replica was built with. */
    ghost const node: int32
    var id: uint32
    var nodes: set<uint32>
    var quorumSize: int
    var npeers: int
    var nservers: int
    var seed: uint32
    var cmdSeq: uint64
    var slotIdx: uint64
    var storage: map<uint64, uint64>
    var pendingRequests: map<int32, uint32>

    /** The configuration the constructor establishes and nothing changes afterwards. */
    ghost predicate Valid()
      reads this
    {
      && id == node % TWO_32
      && npeers >= 0
      && nservers == npeers + 1
      && quorumSize == QuorumSize(npeers)
    }

    /**
      The constructor. It records the state machine, the node id (converted to
      32 bits) and the sizes derived from the peer table; it never stores the
      peer table itself, so `nodes` stays empty.
    */
    constructor (rsm: R, node: int32, nodeDict: set<uint32>)
      ensures Valid()
      ensures this.rsm == rsm
      ensures this.node == node
      ensures id == node % TWO_32 && (0 <= node < TWO_32 ==> id == node)
      ensures npeers == |nodeDict| && nservers == |nodeDict| + 1
      ensures quorumSize == QuorumSize(|nodeDict|)
      ensures nodes == {}
      ensures seed == 31337 && cmdSeq == 1 && slotIdx == 1
      ensures storage == map[] && pendingRequests == map[]
    {
      this.rsm := rsm;
      this.node := node;
      id := node % TWO_32;
      npeers := |nodeDict|;
      nservers := |nodeDict| + 1;
      quorumSize := (|nodeDict| + 2 + |nodeDict| % 2) / 2;
      nodes := {};
      seed := 31337;
      cmdSeq := 1;
      slotIdx := 1;
      storage := map[];
      pendingRequests := map[];
    }

    /** The node id, converted from the constructor's `int` argument to 32 bits. */
    function GetId(): (r: uint32)
      reads this
      requires Valid()
      ensures r == node % TWO_32
      ensures 0 <= node ==> r == node
    {
      id
    }

    function GetNpeers(): (r: int)
      reads this
      requires Valid()
      ensures r == nservers - 1 && r >= 0
    {
      npeers
    }

    function GetNservers(): (r: int)
      reads this
      requires Valid()
      ensures r == npeers + 1
    {
      nservers
    }

    /** The quorum is the smallest strict majority of the servers. */
    function GetQuorumSize(): (r: int)
      reads this
      requires Valid()
      ensures r == nservers / 2 + 1
      ensures 2 * r > nservers && 1 <= r <= nservers
    {
      QuorumIsSmallestMajority(npeers, 0);
      quorumSize
    }

    /** `TRabia::Run`, dispatching on the runtime tag; it changes no state of the replica. */
    method Run(msg: Message) returns (call: Option<ClientCall>)
      requires msg.hdr.typeTag == MessageTypeTag(CMD_REQ) ==> msg.CmdReq?
      ensures call == Route(msg)
    {
      call := Route(msg);
    }
  }
}
