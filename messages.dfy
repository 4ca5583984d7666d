/**
  The message and value vocabulary shared by the replicas: the wire enumerations,
  client commands and their equality, the round/state and round/vote payloads,
  the timestamp order of replicate messages, and the message kinds themselves.
*/
module Messages {
  import opened Ints
  import opened Wrappers
  import PriorityQueue

  // ---------------------------------------------------------------------------
  // Enumerations and their numeric wire tags
  // ---------------------------------------------------------------------------

  /** The key-value operation a command performs (tags 0..2, 32 bits wide). */
  datatype Operation = SET | GET | DEL

  function OperationTag(op: Operation): (t: uint32)
    ensures t < 3
    ensures OperationFromTag(t) == Some(op)
  {
    match op
    case SET => 0
    case GET => 1
    case DEL => 2
  }

  function OperationFromTag(t: uint32): (op: Option<Operation>)
    ensures op.Some? <==> t < 3
  {
    if t == 0 then Some(SET)
    else if t == 1 then Some(GET)
    else if t == 2 then Some(DEL)
    else None
  }

  /** The eight message kinds; the kind's tag is what the `Type` header field carries. */
  datatype MessageType = PROTOCAL | CMD_REQ | REPLICATE | PROPOSAL | STATE | VOTE | DECIDED | RESPONSE

  function MessageTypeTag(k: MessageType): (t: uint32)
    ensures t < 8
    ensures MessageTypeFromTag(t) == Some(k)
  {
    match k
    case PROTOCAL => 0
    case CMD_REQ => 1
    case REPLICATE => 2
    case PROPOSAL => 3
    case STATE => 4
    case VOTE => 5
    case DECIDED => 6
    case RESPONSE => 7
  }

  /** Decodes a `Type` tag; any tag outside 0..7 names no kind. */
  function MessageTypeFromTag(t: uint32): (k: Option<MessageType>)
    ensures k.Some? <==> t < 8
  {
    if t == 0 then Some(PROTOCAL)
    else if t == 1 then Some(CMD_REQ)
    else if t == 2 then Some(REPLICATE)
    else if t == 3 then Some(PROPOSAL)
    else if t == 4 then Some(STATE)
    else if t == 5 then Some(VOTE)
    else if t == 6 then Some(DECIDED)
    else if t == 7 then Some(RESPONSE)
    else None
  }

  lemma MessageTypeTagsBijective(k: MessageType, t: uint32)
    ensures MessageTypeFromTag(t).Some? ==> MessageTypeTag(MessageTypeFromTag(t).value) == t
    ensures forall k' :: MessageTypeTag(k') == MessageTypeTag(k) ==> k' == k
  {
  }

  lemma OperationTagsBijective(op: Operation, t: uint32)
    ensures OperationFromTag(t).Some? ==> OperationTag(OperationFromTag(t).value) == t
  {
  }

  /** The kind of a state message: a real command, or the bottom marker. */
  datatype StateType = CMD | BOT

  function StateTypeTag(s: StateType): (t: uint16)
    ensures t < 2
    ensures StateTypeFromTag(t) == Some(s)
  {
    match s
    case CMD => 0
    case BOT => 1
  }

  function StateTypeFromTag(t: uint16): (s: Option<StateType>)
    ensures s.Some? <==> t < 2
  {
    if t == 0 then Some(CMD) else if t == 1 then Some(BOT) else None
  }

  /** The kind of a vote: a vote for a command, or a question-mark vote. */
  datatype VoteType = CMD_VOTE | QMARK_VOTE

  function VoteTypeTag(v: VoteType): (t: uint16)
    ensures t < 2
    ensures VoteTypeFromTag(t) == Some(v)
  {
    match v
    case CMD_VOTE => 0
    case QMARK_VOTE => 1
  }

  function VoteTypeFromTag(t: uint16): (v: Option<VoteType>)
    ensures v.Some? <==> t < 2
  {
    if t == 0 then Some(CMD_VOTE) else if t == 1 then Some(QMARK_VOTE) else None
  }

  /** Both the state kinds and the vote kinds are two-valued, and their tags round-trip. */
  lemma StateAndVoteTagsBijective(s: StateType, v: VoteType, t: uint16)
    ensures s == CMD || s == BOT
    ensures v == CMD_VOTE || v == QMARK_VOTE
    ensures StateTypeFromTag(StateTypeTag(s)) == Some(s)
    ensures VoteTypeFromTag(VoteTypeTag(v)) == Some(v)
    ensures StateTypeFromTag(t).Some? ==> StateTypeTag(StateTypeFromTag(t).value) == t
    ensures VoteTypeFromTag(t).Some? ==> VoteTypeTag(VoteTypeFromTag(t).value) == t
  {
  }

  // ---------------------------------------------------------------------------
  // Commands and their equality
  // ---------------------------------------------------------------------------

  datatype Command = Command(clientSeq: uint64, operation: Operation, key: uint64, value: uint64)

  /** `Command::operator==`: the client sequence number takes no part. */
  function CommandEq(a: Command, b: Command): (r: bool)
    ensures r <==> Logical(a) == Logical(b)
  {
    a.operation == b.operation && a.key == b.key && a.value == b.value
  }

  /** A command with its client sequence number erased: the part equality looks at. */
  function Logical(c: Command): (l: Command) {
    c.(clientSeq := 0)
  }

  /** Changing the client sequence number of either side never changes the outcome. */
  lemma CommandEqIgnoresClientSeq(a: Command, b: Command, s: uint64, s': uint64)
    ensures CommandEq(a.(clientSeq := s), b.(clientSeq := s')) == CommandEq(a, b)
    ensures CommandEq(a, a.(clientSeq := s))
  {
  }

  lemma CommandEqIsEquivalence(a: Command, b: Command, c: Command)
    ensures CommandEq(a, a)
    ensures CommandEq(a, b) ==> CommandEq(b, a)
    ensures CommandEq(a, b) && CommandEq(b, c) ==> CommandEq(a, c)
  {
  }

  /** Round, state kind and command of a state message. */
  datatype RSCommand = RSCommand(round: uint16, state: StateType, command: Command)

  /** `RSCommand::operator==`, built on command equality. */
  function RSCommandEq(a: RSCommand, b: RSCommand): (r: bool)
    ensures r <==> a.(command := Logical(a.command)) == b.(command := Logical(b.command))
  {
    a.round == b.round && a.state == b.state && CommandEq(a.command, b.command)
  }

  lemma RSCommandEqIsEquivalence(a: RSCommand, b: RSCommand, c: RSCommand, s: uint64)
    ensures RSCommandEq(a, a)
    ensures RSCommandEq(a, b) ==> RSCommandEq(b, a)
    ensures RSCommandEq(a, b) && RSCommandEq(b, c) ==> RSCommandEq(a, c)
    ensures RSCommandEq(a, a.(command := a.command.(clientSeq := s)))
  {
  }

  /** Round, vote kind and command of a vote message (it has no equality in the source). */
  datatype RVCommand = RVCommand(round: uint16, vote: VoteType, command: Command)

  // ---------------------------------------------------------------------------
  // Messages
  // ---------------------------------------------------------------------------

  /** The 16-byte header every message starts with; `typeTag` is the source's `Type` field. */
  datatype Header = Header(typeTag: uint32, len: uint32, src: uint32, dst: uint32)

  /** A proposer's logical timestamp. */
  datatype Timestamp = Timestamp(idx: uint32, nodeId: uint32)

  /**
    One variant per message struct; the variant is the object's dynamic type,
    while `hdr.typeTag` is the runtime tag it carries.
  */
  datatype Message =
    | Protocol(hdr: Header)
    | CmdReq(hdr: Header, command: Command)
    | Replicate(hdr: Header, msgId: Timestamp, command: Command)
    | Proposal(hdr: Header, msgId: Timestamp, logIdx: uint64, command: Command)
    | State(hdr: Header, logIdx: uint64, rsComand: RSCommand)
    | Vote(hdr: Header, logIdx: uint64, rvCommand: RVCommand)
    | Decided(hdr: Header, logIdx: uint64, command: Command)
    | Response(hdr: Header, clientSeq: uint64, value: uint64)

  type ReplicateMsg = m: Message | m.Replicate?
    witness Replicate(Header(0, 0, 0, 0), Timestamp(0, 0), Command(0, SET, 0, 0))
  type StateMsg = m: Message | m.State?
    witness State(Header(0, 0, 0, 0), 0, RSCommand(0, CMD, Command(0, SET, 0, 0)))
  type VoteMsg = m: Message | m.Vote?
    witness Vote(Header(0, 0, 0, 0), 0, RVCommand(0, CMD_VOTE, Command(0, SET, 0, 0)))

  /** The static `MessageType` constant each struct declares. */
  function StaticMessageType(m: Message): (k: MessageType)
    ensures k == PROTOCAL <==> m.Protocol?
    ensures k == CMD_REQ <==> m.CmdReq?
    ensures k == REPLICATE <==> m.Replicate?
    ensures k == PROPOSAL <==> m.Proposal?
    ensures k == STATE <==> m.State?
    ensures k == VOTE <==> m.Vote?
    ensures k == DECIDED <==> m.Decided?
    ensures k == RESPONSE <==> m.Response?
  {
    match m
    case Protocol(_) => PROTOCAL
    case CmdReq(_, _) => CMD_REQ
    case Replicate(_, _, _) => REPLICATE
    case Proposal(_, _, _, _) => PROPOSAL
    case State(_, _, _) => STATE
    case Vote(_, _, _) => VOTE
    case Decided(_, _, _) => DECIDED
    case Response(_, _, _) => RESPONSE
  }

  /** The `MessageType` constant of the base struct `TMessage`: that of a bare `TMessage` value. */
  const BaseMessageType: MessageType := StaticMessageType(Protocol(Header(0, 0, 0, 0)))

  // ---------------------------------------------------------------------------
  // The timestamp order of replicate messages
  // ---------------------------------------------------------------------------

  /** `TReplicate::operator<`: inverted lexicographic order on (idx, node_id). */
  function ReplicateLess(a: ReplicateMsg, b: ReplicateMsg): (r: bool)
    ensures r <==> Rank(b.msgId) < Rank(a.msgId)
  {
    a.msgId.idx > b.msgId.idx || (a.msgId.idx == b.msgId.idx && a.msgId.nodeId > b.msgId.nodeId)
  }

  /** The position of a timestamp in lexicographic (idx, node_id) order, as one number. */
  function Rank(t: Timestamp): (n: nat) {
    t.idx * TWO_32 + t.nodeId
  }

  lemma RankIsInjective(s: Timestamp, t: Timestamp)
    ensures Rank(s) == Rank(t) <==> s == t
  {
  }

  /** Irreflexive and transitive; exactly one of `a < b`, `b < a` for distinct timestamps,
      neither for equal ones. */
  lemma ReplicateLessIsStrictOrder(a: ReplicateMsg, b: ReplicateMsg, c: ReplicateMsg)
    ensures !ReplicateLess(a, a)
    ensures ReplicateLess(a, b) && ReplicateLess(b, c) ==> ReplicateLess(a, c)
    ensures a.msgId != b.msgId ==> (ReplicateLess(a, b) <==> !ReplicateLess(b, a))
    ensures a.msgId == b.msgId ==> !ReplicateLess(a, b) && !ReplicateLess(b, a)
  {
    RankIsInjective(a.msgId, b.msgId);
  }

  /** The top of a priority queue of replicate messages carries the earliest timestamp,
      and every top carries that same timestamp. */
  lemma ReplicateTopIsEarliest(q: seq<ReplicateMsg>, u: ReplicateMsg)
    requires |q| > 0
    ensures PriorityQueue.StrictWeakOrderOn(q, ReplicateLess)
    ensures var t := PriorityQueue.Top(q, ReplicateLess);
      && (forall i :: 0 <= i < |q| ==> Rank(t.msgId) <= Rank(q[i].msgId))
      && (u in q && (forall i :: 0 <= i < |q| ==> !ReplicateLess(u, q[i])) ==> u.msgId == t.msgId)
  {
  }

  // ---------------------------------------------------------------------------
  // Constructors of state and vote messages
  // ---------------------------------------------------------------------------

  /**
    The `TStateMsg(seq, r, est, c)` constructor, with `seq` named `index`. It does not initialise the
    header's `Type` and `Len`, so whatever they hold is passed in as `typeTag`
    and `len`; `Src` and `Dst` take their default 0.
  */
  function NewStateMsg(index: uint64, r: uint16, est: StateType, c: Command, typeTag: uint32, len: uint32): (m: StateMsg)
    ensures m.logIdx == index
    ensures m.rsComand.round == r && m.rsComand.state == est && m.rsComand.command == c
    ensures m.hdr.src == 0 && m.hdr.dst == 0
  {
    State(Header(typeTag, len, 0, 0), index, RSCommand(r, est, c))
  }

  /** Every state message with default addresses is what the constructor builds from its own fields. */
  lemma NewStateMsgRoundTrip(m: StateMsg)
    requires m.hdr.src == 0 && m.hdr.dst == 0
    ensures NewStateMsg(m.logIdx, m.rsComand.round, m.rsComand.state, m.rsComand.command, m.hdr.typeTag, m.hdr.len) == m
  {
  }

  /** The `TVote(seq, r, evt, c)` constructor, with the same header treatment. */
  function NewVote(index: uint64, r: uint16, evt: VoteType, c: Command, typeTag: uint32, len: uint32): (m: VoteMsg)
    ensures m.logIdx == index
    ensures m.rvCommand.round == r && m.rvCommand.vote == evt && m.rvCommand.command == c
    ensures m.hdr.src == 0 && m.hdr.dst == 0
  {
    Vote(Header(typeTag, len, 0, 0), index, RVCommand(r, evt, c))
  }

  lemma NewVoteRoundTrip(m: VoteMsg)
    requires m.hdr.src == 0 && m.hdr.dst == 0
    ensures NewVote(m.logIdx, m.rvCommand.round, m.rvCommand.vote, m.rvCommand.command, m.hdr.typeTag, m.hdr.len) == m
  {
  }
}
