# Rabia replica core: message vocabulary, configuration and dispatch

This project models, in Dafny, the parts of the rabia-cpp replica that carry
logic: the message and value vocabulary (`src/messages.h`), the configuration
and dispatch of a Rabia replica (`src/rabia.cpp`), and the log helpers of
the leader-based Raft backend (`src/raft.h`).

Modules, one per source file or component:

- `Ints`: the fixed-width integer types of the source (`uint16`, `uint32`,
  `uint64`, `int32`, `int64`) as subset types of `int`.
- `Wrappers`: `Option`.
- `PriorityQueue`: what `std::priority_queue::top()` returns under a given
  `operator<`. This is an element of the queue that no other element is
  greater than.
- `Messages`: the four wire enumerations and their numeric tags. Commands,
  with an equality that ignores the client sequence number.
  Round/state and round/vote payloads. The message hierarchy, as one datatype
  with a variant per message struct. The timestamp order of replicate
  messages. The `TStateMsg` and `TVote` constructors.
- `Rabia`: the quorum formula and its arithmetic. The common coin.
  The `switch` of `TRabia::Run`. The class `Replica` for `TRabia`, with its
  constructor and getters.
- `Raft`: `TState` and `TState::LogTerm`. The initial `TState` and
  `TVolatileState`. The `TWaiting` order and the top of the waiting queue.

The message hierarchy is a sum type. The variant is the object's dynamic C++
type. The header field `typeTag` is the runtime `Type` field. Each struct's
static `MessageType` constant is `StaticMessageType`; that of the base struct
`TMessage` is `BaseMessageType`.

Modelling choices:

- `TRabia::Run` switches on `msg.MessageType`. That is the static constant of
  `TMessage`, always `PROTOCAL`, so the client-request branch can never run.
  `RouteAsWritten` models this dispatch exactly; `Route` dispatches on the
  runtime `Type` tag, and `Replica.Run` uses `Route` (see Findings).
- The client-command handler is abstract. `Run` returns the call it would make
  (`ClientCall(client, command)`) or `None`. The source defines
  `HandleClientCommand` only as an empty free function (`src/rabia.cpp:29-32`).
  The member declared at `src/rabia.h:97` has no definition.
- The `TRabia` constructor never assigns the `Nodes` field, so it stays empty.
  The model keeps that: `nodes == {}` after construction.
- `Id = node` converts a C++ `int` to `uint32_t`. The model writes this out as
  `node % 2^32`.
- `common_coin` reads the global `rand()` state. `CommonCoin` takes the value
  `rand()` produced as an argument.
- The `TStateMsg` and `TVote` constructors do not initialise the header's `Type`
  and `Len`. The model takes those two values as arguments and promises nothing
  about them. `Src` and `Dst` take their default 0.
- The source's getters `getQuorumSize` and `getNservers` are spelled `GetQuorumSize` and `GetNservers` here, like `GetId` and `GetNpeers`.
- `LogTerm` writes out the conversion of the log size to `int64_t` used for any
  negative argument (`ToInt64`).

## Model

| member | source | states |
|---|---|---|
| `Messages.OperationTag` | src/messages.h:11-16 | every operation has a tag below 3, and that tag decodes back to it |
| `Messages.OperationFromTag` | src/messages.h:11-16 | a 32-bit tag names an operation exactly when it is below 3 |
| `Messages.OperationTagsBijective` | src/messages.h:11-16 | every tag that decodes to an operation is that operation's tag, so with `OperationTag`'s own round trip tags 0..2 and SET/GET/DEL correspond one-to-one |
| `Messages.MessageTypeTag` | src/messages.h:18-27 | every message kind has a tag in 0..7, and that tag decodes back to it |
| `Messages.MessageTypeFromTag` | src/messages.h:18-27 | a tag names a message kind exactly when it is below 8 |
| `Messages.MessageTypeTagsBijective` | src/messages.h:18-27 | every tag that decodes to a kind is that kind's tag, and no two kinds share a tag; with `MessageTypeTag`'s own round trip, tags 0..7 and PROTOCAL..RESPONSE correspond one-to-one |
| `Messages.StateTypeTag` | src/messages.h:30-33 | every state kind has a tag below 2, and that tag decodes back to it |
| `Messages.StateTypeFromTag` | src/messages.h:30-33 | a 16-bit tag names a state kind exactly when it is below 2 |
| `Messages.VoteTypeTag` | src/messages.h:36-39 | every vote kind has a tag below 2, and that tag decodes back to it |
| `Messages.VoteTypeFromTag` | src/messages.h:36-39 | a 16-bit tag names a vote kind exactly when it is below 2 |
| `Messages.StateAndVoteTagsBijective` | src/messages.h:30-39 | state kinds are CMD or BOT, vote kinds CMD_VOTE or QMARK_VOTE, and their tags round-trip both ways |
| `Messages.CommandEq` | src/messages.h:48-52 | `==` on commands holds exactly when the commands are identical once the client sequence is erased |
| `Messages.CommandEqIgnoresClientSeq` | src/messages.h:48-52 | replacing either side's client sequence never changes the outcome of equality |
| `Messages.CommandEqIsEquivalence` | src/messages.h:48-52 | command equality is reflexive, symmetric and transitive |
| `Messages.RSCommandEq` | src/messages.h:92-96 | `==` on round/state commands holds exactly when they are identical once the inner client sequence is erased |
| `Messages.RSCommandEqIsEquivalence` | src/messages.h:92-96 | round/state equality is an equivalence and ignores the inner client sequence |
| `Messages.StaticMessageType` | src/messages.h:118-221 | each struct's static kind constant names that struct's kind, and no two structs share one |
| `Messages.ReplicateLess` | src/messages.h:148-152 | `a < b` holds exactly when `b`'s timestamp comes earlier in lexicographic (idx, node_id) order |
| `Messages.ReplicateLessIsStrictOrder` | src/messages.h:148-152 | the order is irreflexive and transitive; exactly one of `a < b` and `b < a` holds for distinct timestamps, and neither holds for equal ones |
| `Messages.ReplicateTopIsEarliest` | src/messages.h:148-152 | the top of a non-empty queue of replicate messages has the lexicographically smallest (idx, node_id), and every top has that same timestamp |
| `PriorityQueue.Top` | src/raft.h:142 | for a comparator that is a strict weak order on the queue, the top is an element of the queue that no element is greater than |
| `Messages.NewStateMsg` | src/messages.h:173-182 | the state message carries the given log index, round, state kind and command, with source and destination 0 |
| `Messages.NewStateMsgRoundTrip` | src/messages.h:173-182 | every state message with default addresses is what the constructor builds from its own fields |
| `Messages.NewVote` | src/messages.h:192-201 | the vote carries the given log index, round, vote kind and command, with source and destination 0 |
| `Messages.NewVoteRoundTrip` | src/messages.h:192-201 | every vote with default addresses is what the constructor builds from its own fields |
| `Rabia.QuorumSize` | src/rabia.cpp:26 | the quorum `q` satisfies `npeers + 2 <= 2q <= npeers + 3` |
| `Rabia.QuorumIsCeiling` | src/rabia.cpp:26 | the formula equals the ceiling of `(npeers + 2) / 2` for every `npeers >= 0` |
| `Rabia.QuorumIsSmallestMajority` | src/rabia.cpp:24-26 | the quorum is `nservers / 2 + 1`: `2q > nservers`, `1 <= q <= nservers`, and every strict majority is at least `q` |
| `Rabia.QuorumsIntersect` | src/rabia.cpp:24-26 | any two sets of at least a quorum of the servers have a server in common |
| `Rabia.CommonCoin` | src/rabia.cpp:16-18 | the coin is 0 or 1 |
| `Rabia.RouteOnKind` | src/rabia.cpp:37-49 | the switch calls the handler exactly for a client request, with the sender and the command; every other kind does nothing |
| `Rabia.RouteAsWritten` | src/rabia.cpp:36 | the dispatch as written never calls the handler for any message |
| `Rabia.Route` | src/rabia.cpp:34-50 | dispatching on the runtime tag calls the handler exactly when the tag is CMD_REQ, with `(Src, command)` |
| `Rabia.AsWrittenDropsClientRequest` | src/rabia.cpp:34-50 | a well-tagged client request reaches the handler under `Route` but not under the dispatch as written |
| `Rabia.Replica.constructor` | src/rabia.cpp:20-27 | afterwards `Npeers` is the peer count and `Nservers == Npeers + 1`, the quorum is the formula's, `Id` is the node (mod 2^32), `cmdSeq == slotIdx == 1`, and the peer table is left empty |
| `Rabia.Replica.GetId` | src/rabia.h:52-54 | the id is the constructor's `node` argument converted to 32 bits (`node mod 2^32`), which is `node` itself when it is not negative |
| `Rabia.Replica.GetNpeers` | src/rabia.h:60-62 | the peer count is the server count minus one, and never negative |
| `Rabia.Replica.GetNservers` | src/rabia.h:64-66 | the server count is the peer count plus one |
| `Rabia.Replica.GetQuorumSize` | src/rabia.h:56-58 | the quorum is `Nservers / 2 + 1`, so `2q > Nservers` and `1 <= q <= Nservers` |
| `Rabia.Replica.Run` | src/rabia.cpp:34-50 | `Run` makes exactly the handler call `Route` gives (the handler exactly for a CMD_REQ tag, with `(Src, command)`) and changes nothing in the replica |
| `Raft.LogTerm` | src/raft.h:26-35 | for `1 <= i <= n` (n the log length) the term of `Log[i-1]`; 0 for `i = 0` or `i > n`; for a negative argument the last entry's term, or 0 for an empty log |
| `Raft.ToInt64` | src/raft.h:27-29 | the size converted to `int64_t` is unchanged below 2^63 and congruent to it modulo 2^64 |
| `Raft.LogTermAfterAppend` | src/raft.h:26-35 | after appending an entry, default lookup gives its term and every lookup at an earlier index is unchanged |
| `Raft.InitialState` | src/raft.h:21-24 | a new state has term 1, no vote, an empty log, and every log-term lookup in it returns 0 |
| `Raft.InitialVolatileState` | src/raft.h:38-46 | a new volatile state has commit index 0, last-applied 0 and empty index, vote and deadline tables |
| `Raft.WaitingLess` | src/raft.h:138-140 | `a < b` holds exactly when `b` has the smaller index, and never between an element and itself |
| `Raft.WaitingLessIsStrictWeakOrder` | src/raft.h:138-140 | `a < b` is irreflexive and transitive, incomparability means equal index, and distinct indices are ordered one way exactly |
| `Raft.WaitingTopIsSmallestIndex` | src/raft.h:134-142 | the top of the waiting queue, and every element that could legally be the top, has the smallest index in the queue |

## Left out

- `src/server.cpp`: socket framing, the connect/backoff loop, the drain pump, the accept loop and the timers are transport and timing, not logic.
- The Rabia slot state machine, the propose queue, decide/execute and pending-request routing: `src/rabia.h:97-111` only declares them. `TSCommand`, `RSTSCommand` and `RVTSCommand` are not part of this model, so the replica fields that hold them are not modelled.
- `HandleClientCommand`: the free function at `src/rabia.cpp:29-32` has an empty body, and the member has no definition, so the handler is represented only by the `ClientCall` that `Run` returns.
- `TRaft` methods and the `TVolatileState` mutators: declared without bodies (`src/raft.h:48-55`, `src/raft.h:75-123`). `examples/kv.h` also holds declarations only.
- `Rabia.CommonCoin`: states only the coin's range. The global `rand()` state is not modelled; its value is an argument.
- `CommandHash` and `RSCommandHash`: they depend on the implementation-defined `std::hash`. `CommandHash` mixes in `client_seq` while `==` ignores it, so two `==`-equal commands can hash differently. That breaks the hash/equality agreement that unordered containers need.
- `static_assert` struct sizes, memory layout, and the static members that shadow `operation` and `value` in `GetCommand` and `DelCommand`: layout, not behaviour.
- `Messages.NewStateMsg`: promises nothing about the header's `Type` and `Len`, because the C++ constructor leaves them uninitialised. The same holds for `Messages.NewVote`.
- `Messages.Command`: an `operation` value outside 0..2, which a C++ `enum class` can hold after a raw read, cannot be represented.
- `Rabia.Replica.constructor`: `Npeers`, `Nservers` and `QuorumSize` are unbounded integers. The narrowing of `size_t` to `int` is not modelled.
- `Rabia.Replica.constructor`: the state machine is an opaque type parameter. The peer table is given as its set of node ids; the connection handles are not modelled.
- `Raft.LogTerm`: the default-argument case is stated only for logs shorter than 2^63 entries. The body models the wrap-around of longer sizes but no contract describes it.
- `Raft.WaitingLess`: the waiting request's message and reply handle are abstracted as one opaque value.
- The time source is not part of this model: a time is an integer tick count, and a default-constructed time (the initial election deadline) is taken to be 0, as for a `std::chrono::time_point`.
- `TLogEntry` is not part of this model: a log entry holds only its term.
- `Proposal`, `Decided` and `Response` messages are data only; no modelled operation reads them.
- `Rabia.Route`: assumes the message reaches `Run` with its dynamic type intact (a client request tagged CMD_REQ is a `CmdReq` value). The transport in `src/server.cpp` does not provide that: `TMessageReader::Read` returns a `TMessage` by value (`src/server.cpp:23`, `co_return msg` at line 45), and `INode::Send` and `Bcast` take a `TMessage` by value (`src/rabia.h:15`, `src/rabia.h:98`). Each of these slices every message down to its 16-byte header, so a received client request is a bare header with `Type == 1`, on which `Route` is not defined and the `static_cast` at `src/rabia.cpp:41` would read past the object. `src/server.cpp` is not part of this model.
- Release of the propose and waiting queues (`pop`) and their insertion order are not modelled; only which element `top()` returns.

## Findings

| source | as written | input that shows it | evidently intended | confidence | as-written member | corrected member |
|---|---|---|---|---|---|---|
| src/rabia.cpp:36 | `Run` switches on `msg.MessageType`, the static constant of `TMessage`. That constant is always PROTOCAL, so the CMD_REQ branch is dead. | a client request with `Type == 1`, `Src == 7` and command `SET(1, 42)` | `Run` switches on the runtime `Type` tag, so the request reaches the handler. This also needs messages passed by reference or pointer: the transport shown slices every message to `TMessage` (`src/server.cpp:23`, `src/rabia.h:15`, `src/rabia.h:98`), and `Route` assumes the dynamic type is intact | not executed | `Rabia.AsWrittenDropsClientRequest` | `Rabia.Route` |
