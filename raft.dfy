/**
  Helpers of the leader-based backend: the persistent state with its log-term
  lookup, the initial volatile state, and the order of requests waiting for
  the log to reach their index.
*/
module Raft {
  import opened Ints
  import PriorityQueue

  /** A log entry; only its term is looked at here. */
  datatype LogEntry = LogEntry(term: uint64)

  /** `TState`: persistent term, vote and log. */
  datatype State = State(currentTerm: uint64, votedFor: uint32, log: seq<LogEntry>)

  /** A point in time, as a count of clock ticks since the clock's epoch. The
      time source's type is not part of this model; a default-constructed time is
      taken to be the epoch, as it is for a `std::chrono::time_point`. */
  type Time = int

  /** `TVolatileState`; the election deadline of a new state is the default time. */
  datatype VolatileState = VolatileState(
    commitIndex: uint64,
    lastApplied: uint64,
    nextIndex: map<uint32, uint64>,
    matchIndex: map<uint32, uint64>,
    votes: set<uint32>,
    heartbeatDue: map<uint32, Time>,
    rpcDue: map<uint32, Time>,
    electionDue: Time)

  /**
    `TState::LogTerm(index = -1)`: the term of the entry at the 1-based `index`,
    0 outside the log, and for a negative `index` the term of the last entry.
  */
  function LogTerm(s: State, index: int64 := -1): (t: uint64)
    ensures 1 <= index <= |s.log| ==> t == s.log[index - 1].term
    ensures 0 <= index && (index < 1 || index > |s.log|) ==> t == 0
    ensures index < 0 && |s.log| < 0x8000_0000_0000_0000 ==>
      t == if s.log == [] then 0 else s.log[|s.log| - 1].term
  {
    var i: int64 := if index < 0 then ToInt64(|s.log|) else index;
    if i < 1 || i > |s.log| then 0 else s.log[i - 1].term
  }

  /** The conversion of a size to a signed 64-bit integer (two's complement wrap-around). */
  function ToInt64(n: nat): (i: int64)
    ensures n < 0x8000_0000_0000_0000 ==> i == n
    ensures i % TWO_64 == n % TWO_64
  {
    var w := n % TWO_64;
    if w < 0x8000_0000_0000_0000 then w else w - TWO_64
  }

  /** Appending to the log leaves every earlier lookup alone and makes the new entry the last. */
  lemma LogTermAfterAppend(s: State, e: LogEntry, index: int64)
    requires |s.log| + 1 < 0x8000_0000_0000_0000
    ensures LogTerm(s.(log := s.log + [e])) == e.term
    ensures 0 <= index <= |s.log| ==> LogTerm(s.(log := s.log + [e]), index) == LogTerm(s, index)
  {
  }

  /** The state a node starts with. */
  function InitialState(): (s: State)
    ensures s.currentTerm == 1 && s.votedFor == 0 && s.log == []
    ensures forall index: int64 :: LogTerm(s, index) == 0
  {
    State(1, 0, [])
  }

  /** The volatile state a node starts with: nothing committed, nothing applied. */
  function InitialVolatileState(): (v: VolatileState)
    ensures v.commitIndex == 0 && v.lastApplied == 0
    ensures v.nextIndex == map[] && v.matchIndex == map[] && v.votes == {}
    ensures v.heartbeatDue == map[] && v.rpcDue == map[] && v.electionDue == 0
  {
    VolatileState(0, 0, map[], map[], {}, map[], map[], 0)
  }

  /** A request waiting for the log to reach `index`; `M` stands for the message and its reply handle. */
  datatype Waiting<M> = Waiting(index: uint64, request: M)

  /** `TWaiting::operator<`: the larger index is the smaller element. */
  function WaitingLess<M>(a: Waiting<M>, b: Waiting<M>): (r: bool)
    ensures r <==> b.index < a.index
    ensures r ==> a != b
  {
    a.index > b.index
  }

  /** A strict weak order: irreflexive, transitive, and incomparability (equal index) is an equivalence. */
  lemma WaitingLessIsStrictWeakOrder<M>(a: Waiting<M>, b: Waiting<M>, c: Waiting<M>)
    ensures !WaitingLess(a, a)
    ensures WaitingLess(a, b) && WaitingLess(b, c) ==> WaitingLess(a, c)
    ensures !WaitingLess(a, b) && !WaitingLess(b, a) <==> a.index == b.index
    ensures a.index != b.index ==> (WaitingLess(a, b) <==> !WaitingLess(b, a))
  {
  }

  /** The top of the waiting queue has the smallest index in it. */
  lemma WaitingTopIsSmallestIndex<M>(q: seq<Waiting<M>>)
    requires |q| > 0
    ensures PriorityQueue.StrictWeakOrderOn(q, WaitingLess)
    ensures forall i :: 0 <= i < |q| ==> PriorityQueue.Top(q, WaitingLess).index <= q[i].index
    ensures forall u :: u in q && (forall i :: 0 <= i < |q| ==> !WaitingLess(u, q[i])) ==>
      forall i :: 0 <= i < |q| ==> u.index <= q[i].index
  {
  }
}
