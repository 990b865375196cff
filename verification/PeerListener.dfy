/**
 The connection slots of internal/adminweb/listener_linux.go: a channel of capacity 8 used as
 a semaphore by any number of Accept loops, and connections that give their slot back once.
 */
module PeerListener {
  import opened Basics

  const Capacity := 8

  /** Where an Accept call stands. */
  datatype Accepting = Waiting | InFlight | Checking(conn: nat) | Returned

  /** A connection handed out; `released` is what its sync.Once remembers. */
  datatype Conn = Conn(open: bool, released: bool)

  datatype State = State(slots: nat, closed: bool, accepts: map<nat, Accepting>, conns: map<nat, Conn>,
                         releases: map<nat, nat>)

  datatype Action =
    | Call(a: nat)                 // a goroutine calls Accept
    | Acquire(a: nat)              // puts a token into the slots channel
    | SeeDone(a: nat)              // or sees the listener closed
    | AcceptError(a: nat)
    | AcceptConn(a: nat, c: nat)   // the underlying listener returns a connection
    | Reject(a: nat)               // the peer check fails: close, give the slot back, loop
    | HandOut(a: nat)              // the peer check passes
    | CloseConn(c: nat)            // Close on a handed-out connection, possibly again
    | CloseListener

  function Do(s: State, x: Action): Option<State> {
    match x
    case Call(a) => if a in s.accepts then None else Some(s.(accepts := s.accepts[a := Waiting]))
    case Acquire(a) =>
      if a in s.accepts && s.accepts[a].Waiting? && s.slots < Capacity
      then Some(s.(slots := s.slots + 1, accepts := s.accepts[a := InFlight])) else None
    case SeeDone(a) =>
      if a in s.accepts && s.accepts[a].Waiting? && s.closed then Some(s.(accepts := s.accepts[a := Returned]))
      else None
    case AcceptError(a) =>
      if a in s.accepts && s.accepts[a].InFlight? && s.slots > 0
      then Some(s.(slots := s.slots - 1, accepts := s.accepts[a := Returned])) else None
    case AcceptConn(a, c) =>
      if a in s.accepts && s.accepts[a].InFlight? && c !in s.conns
         && (forall y :: y in s.accepts ==> s.accepts[y] != Checking(c))
      then Some(s.(accepts := s.accepts[a := Checking(c)])) else None
    case Reject(a) =>
      if a in s.accepts && s.accepts[a].Checking? && s.slots > 0
      then Some(s.(slots := s.slots - 1, accepts := s.accepts[a := Waiting])) else None
    case HandOut(a) =>
      if a in s.accepts && s.accepts[a].Checking? && s.accepts[a].conn !in s.conns
      then Some(s.(accepts := s.accepts[a := Returned], conns := s.conns[s.accepts[a].conn := Conn(true, false)],
                   releases := s.releases[s.accepts[a].conn := 0])) else None
    case CloseConn(c) =>
      if c !in s.conns || c !in s.releases then None
      else if s.conns[c].released then Some(s.(conns := s.conns[c := Conn(false, true)]))
      else if s.slots > 0 then
        Some(s.(slots := s.slots - 1, conns := s.conns[c := Conn(false, true)],
                releases := s.releases[c := s.releases[c] + 1]))
      else None
    case CloseListener => Some(s.(closed := true))
  }

  function Run(s: State, actions: seq<Action>): Option<State> {
    if actions == [] then Some(s)
    else match Run(s, actions[..|actions| - 1])
      case None => None
      case Some(mid) => Do(mid, actions[|actions| - 1])
  }

  const Initial := State(0, false, map[], map[], map[])

  // ----- Conservation -----

  /** Accept calls that hold a slot. */
  function Busy(s: State): set<nat> { set a | a in s.accepts && (s.accepts[a].InFlight? || s.accepts[a].Checking?) }

  /** Connections that have not given their slot back. */
  function Held(s: State): set<nat> { set c | c in s.conns && !s.conns[c].released }

  predicate Inv(s: State) {
    && s.slots == |Busy(s)| + |Held(s)| && s.slots <= Capacity
    && s.releases.Keys == s.conns.Keys
    && (forall c :: c in s.conns ==>
          s.releases[c] == (if s.conns[c].released then 1 else 0) && s.conns[c].open == !s.conns[c].released)
  }

  lemma Size(a: set<nat>, x: nat)
    ensures |a| == |a - {x}| + (if x in a then 1 else 0)
    ensures |a - {x} + {x}| == |a - {x}| + 1
  {
    if x in a { assert a == a - {x} + {x}; } else { assert a - {x} == a; }
  }

  function Holds(p: Accepting): nat { if p.InFlight? || p.Checking? then 1 else 0 }

  function Keeps(c: Conn): nat { if c.released then 0 else 1 }

  /** One Accept call moves on: the busy calls change by what it took or gave back. */
  lemma BusyMove(s: State, t: State, a: nat, p: Accepting)
    requires t.accepts == s.accepts[a := p]
    ensures |Busy(t)| == |Busy(s)| + Holds(p) - (if a in s.accepts then Holds(s.accepts[a]) else 0)
  {
    var rest := Busy(s) - {a};
    Size(Busy(s), a);
    assert Busy(t) == if Holds(p) == 1 then rest + {a} else rest;
  }

  lemma HeldMove(s: State, t: State, c: nat, d: Conn)
    requires t.conns == s.conns[c := d]
    ensures |Held(t)| == |Held(s)| + Keeps(d) - (if c in s.conns then Keeps(s.conns[c]) else 0)
  {
    var rest := Held(s) - {c};
    Size(Held(s), c);
    assert Held(t) == if Keeps(d) == 1 then rest + {c} else rest;
  }

  lemma Unmoved(s: State, t: State)
    ensures t.accepts == s.accepts ==> Busy(t) == Busy(s)
    ensures t.conns == s.conns ==> Held(t) == Held(s)
  {
  }

  lemma DoKeeps(s: State, x: Action)
    requires Inv(s) && Do(s, x).Some?
    ensures Inv(Do(s, x).value)
  {
    hide Busy, Held;
    var t := Do(s, x).value;
    Unmoved(s, t);
    match x
    case CloseConn(c) => HeldMove(s, t, c, t.conns[c]);
    case CloseListener =>
    case HandOut(a) =>
      BusyMove(s, t, a, Returned);
      HeldMove(s, t, s.accepts[a].conn, Conn(true, false));
    case _ => BusyMove(s, t, x.a, t.accepts[x.a]);
  }

  lemma {:induction false} RunKeeps(actions: seq<Action>)
    requires Run(Initial, actions).Some?
    ensures Inv(Run(Initial, actions).value)
  {
    hide Do;
    if actions == [] {
      assert Busy(Initial) == {} && Held(Initial) == {};
    } else {
      hide Inv;
      RunKeeps(actions[..|actions| - 1]);
      DoKeeps(Run(Initial, actions[..|actions| - 1]).value, actions[|actions| - 1]);
    }
  }

  /**
   In every interleaving the occupied slots are the accepts in flight plus the connections not
   yet released, never more than 8, and each connection releases nothing while it is open and
   exactly once when it is closed, however often.
   */
  lemma SlotsConserved(actions: seq<Action>, c: nat)
    requires Run(Initial, actions).Some?
    ensures var s := Run(Initial, actions).value;
            && s.slots == |Busy(s)| + |Held(s)| && s.slots <= 8
            && (c in s.conns ==> c in s.releases && s.releases[c] == if s.conns[c].open then 0 else 1)
  {
    hide Run;
    RunKeeps(actions);
  }

  /**
   Giving a slot back never blocks: an in-flight accept that fails, a rejected peer and the
   first close of a connection always find a token in the channel to take out.
   */
  lemma ReleaseNeverBlocks(actions: seq<Action>, a: nat, c: nat)
    requires Run(Initial, actions).Some?
    ensures var s := Run(Initial, actions).value;
            && (a in s.accepts && s.accepts[a].InFlight? ==> Do(s, AcceptError(a)).Some?)
            && (a in s.accepts && s.accepts[a].Checking? ==> Do(s, Reject(a)).Some?)
            && (c in s.conns ==> Do(s, CloseConn(c)).Some?)
  {
    hide Run;
    RunKeeps(actions);
    var s := Run(Initial, actions).value;
    assert a in s.accepts && Holds(s.accepts[a]) == 1 ==> a in Busy(s);
    assert c in s.conns && !s.conns[c].released ==> c in Held(s);
    Size(Busy(s), a);
    Size(Held(s), c);
    hide Busy, Held;
  }

  /**
   No slot is wasted: a waiting Accept can go on exactly when fewer than 8 slots are occupied,
   or, once the listener is closed, return. A slot is given back by a failed accept, a rejected
   peer, whose Accept waits again, and the first close of a connection.
   */
  lemma SlotsUsable(actions: seq<Action>, a: nat, c: nat)
    requires Run(Initial, actions).Some?
    ensures var s := Run(Initial, actions).value;
            && (a in s.accepts && s.accepts[a] == Waiting ==>
                  && (Do(s, Acquire(a)).Some? <==> |Busy(s)| + |Held(s)| < 8)
                  && Do(s, CloseListener).Some? && Do(Do(s, CloseListener).value, SeeDone(a)).Some?
                  && (Do(s, SeeDone(a)).Some? ==> CloseListener in actions))
            && (a in s.accepts && s.accepts[a].Checking? ==>
                  Do(s, Reject(a)).Some?
                  && var t := Do(s, Reject(a)).value;
                     t.slots == s.slots - 1 && t.accepts == s.accepts[a := Waiting] && t.conns == s.conns)
            && (c in s.conns ==>
                  Do(s, CloseConn(c)).Some?
                  && var t := Do(s, CloseConn(c)).value;
                     !t.conns[c].open && t.slots == if s.conns[c].open then s.slots - 1 else s.slots)
  {
    hide Run;
    RunKeeps(actions);
    ReleaseNeverBlocks(actions, a, c);
    ClosedOnce(actions);
    hide Busy, Held;
  }

  lemma DoCloses(s: State, x: Action)
    requires Do(s, x).Some?
    ensures Do(s, x).value.closed == (s.closed || x.CloseListener?)
  {
  }

  lemma {:induction false} ClosedOnce(actions: seq<Action>)
    requires Run(Initial, actions).Some?
    ensures Run(Initial, actions).value.closed <==> CloseListener in actions
  {
    hide Do;
    if actions != [] {
      var n := |actions| - 1;
      ClosedOnce(actions[..n]);
      DoCloses(Run(Initial, actions[..n]).value, actions[n]);
      assert actions == actions[..n] + [actions[n]];
    }
  }
}
