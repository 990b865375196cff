/**
 The relay's table of approval requests, internal/relay/store.go. Times are integers; each
 method reads the clock once, while it holds the mutex, so the reading is a parameter.
 */
module RelayStore {
  import opened Basics

  datatype Status = Pending | Approved | Denied | Expired

  datatype Request = Request(id: string, prompt: string, status: Status, createdAt: int, deadline: int)

  type Table = map<string, Request>

  // ----- What the operations do to a table -----

  predicate Live(r: Request, now: int) { r.status == Pending && now <= r.deadline }

  function Created(t: Table, limit: int, id: string, prompt: string, ttl: int, now: int): Option<Table> {
    if id in t || |t| >= limit then None
    else Some(t[id := Request(id, prompt, Pending, now, now + ttl)])
  }

  function Got(t: Table, id: string, now: int): Option<Request> {
    if id !in t then None
    else if t[id].status == Pending && now > t[id].deadline then Some(t[id].(status := Expired))
    else Some(t[id])
  }

  function Decided(t: Table, id: string, approve: bool, now: int): Option<Table> {
    if id !in t || now > t[id].deadline || t[id].status != Pending then None
    else Some(t[id := t[id].(status := if approve then Approved else Denied)])
  }

  function Swept(t: Table, age: int, now: int): Table {
    map id | id in t && !(t[id].deadline < now - age) :: t[id]
  }

  // ----- The order of pending requests -----

  /** Go's string comparison: byte by byte, a proper prefix first. */
  predicate StringLess(a: string, b: string) {
    b != "" && (a == "" || a[0] < b[0] || (a[0] == b[0] && StringLess(a[1..], b[1..])))
  }

  predicate Less(a: Request, b: Request) {
    if a.deadline == b.deadline then StringLess(a.id, b.id) else a.deadline < b.deadline
  }

  lemma {:induction false} StringTotal(a: string, b: string)
    ensures a == b || StringLess(a, b) || StringLess(b, a)
    ensures !(StringLess(a, b) && StringLess(b, a))
    ensures !StringLess(a, a)
    decreases |a|
  {
    if a != "" && b != "" {
      StringTotal(a[1..], b[1..]);
      assert a == [a[0]] + a[1..] && b == [b[0]] + b[1..];
    }
    if a != "" { StringTotal(a[1..], a[1..]); }
  }

  lemma {:induction false} StringTransitive(a: string, b: string, c: string)
    requires StringLess(a, b) && StringLess(b, c)
    ensures StringLess(a, c)
    decreases |a|
  {
    if a != "" && a[0] == b[0] && b[0] == c[0] { StringTransitive(a[1..], b[1..], c[1..]); }
  }

  lemma LessTransitive(a: Request, b: Request, c: Request)
    requires Less(a, b) && Less(b, c)
    ensures Less(a, c)
  {
    if a.deadline == b.deadline == c.deadline { StringTransitive(a.id, b.id, c.id); }
  }

  lemma LessTotal(a: Request, b: Request)
    ensures a.id != b.id ==> Less(a, b) || Less(b, a)
    ensures !(Less(a, b) && Less(b, a)) && !Less(a, a)
  {
    StringTotal(a.id, b.id);
    StringTotal(a.id, a.id);
  }

  predicate Ordered(list: seq<Request>) { forall i, j :: 0 <= i < j < |list| ==> Less(list[i], list[j]) }

  /** Exactly the live requests of the table. */
  predicate Lists(list: seq<Request>, t: Table, now: int) {
    && (forall i :: 0 <= i < |list| ==> list[i].id in t && list[i] == t[list[i].id] && Live(list[i], now))
    && (forall id :: id in t && Live(t[id], now) ==> t[id] in list)
  }

  // ----- The store -----

  class Store {
    var requests: Table
    const limit: int

    /** Within its limit, under their own IDs, and "expired" is never stored. */
    ghost predicate Valid()
      reads this
    {
      && (requests == map[] || |requests| <= limit)
      && forall id :: id in requests ==> requests[id].id == id && requests[id].status != Expired
    }

    constructor (limit: int)
      ensures Valid() && requests == map[] && this.limit == limit
    {
      requests := map[];
      this.limit := limit;
    }

    method Create(id: string, prompt: string, ttl: int, now: int) returns (ok: bool)
      requires Valid()
      modifies this`requests
      ensures Valid()
      ensures ok <==> id !in old(requests) && |old(requests)| < limit
      ensures ok ==> id in requests && Live(requests[id], now + ttl) && !Live(requests[id], now + ttl + 1)
      ensures ok <==> Created(old(requests), limit, id, prompt, ttl, now).Some?
      ensures requests == if ok then Created(old(requests), limit, id, prompt, ttl, now).value else old(requests)
    {
      if id in requests { return false; }
      if |requests| >= limit { return false; }
      requests := requests[id := Request(id, prompt, Pending, now, now + ttl)];
      ok := true;
    }

    method Get(id: string, now: int) returns (r: Option<Request>)
      requires Valid()
      ensures r == Got(requests, id, now)
      ensures r.Some? ==> (r.value.status == Pending <==> Live(requests[id], now))
    {
      if id !in requests { return None; }
      var out := requests[id];
      if out.status == Pending && now > out.deadline {
        out := out.(status := Expired);
      }
      r := Some(out);
    }

    method Decide(id: string, approve: bool, now: int) returns (ok: bool)
      requires Valid()
      modifies this`requests
      ensures Valid()
      ensures ok <==> id in old(requests) && Live(old(requests)[id], now)
      ensures ok ==> id in requests && requests[id].status == if approve then Approved else Denied
      ensures ok <==> Decided(old(requests), id, approve, now).Some?
      ensures requests == if ok then Decided(old(requests), id, approve, now).value else old(requests)
    {
      if id !in requests { return false; }
      var req := requests[id];
      if now > req.deadline { return false; }
      if req.status != Pending { return false; }
      requests := requests[id := req.(status := if approve then Approved else Denied)];
      SameSize(old(requests), id, requests[id]);
      ok := true;
    }

    /** Deletes while iterating over the table in any order. */
    method Sweep(age: int, now: int) returns (removed: nat)
      requires Valid()
      modifies this`requests
      ensures Valid()
      ensures requests == Swept(old(requests), age, now) && removed == |old(requests)| - |requests|
    {
      var cutoff := now - age;
      removed := 0;
      var todo := requests.Keys;
      while todo != {}
        invariant todo <= requests.Keys && requests.Keys <= old(requests).Keys
        invariant forall id :: id in requests ==> requests[id] == old(requests)[id]
        invariant forall id :: id in old(requests) && id !in todo ==>
                    (id in requests <==> !(old(requests)[id].deadline < cutoff))
        invariant removed + |requests| == |old(requests)|
        decreases |todo|
      {
        var id :| id in todo;
        todo := todo - {id};
        if requests[id].deadline < cutoff {
          RemoveOne(requests, id);
          requests := requests - {id};
          removed := removed + 1;
        }
      }
      assert requests == Swept(old(requests), age, now);
    }

    /** Collects the live requests in any order, then sorts them. */
    method PendingList(now: int) returns (list: seq<Request>)
      requires Valid()
      ensures Lists(list, requests, now) && Ordered(list)
    {
      var collected: seq<Request> := [];
      var todo := requests.Keys;
      while todo != {}
        invariant todo <= requests.Keys
        invariant Distinct(collected)
        invariant forall i :: 0 <= i < |collected| ==>
                    && collected[i].id in requests && collected[i].id !in todo
                    && collected[i] == requests[collected[i].id] && Live(collected[i], now)
        invariant forall id :: id in requests && id !in todo && Live(requests[id], now) ==> requests[id] in collected
        decreases |todo|
      {
        var id :| id in todo;
        todo := todo - {id};
        if requests[id].status == Pending && now <= requests[id].deadline {
          collected := collected + [requests[id]];
        }
      }
      list := Sort(collected);
      SameElements(list, collected);
      forall i | 0 <= i < |list|
        ensures list[i].id in requests && list[i] == requests[list[i].id] && Live(list[i], now)
      {
        assert list[i] in list && list[i] in collected;
      }
    }
  }

  lemma SameSize(t: Table, id: string, r: Request)
    requires id in t
    ensures |t[id := r]| == |t|
  {
    assert t[id := r].Keys == t.Keys;
    MapCount(t);
    MapCount(t[id := r]);
  }

  lemma RemoveOne(t: Table, id: string)
    requires id in t
    ensures |t - {id}| == |t| - 1
  {
    assert (t - {id}).Keys == t.Keys - {id};
    MapCount(t);
    MapCount(t - {id});
  }

  predicate Distinct(list: seq<Request>) { forall i, j :: 0 <= i < j < |list| ==> list[i].id != list[j].id }

  lemma SameElements(a: seq<Request>, b: seq<Request>)
    requires multiset(a) == multiset(b)
    ensures forall r :: r in a <==> r in b
  {
    forall r ensures r in a <==> r in b {
      assert r in a <==> r in multiset(a);
      assert r in b <==> r in multiset(b);
    }
  }

  /** The position at which r belongs in an ordered list. */
  method Place(list: seq<Request>, r: Request) returns (k: nat)
    requires Ordered(list) && forall i :: 0 <= i < |list| ==> list[i].id != r.id
    ensures k <= |list|
    ensures forall i :: 0 <= i < k ==> Less(list[i], r)
    ensures forall i :: k <= i < |list| ==> Less(r, list[i])
  {
    k := 0;
    while k < |list| && Less(list[k], r)
      invariant k <= |list| && forall i :: 0 <= i < k ==> Less(list[i], r)
    {
      k := k + 1;
    }
    if k < |list| {
      LessTotal(list[k], r);
      forall i | k < i < |list| ensures Less(r, list[i]) { LessTransitive(r, list[k], list[i]); }
    }
  }

  lemma InsertOrdered(list: seq<Request>, k: nat, r: Request)
    requires Ordered(list) && k <= |list|
    requires forall i :: 0 <= i < k ==> Less(list[i], r)
    requires forall i :: k <= i < |list| ==> Less(r, list[i])
    ensures Ordered(list[..k] + [r] + list[k..])
    ensures multiset(list[..k] + [r] + list[k..]) == multiset(list) + multiset{r}
  {
    hide Less;
    assert list == list[..k] + list[k..];
  }

  /** Requests with different IDs, put in order. */
  method Sort(list: seq<Request>) returns (sorted: seq<Request>)
    requires Distinct(list)
    ensures Ordered(sorted) && multiset(sorted) == multiset(list)
  {
    hide Less;
    sorted := [];
    for i := 0 to |list|
      invariant Ordered(sorted) && multiset(sorted) == multiset(list[..i])
    {
      assert list[..i + 1] == list[..i] + [list[i]];
      OtherIds(list, i, sorted);
      var k := Place(sorted, list[i]);
      InsertOrdered(sorted, k, list[i]);
      sorted := sorted[..k] + [list[i]] + sorted[k..];
    }
    assert list[..|list|] == list;
  }

  lemma OtherIds(list: seq<Request>, i: nat, sorted: seq<Request>)
    requires Distinct(list) && i < |list| && multiset(sorted) == multiset(list[..i])
    ensures forall k :: 0 <= k < |sorted| ==> sorted[k].id != list[i].id
  {
    SameElements(sorted, list[..i]);
    forall k | 0 <= k < |sorted| ensures sorted[k].id != list[i].id {
      assert sorted[k] in sorted;
      assert sorted[k] in list[..i];
    }
  }

  // ----- The three views agree -----

  /** At any instant: listed as pending, reported as pending, and open to a decision are the same. */
  lemma ViewsAgree(t: Table, now: int, list: seq<Request>, id: string, approve: bool)
    requires Lists(list, t, now) && forall i :: i in t ==> t[i].id == i
    ensures (exists i :: 0 <= i < |list| && list[i].id == id) <==> Decided(t, id, approve, now).Some?
    ensures Decided(t, id, approve, now).Some? <==> Got(t, id, now).Some? && Got(t, id, now).value.status == Pending
  {
    if id in t && Live(t[id], now) {
      assert t[id] in list;
    }
  }

  /** Each live request is listed once. */
  lemma ListedOnce(list: seq<Request>, t: Table, now: int)
    requires Lists(list, t, now) && Ordered(list)
    ensures Distinct(list)
  {
    hide Less;
    forall i, j | 0 <= i < j < |list| ensures list[i].id != list[j].id {
      LessTotal(list[i], list[j]);
    }
  }

  /** There is only one ordered list with given elements, so the listing is determined. */
  lemma {:induction false} OneList(a: seq<Request>, b: seq<Request>)
    requires Ordered(a) && Ordered(b) && forall r :: r in a <==> r in b
    ensures a == b
    decreases |a|
  {
    hide Less;
    if a != [] { assert a[0] in a && a[0] in b; }
    if b != [] { assert b[0] in b && b[0] in a; }
    if a != [] && b != [] {
      FirstSame(a, b);
      TailSame(a, b);
      TailSame(b, a);
      OneList(a[1..], b[1..]);
      assert a == [a[0]] + a[1..] && b == [b[0]] + b[1..];
    }
  }

  lemma FirstSame(a: seq<Request>, b: seq<Request>)
    requires Ordered(a) && Ordered(b) && a != [] && b != [] && forall r :: r in a <==> r in b
    ensures a[0] == b[0]
  {
    hide Less;
    assert a[0] in b && b[0] in a;
    var j :| 0 <= j < |b| && b[j] == a[0];
    var i :| 0 <= i < |a| && a[i] == b[0];
    LessTotal(a[0], b[0]);
  }

  lemma TailSame(a: seq<Request>, b: seq<Request>)
    requires Ordered(a) && a != [] && b != [] && a[0] == b[0] && forall r :: r in a ==> r in b
    ensures forall r :: r in a[1..] ==> r in b[1..]
  {
    hide Less;
    forall r | r in a[1..] ensures r in b[1..] {
      var i :| 0 <= i < |a[1..]| && a[1..][i] == r;
      assert Less(a[0], a[i + 1]);
      LessTotal(a[0], a[0]);
      assert a[i + 1] in a;
      assert b == [b[0]] + b[1..];
    }
  }

  // ----- Runs of operations -----

  datatype Op =
    | OpCreate(id: string, prompt: string, ttl: int)
    | OpDecide(id: string, approve: bool)
    | OpSweep(age: int)

  datatype Event = Event(op: Op, now: int)

  function Step(t: Table, limit: int, e: Event): Table {
    match e.op
    case OpCreate(id, prompt, ttl) => (match Created(t, limit, id, prompt, ttl, e.now) case None => t case Some(u) => u)
    case OpDecide(id, approve) => (match Decided(t, id, approve, e.now) case None => t case Some(u) => u)
    case OpSweep(age) => Swept(t, age, e.now)
  }

  function Run(t: Table, limit: int, events: seq<Event>): Table {
    if events == [] then t else Step(Run(t, limit, events[..|events| - 1]), limit, events[|events| - 1])
  }

  /** The clock does not run backwards. */
  predicate Clocked(events: seq<Event>, from: int) {
    && (events != [] ==> from <= events[0].now)
    && forall i, j :: 0 <= i < j < |events| ==> events[i].now <= events[j].now
  }

  /** The request is not swept anywhere in the run. */
  ghost predicate Stays(t: Table, limit: int, events: seq<Event>, id: string) {
    forall k :: 0 <= k <= |events| ==> id in Run(t, limit, events[..k])
  }

  predicate Closed(t: Table, id: string, now: int) {
    id in t && (t[id].status != Pending || now > t[id].deadline)
  }

  lemma ClosedStep(t: Table, limit: int, e: Event, id: string, now: int)
    requires Closed(t, id, now) && now <= e.now && id in Step(t, limit, e)
    ensures Step(t, limit, e)[id] == t[id] && Closed(Step(t, limit, e), id, e.now)
  {
  }

  /**
   A request that was decided, or whose deadline passed, keeps its record as long as it is in
   the table: every later Get gives the same answer and every later Decide fails.
   */
  lemma {:induction false} ClosedStays(t: Table, limit: int, events: seq<Event>, id: string, from: int, now: int,
                                       approve: bool)
    requires Closed(t, id, from) && Clocked(events, from) && Stays(t, limit, events, id)
    requires from <= now && (events != [] ==> events[|events| - 1].now <= now)
    ensures var u := Run(t, limit, events);
            id in u && u[id] == t[id] && Decided(u, id, approve, now).None? && Got(u, id, now) == Got(t, id, from)
    decreases |events|
  {
    hide Step;
    assert events[..|events|] == events;
    if events != [] {
      var front, last := events[..|events| - 1], events[|events| - 1];
      StaysPrefix(t, limit, events, id);
      assert Clocked(front, from);
      if front != [] { assert front[|front| - 1].now <= last.now; }
      ClosedStays(t, limit, front, id, from, last.now, approve);
      var mid := Run(t, limit, front);
      assert Closed(mid, id, last.now);
      ClosedStep(mid, limit, last, id, last.now);
    }
  }

  lemma StaysPrefix(t: Table, limit: int, events: seq<Event>, id: string)
    requires events != [] && Stays(t, limit, events, id)
    ensures Stays(t, limit, events[..|events| - 1], id) && id in Run(t, limit, events)
  {
    var front := events[..|events| - 1];
    forall k | 0 <= k <= |front| ensures id in Run(t, limit, front[..k]) {
      assert front[..k] == events[..k];
    }
    assert events[..|events|] == events;
  }

  /** Nothing in the run decides or sweeps the request. */
  ghost predicate Untouched(t: Table, limit: int, events: seq<Event>, id: string) {
    && Stays(t, limit, events, id)
    && forall k :: 0 <= k < |events| && events[k].op.OpDecide? ==> events[k].op.id != id
  }

  lemma {:induction false} RecordStays(t: Table, limit: int, events: seq<Event>, id: string)
    requires id in t && Untouched(t, limit, events, id)
    ensures id in Run(t, limit, events) && Run(t, limit, events)[id] == t[id]
    decreases |events|
  {
    if events != [] {
      StaysPrefix(t, limit, events, id);
      RecordStays(t, limit, events[..|events| - 1], id);
    }
  }

  /**
   A created request is open for exactly its time to live: over any run that neither decides nor
   sweeps it, it is reported with its prompt and creation time, as pending and open to a decision
   up to `ttl` after its creation and as expired after that.
   */
  lemma OpenUntil(t: Table, limit: int, id: string, prompt: string, ttl: int, created: int, events: seq<Event>,
                  now: int, approve: bool)
    requires Created(t, limit, id, prompt, ttl, created).Some?
    requires Untouched(Created(t, limit, id, prompt, ttl, created).value, limit, events, id)
    ensures var u := Run(Created(t, limit, id, prompt, ttl, created).value, limit, events);
            && Got(u, id, now)
               == Some(Request(id, prompt, if now <= created + ttl then Pending else Expired, created, created + ttl))
            && (Decided(u, id, approve, now).Some? <==> now <= created + ttl)
  {
    RecordStays(Created(t, limit, id, prompt, ttl, created).value, limit, events, id);
    hide Run;
  }

  /** A successful decision closes the request with that decision. */
  lemma DecideCloses(t: Table, id: string, approve: bool, now: int)
    requires Decided(t, id, approve, now).Some?
    ensures Closed(Decided(t, id, approve, now).value, id, now)
    ensures Got(Decided(t, id, approve, now).value, id, now)
            == Some(t[id].(status := if approve then Approved else Denied))
  {
  }

  /** Between its creation and its sweep, at most one decision on a request succeeds. */
  lemma DecidedOnce(t: Table, limit: int, id: string, approve: bool, now: int, events: seq<Event>, again: bool,
                    later: int)
    requires Decided(t, id, approve, now).Some?
    requires var u := Decided(t, id, approve, now).value; Clocked(events, now) && Stays(u, limit, events, id)
    requires now <= later && (events != [] ==> events[|events| - 1].now <= later)
    ensures var u := Run(Decided(t, id, approve, now).value, limit, events);
            && Decided(u, id, again, later).None?
            && Got(u, id, later).Some? && Got(u, id, later).value.status == if approve then Approved else Denied
  {
    DecideCloses(t, id, approve, now);
    ClosedStays(Decided(t, id, approve, now).value, limit, events, id, now, later, again);
  }

  // ----- Sweeping -----

  predicate SweepSpares(age: int, t: Table, now: int, id: string) {
    id in t && Live(t[id], now) ==> id in Swept(t, age, now)
  }

  /** Sweeping never removes a request that can still be decided, if and only if the age is not negative. */
  lemma SweepSparesLive(age: int)
    ensures (forall t: Table, now: int, id: string :: SweepSpares(age, t, now, id)) <==> age >= 0
  {
    if age < 0 {
      var r := Request("a", "p", Pending, 0, 0);
      var t: Table := map["a" := r];
      assert t["a"] == r && "a" !in Swept(t, age, 0);
      assert !SweepSpares(age, t, 0, "a");
    }
  }
}
