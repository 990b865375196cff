/**
 The approval protocol end to end: brokers (internal/broker/broker.go), their polling
 approvers (internal/approval/tailscale.go), the relay's table (internal/relay/store.go) and
 the humans, running concurrently.

 Messages may be delayed, lost, repeated and reordered: a registration the broker has sent
 may reach the relay at any later time or never, and a broker may receive any reply the relay
 ever gave for its request. The relay may sweep and restart, the clock does not run backwards,
 and request IDs are not used twice.
 */
module ApprovalProtocol {
  import opened Basics
  import opened Prompt
  import B = Broker
  import C = Config
  import R = RelayStore
  import Shell

  datatype Clearance = Permitted | ByHuman(id: string)

  datatype Phase =
    | Begun
    | Asking(prompt: string)
    | Waiting(id: string, prompt: string)
    | Clear(how: Clearance)
    | Over

  datatype Broker = Broker(cfg: C.Config, req: Command, phase: Phase)

  datatype Sent = Sent(b: nat, prompt: string)

  /** What happened, in order. */
  datatype Entry =
    | AuditStart(b: nat, req: Command)
    | Registered(b: nat, id: string, prompt: string)
    | Arrived(id: string, at: int)
    | Accepted(id: string, prompt: string, approve: bool, at: int, deadline: int)
    | Executed(b: nat, cfg: C.Config, req: Command, how: Clearance)

  datatype State = State(
    clock: int, table: R.Table, sent: map<string, Sent>, replies: set<(string, R.Status)>,
    brokers: map<nat, Broker>, log: seq<Entry>)

  datatype Env = Env(limit: int, ttl: int, dirs: B.Directories, wide: nat -> bool)

  datatype Action =
    | Begin(b: nat, cfg: C.Config, req: Command)
    | Judge(b: nat)
    | Register(b: nat, id: string)
    | Arrive(id: string)
    | Poll(id: string)
    | Receive(b: nat, status: R.Status)
    | Human(id: string, approve: bool)
    | Sweep(age: int)
    | Restart
    | Advance(d: nat)
    | GiveUp(b: nat)
    | Execute(b: nat)

  function Move(s: State, b: nat, p: Phase): State
    requires b in s.brokers
  {
    s.(brokers := s.brokers[b := s.brokers[b].(phase := p)])
  }

  function Logged(s: State, e: Entry): State { s.(log := s.log + [e]) }

  /** Steps of the broker and its approver. */
  function DoBroker(env: Env, s: State, a: Action, b: nat): Option<State>
    requires b in s.brokers
  {
    var w := s.brokers[b];
    var p := w.phase;
    if a.Judge? && p.Begun? then
      match B.DryRun(w.cfg, w.req, env.dirs)
      case Deny => Some(Move(s, b, Over))
      case Allow => Some(Move(s, b, Clear(Permitted)))
      case Ask => Some(Move(s, b, Asking(if IsCommand(w.req) then PromptText(w.req, env.wide) else "")))
    else if a.Register? && p.Asking? && a.id !in s.sent then
      Some(Logged(Move(s, b, Waiting(a.id, p.prompt)).(sent := s.sent[a.id := Sent(b, p.prompt)]),
                  Registered(b, a.id, p.prompt)))
    else if a.Receive? && p.Waiting? && (p.id, a.status) in s.replies then
      match a.status
      case Approved => Some(Move(s, b, Clear(ByHuman(p.id))))
      case Pending => Some(s)
      case _ => Some(Move(s, b, Over))
    else if a.GiveUp? then Some(Move(s, b, Over))
    else if a.Execute? && p.Clear? then Some(Logged(Move(s, b, Over), Executed(b, w.cfg, w.req, p.how)))
    else None
  }

  /** Steps of the relay, the human and the clock. */
  function DoRelay(env: Env, s: State, a: Action): Option<State> {
    match a
    case Arrive(id) =>
      if id !in s.sent then None
      else (match R.Created(s.table, env.limit, id, s.sent[id].prompt, env.ttl, s.clock)
            case None => Some(s)
            case Some(t) => Some(Logged(s.(table := t), Arrived(id, s.clock))))
    case Poll(id) =>
      (match R.Got(s.table, id, s.clock)
       case None => Some(s)
       case Some(r) => Some(s.(replies := s.replies + {(id, r.status)})))
    case Human(id, approve) =>
      (match R.Decided(s.table, id, approve, s.clock)
       case None => None
       case Some(t) => Some(Logged(s.(table := t),
                                   Accepted(id, s.table[id].prompt, approve, s.clock, s.table[id].deadline))))
    case Sweep(age) => Some(s.(table := R.Swept(s.table, age, s.clock)))
    case Restart => Some(s.(table := map[]))
    case Advance(d) => Some(s.(clock := s.clock + d))
    case _ => None
  }

  function Do(env: Env, s: State, a: Action): Option<State> {
    match a
    case Begin(b, cfg, req) =>
      if b in s.brokers || !IsCommand(req) || !C.ValidProjects(cfg.projects) then None
      else Some(Logged(s.(brokers := s.brokers[b := Broker(cfg, req, Begun)]), AuditStart(b, req)))
    case Judge(b) => if b in s.brokers then DoBroker(env, s, a, b) else None
    case Register(b, _) => if b in s.brokers then DoBroker(env, s, a, b) else None
    case Receive(b, _) => if b in s.brokers then DoBroker(env, s, a, b) else None
    case GiveUp(b) => if b in s.brokers then DoBroker(env, s, a, b) else None
    case Execute(b) => if b in s.brokers then DoBroker(env, s, a, b) else None
    case _ => DoRelay(env, s, a)
  }

  function Run(env: Env, s: State, actions: seq<Action>): Option<State> {
    if actions == [] then Some(s)
    else match Run(env, s, actions[..|actions| - 1])
      case None => None
      case Some(mid) => Do(env, mid, actions[|actions| - 1])
  }

  predicate Initial(s: State) {
    s.table == map[] && s.sent == map[] && s.replies == {} && s.brokers == map[] && s.log == []
  }

  // ----- What every step keeps -----

  predicate YesAt(log: seq<Entry>, j: int, id: string, prompt: string) {
    && 0 <= j < |log| && log[j].Accepted? && log[j].id == id && log[j].prompt == prompt
    && log[j].approve && log[j].at <= log[j].deadline
  }

  /** The broker registered this prompt under this ID, and later an approval of it was accepted in time. */
  predicate Yes(log: seq<Entry>, b: nat, id: string, prompt: string) {
    exists i, j :: 0 <= i < j < |log| && YesAt(log, j, id, prompt) && log[i] == Registered(b, id, prompt)
  }

  predicate RegisteredIn(log: seq<Entry>, b: nat, id: string, prompt: string) {
    exists i :: 0 <= i < |log| && log[i] == Registered(b, id, prompt)
  }

  predicate StartedIn(log: seq<Entry>, b: nat, req: Command) {
    exists i :: 0 <= i < |log| && log[i] == AuditStart(b, req)
  }

  predicate SentOk(s: State) {
    && (forall id :: id in s.sent ==> RegisteredIn(s.log, s.sent[id].b, id, s.sent[id].prompt))
    && (forall i :: 0 <= i < |s.log| && s.log[i].Registered? ==>
          s.log[i].id in s.sent && s.sent[s.log[i].id] == Sent(s.log[i].b, s.log[i].prompt))
    && (forall i, j :: 0 <= i < j < |s.log| && s.log[i].Registered? && s.log[j].Registered? ==>
          s.log[i].id != s.log[j].id)
  }

  predicate TableOk(s: State) {
    forall id :: id in s.table ==>
      && id in s.sent && s.table[id].prompt == s.sent[id].prompt
      && (s.table[id].status == R.Approved ==> Yes(s.log, s.sent[id].b, id, s.sent[id].prompt))
  }

  ghost predicate RepliesOk(s: State) {
    forall id: string :: (id, R.Approved) in s.replies ==>
      id in s.sent && Yes(s.log, s.sent[id].b, id, s.sent[id].prompt)
  }

  /** What clears a command for execution. */
  predicate Cleared(env: Env, log: seq<Entry>, b: nat, cfg: C.Config, req: Command, how: Clearance) {
    && IsCommand(req) && C.ValidProjects(cfg.projects)
    && match how
       case Permitted => B.DryRun(cfg, req, env.dirs) == B.Allow
       case ByHuman(id) => B.DryRun(cfg, req, env.dirs) == B.Ask && Yes(log, b, id, PromptText(req, env.wide))
  }

  predicate BrokerOk(env: Env, s: State, b: nat, w: Broker) {
    && IsCommand(w.req) && C.ValidProjects(w.cfg.projects) && StartedIn(s.log, b, w.req)
    && match w.phase
       case Begun => true
       case Asking(prompt) => B.DryRun(w.cfg, w.req, env.dirs) == B.Ask && prompt == PromptText(w.req, env.wide)
       case Waiting(id, prompt) =>
         && B.DryRun(w.cfg, w.req, env.dirs) == B.Ask && prompt == PromptText(w.req, env.wide)
         && id in s.sent && s.sent[id] == Sent(b, prompt)
       case Clear(how) => Cleared(env, s.log, b, w.cfg, w.req, how)
       case Over => true
  }

  predicate BrokersOk(env: Env, s: State) { forall b :: b in s.brokers ==> BrokerOk(env, s, b, s.brokers[b]) }

  /** An execution in the history is justified by what came before it. */
  predicate Justified(env: Env, log: seq<Entry>, k: nat)
    requires k < |log|
  {
    log[k].Executed? ==>
      StartedIn(log[..k], log[k].b, log[k].req) && Cleared(env, log[..k], log[k].b, log[k].cfg, log[k].req, log[k].how)
  }

  predicate HistoryOk(env: Env, s: State) {
    && (forall k :: 0 <= k < |s.log| ==> Justified(env, s.log, k))
    && (forall k :: 0 <= k < |s.log| && s.log[k].Executed? ==>
          s.log[k].b in s.brokers && s.brokers[s.log[k].b].phase == Over)
    && (forall j, k :: 0 <= j < k < |s.log| && s.log[j].Executed? && s.log[k].Executed? ==> s.log[j].b != s.log[k].b)
  }

  predicate ArrivedIn(log: seq<Entry>, id: string, at: int) {
    exists i :: 0 <= i < |log| && log[i] == Arrived(id, at)
  }

  /** Entry i is an arrival of this request, and entry j lies within the request's time from then on. */
  predicate Window(log: seq<Entry>, ttl: int, i: int, j: int) {
    && 0 <= i < j < |log| && log[i].Arrived? && log[j].Accepted? && log[i].id == log[j].id
    && log[j].deadline == log[i].at + ttl && log[i].at <= log[j].at <= log[i].at + ttl
  }

  /** The accepted decision j came within the request's time after one of its arrivals. */
  predicate InWindow(log: seq<Entry>, ttl: int, j: int) { exists i :: 0 <= i < |log| && Window(log, ttl, i, j) }

  /** A request in the table arrived when it says and is open for the configured time; arrivals follow registrations. */
  predicate ArrivalsOk(env: Env, s: State) {
    && (forall id :: id in s.table ==>
          && ArrivedIn(s.log, id, s.table[id].createdAt) && s.table[id].createdAt <= s.clock
          && s.table[id].deadline == s.table[id].createdAt + env.ttl)
    && (forall j :: 0 <= j < |s.log| && s.log[j].Accepted? ==> InWindow(s.log, env.ttl, j))
    && (forall j :: 0 <= j < |s.log| && s.log[j].Arrived? ==>
          s.log[j].id in s.sent
          && RegisteredIn(s.log[..j], s.sent[s.log[j].id].b, s.log[j].id, s.sent[s.log[j].id].prompt))
  }

  ghost predicate Inv(env: Env, s: State) {
    SentOk(s) && TableOk(s) && RepliesOk(s) && BrokersOk(env, s) && HistoryOk(env, s) && ArrivalsOk(env, s)
  }

  // ----- The history only grows -----

  lemma YesGrows(log: seq<Entry>, e: Entry, b: nat, id: string, prompt: string)
    requires Yes(log, b, id, prompt)
    ensures Yes(log + [e], b, id, prompt)
  {
    var i, j :| 0 <= i < j < |log| && YesAt(log, j, id, prompt) && log[i] == Registered(b, id, prompt);
    assert (log + [e])[j] == log[j] && (log + [e])[i] == log[i];
    assert YesAt(log + [e], j, id, prompt);
  }

  lemma StartedGrows(log: seq<Entry>, e: Entry, b: nat, req: Command)
    requires StartedIn(log, b, req)
    ensures StartedIn(log + [e], b, req)
  {
    var i :| 0 <= i < |log| && log[i] == AuditStart(b, req);
    assert (log + [e])[i] == log[i];
  }

  lemma RegisteredGrows(log: seq<Entry>, e: Entry, b: nat, id: string, prompt: string)
    requires RegisteredIn(log, b, id, prompt)
    ensures RegisteredIn(log + [e], b, id, prompt)
  {
    var i :| 0 <= i < |log| && log[i] == Registered(b, id, prompt);
    assert (log + [e])[i] == log[i];
  }

  lemma ClearedGrows(env: Env, log: seq<Entry>, e: Entry, b: nat, cfg: C.Config, req: Command, how: Clearance)
    requires Cleared(env, log, b, cfg, req, how)
    ensures Cleared(env, log + [e], b, cfg, req, how)
  {
    hide Yes, PromptText, IsCommand, B.DryRun;
    if how.ByHuman? { YesGrows(log, e, b, how.id, PromptText(req, env.wide)); }
  }

  lemma BrokerGrows(env: Env, s: State, s': State, e: Entry, b: nat, w: Broker)
    requires BrokerOk(env, s, b, w) && s'.log == s.log + [e]
    requires forall id :: id in s.sent ==> id in s'.sent && s'.sent[id] == s.sent[id]
    ensures BrokerOk(env, s', b, w)
  {
    hide Yes, PromptText, IsCommand, B.DryRun, StartedIn, Cleared;
    StartedGrows(s.log, e, b, w.req);
    if w.phase.Clear? { ClearedGrows(env, s.log, e, b, w.cfg, w.req, w.phase.how); }
  }

  lemma SameBroker(env: Env, s: State, s': State, b: nat, w: Broker)
    requires BrokerOk(env, s, b, w) && s'.log == s.log && s'.sent == s.sent
    ensures BrokerOk(env, s', b, w)
  {
    hide Yes, PromptText, IsCommand, B.DryRun, StartedIn, Cleared;
  }

  lemma JustifiedStays(env: Env, log: seq<Entry>, e: Entry, k: nat)
    requires k < |log| && Justified(env, log, k)
    ensures Justified(env, log + [e], k)
  {
    hide StartedIn, Cleared;
    assert (log + [e])[..k] == log[..k] && (log + [e])[k] == log[k];
  }

  /** Entries of the other kinds leave the history in order. */
  lemma HistoryGrows(env: Env, s: State, s': State, e: Entry)
    requires HistoryOk(env, s) && s'.log == s.log + [e] && !e.Executed?
    requires forall b :: b in s.brokers && s.brokers[b].phase == Over ==> b in s'.brokers && s'.brokers[b].phase == Over
    ensures HistoryOk(env, s')
  {
    hide Justified;
    forall k | 0 <= k < |s'.log| ensures Justified(env, s'.log, k) {
      if k < |s.log| { JustifiedStays(env, s.log, e, k); } else { OtherJustified(env, s'.log, k); }
    }
    assert forall k :: 0 <= k < |s.log| ==> s'.log[k] == s.log[k];
  }

  lemma OtherJustified(env: Env, log: seq<Entry>, k: nat)
    requires k < |log| && !log[k].Executed?
    ensures Justified(env, log, k)
  {
  }

  lemma TablesGrow(s: State, s': State, e: Entry)
    requires TableOk(s) && RepliesOk(s) && s'.log == s.log + [e] && s'.table == s.table && s'.replies == s.replies
    requires forall id :: id in s.sent ==> id in s'.sent && s'.sent[id] == s.sent[id]
    ensures TableOk(s') && RepliesOk(s')
  {
    hide Yes;
    forall id | id in s'.table && s'.table[id].status == R.Approved
      ensures Yes(s'.log, s'.sent[id].b, id, s'.sent[id].prompt)
    {
      YesGrows(s.log, e, s.sent[id].b, id, s.sent[id].prompt);
    }
    forall id: string | (id, R.Approved) in s'.replies
      ensures id in s'.sent && Yes(s'.log, s'.sent[id].b, id, s'.sent[id].prompt)
    {
      YesGrows(s.log, e, s.sent[id].b, id, s.sent[id].prompt);
    }
  }

  lemma WindowGrows(log: seq<Entry>, e: Entry, ttl: int, j: nat)
    requires j < |log| && InWindow(log, ttl, j)
    ensures InWindow(log + [e], ttl, j)
  {
    var i :| 0 <= i < |log| && Window(log, ttl, i, j);
    assert (log + [e])[i] == log[i] && (log + [e])[j] == log[j];
    assert Window(log + [e], ttl, i, j);
  }

  lemma ArrivedGrows(log: seq<Entry>, e: Entry, id: string, at: int)
    requires ArrivedIn(log, id, at)
    ensures ArrivedIn(log + [e], id, at)
  {
    var i :| 0 <= i < |log| && log[i] == Arrived(id, at);
    assert (log + [e])[i] == log[i];
  }

  /** Entries of the other kinds leave the arrivals in order, with what the table still holds. */
  lemma ArrivalsGrow(env: Env, s: State, s': State, e: Entry)
    requires ArrivalsOk(env, s) && s'.log == s.log + [e] && !e.Arrived? && s.clock <= s'.clock
    requires e.Accepted? ==> InWindow(s'.log, env.ttl, |s.log|)
    requires forall id :: id in s'.table ==>
               id in s.table && s'.table[id].createdAt == s.table[id].createdAt
               && s'.table[id].deadline == s.table[id].deadline
    requires forall id :: id in s.sent ==> id in s'.sent && s'.sent[id] == s.sent[id]
    ensures ArrivalsOk(env, s')
  {
    hide InWindow, ArrivedIn, RegisteredIn;
    forall id | id in s'.table ensures ArrivedIn(s'.log, id, s'.table[id].createdAt) {
      ArrivedGrows(s.log, e, id, s.table[id].createdAt);
    }
    OldArrivals(env, s, s', e);
  }

  lemma OldArrivals(env: Env, s: State, s': State, e: Entry)
    requires ArrivalsOk(env, s) && s'.log == s.log + [e]
    requires forall id :: id in s.sent ==> id in s'.sent && s'.sent[id] == s.sent[id]
    ensures forall j :: 0 <= j < |s.log| && s'.log[j].Accepted? ==> InWindow(s'.log, env.ttl, j)
    ensures forall j :: 0 <= j < |s.log| && s'.log[j].Arrived? ==>
              s'.log[j].id in s'.sent
              && RegisteredIn(s'.log[..j], s'.sent[s'.log[j].id].b, s'.log[j].id, s'.sent[s'.log[j].id].prompt)
  {
    hide InWindow, ArrivedIn, RegisteredIn;
    forall j | 0 <= j < |s.log| && s'.log[j].Accepted? ensures InWindow(s'.log, env.ttl, j) {
      WindowGrows(s.log, e, env.ttl, j);
    }
    forall j | 0 <= j < |s.log| ensures s'.log[j] == s.log[j] && s'.log[..j] == s.log[..j] {
    }
  }

  lemma SentGrows(s: State, s': State, e: Entry)
    requires SentOk(s) && s'.log == s.log + [e] && s'.sent == s.sent && !e.Registered?
    ensures SentOk(s')
  {
    hide RegisteredIn;
    forall id | id in s'.sent ensures RegisteredIn(s'.log, s'.sent[id].b, id, s'.sent[id].prompt) {
      RegisteredGrows(s.log, e, s.sent[id].b, id, s.sent[id].prompt);
    }
    assert forall k :: 0 <= k < |s.log| ==> s'.log[k] == s.log[k];
  }

  // ----- Every step -----

  lemma BeginKeeps(env: Env, s: State, b: nat, cfg: C.Config, req: Command)
    requires Inv(env, s) && b !in s.brokers && IsCommand(req) && C.ValidProjects(cfg.projects)
    ensures Inv(env, Logged(s.(brokers := s.brokers[b := Broker(cfg, req, Begun)]), AuditStart(b, req)))
  {
    hide IsCommand, SentOk, TableOk, RepliesOk, HistoryOk, ArrivalsOk, B.DryRun, PromptText, StartedIn, BrokerOk;
    var e := AuditStart(b, req);
    var s' := Logged(s.(brokers := s.brokers[b := Broker(cfg, req, Begun)]), e);
    SentGrows(s, s', e);
    TablesGrow(s, s', e);
    ArrivalsGrow(env, s, s', e);
    HistoryGrows(env, s, s', e);
    forall x | x in s'.brokers ensures BrokerOk(env, s', x, s'.brokers[x]) {
      if x == b { JustBegun(env, s', b, cfg, req); } else { BrokerGrows(env, s, s', e, x, s.brokers[x]); }
    }
  }

  lemma JustBegun(env: Env, s: State, b: nat, cfg: C.Config, req: Command)
    requires s.log != [] && s.log[|s.log| - 1] == AuditStart(b, req) && IsCommand(req)
    requires C.ValidProjects(cfg.projects)
    ensures BrokerOk(env, s, b, Broker(cfg, req, Begun))
  {
    hide IsCommand;
  }

  /** A broker step without history: the other parts are untouched. */
  lemma MoveKeeps(env: Env, s: State, b: nat, p: Phase)
    requires Inv(env, s) && b in s.brokers && BrokerOk(env, s, b, s.brokers[b].(phase := p))
    requires s.brokers[b].phase == Over ==> p == Over
    ensures Inv(env, Move(s, b, p))
  {
    hide IsCommand, B.DryRun, PromptText, StartedIn, BrokerOk, Justified, Yes, RegisteredIn;
    var s' := Move(s, b, p);
    forall x | x in s'.brokers ensures BrokerOk(env, s', x, s'.brokers[x]) {
      SameBroker(env, s, s', x, s'.brokers[x]);
    }
  }

  lemma BrokerFacts(env: Env, s: State, b: nat)
    requires Inv(env, s) && b in s.brokers
    ensures BrokerOk(env, s, b, s.brokers[b])
  {
    hide BrokerOk;
  }

  lemma JudgeKeeps(env: Env, s: State, a: Action, b: nat)
    requires Inv(env, s) && b in s.brokers && !a.Register? && !a.Execute? && DoBroker(env, s, a, b).Some?
    ensures Inv(env, DoBroker(env, s, a, b).value)
  {
    hide Inv, IsCommand, B.DryRun, PromptText, StartedIn, Yes;
    BrokerFacts(env, s, b);
    var s' := DoBroker(env, s, a, b).value;
    if s' != s {
      var p := s'.brokers[b].phase;
      if p.Clear? && p.how.ByHuman? { AnswerMeansYes(env, s, p.how.id); }
      MoveKeeps(env, s, b, p);
    }
  }

  /** An approved reply means that an approval was accepted in time. */
  lemma AnswerMeansYes(env: Env, s: State, id: string)
    requires Inv(env, s) && (id, R.Approved) in s.replies
    ensures id in s.sent && Yes(s.log, s.sent[id].b, id, s.sent[id].prompt)
  {
    hide Yes, SentOk, TableOk, BrokersOk, HistoryOk;
  }

  lemma SendKeeps(s: State, s': State, b: nat, id: string, prompt: string)
    requires SentOk(s) && id !in s.sent
    requires s'.sent == s.sent[id := Sent(b, prompt)] && s'.log == s.log + [Registered(b, id, prompt)]
    ensures SentOk(s')
  {
    var e := Registered(b, id, prompt);
    assert s'.log[|s.log|] == e;
    assert RegisteredIn(s'.log, b, id, prompt);
    hide RegisteredIn;
    forall i | i in s'.sent ensures RegisteredIn(s'.log, s'.sent[i].b, i, s'.sent[i].prompt) {
      if i != id { RegisteredGrows(s.log, e, s.sent[i].b, i, s.sent[i].prompt); }
    }
    assert forall k :: 0 <= k < |s.log| ==> s'.log[k] == s.log[k];
  }

  lemma RegisterKeeps(env: Env, s: State, b: nat, id: string)
    requires Inv(env, s) && b in s.brokers && s.brokers[b].phase.Asking? && id !in s.sent
    ensures DoBroker(env, s, Register(b, id), b).Some? && Inv(env, DoBroker(env, s, Register(b, id), b).value)
  {
    hide IsCommand, B.DryRun, PromptText, StartedIn, SentOk, TableOk, RepliesOk, HistoryOk, ArrivalsOk;
    BrokerFacts(env, s, b);
    var w := s.brokers[b];
    var e := Registered(b, id, w.phase.prompt);
    var s' := DoBroker(env, s, Register(b, id), b).value;
    SendKeeps(s, s', b, id, w.phase.prompt);
    TablesGrow(s, s', e);
    ArrivalsGrow(env, s, s', e);
    HistoryGrows(env, s, s', e);
    StartedGrows(s.log, e, b, w.req);
    forall x | x in s'.brokers ensures BrokerOk(env, s', x, s'.brokers[x]) {
      if x != b { BrokerGrows(env, s, s', e, x, s.brokers[x]); }
    }
  }

  /** The history with an execution added. */
  lemma ExecuteHistory(env: Env, s: State, s': State, b: nat)
    requires HistoryOk(env, s) && b in s.brokers && BrokerOk(env, s, b, s.brokers[b]) && s.brokers[b].phase.Clear?
    requires var w := s.brokers[b];
             s' == Logged(Move(s, b, Over), Executed(b, w.cfg, w.req, w.phase.how))
    ensures HistoryOk(env, s')
  {
    hide IsCommand, B.DryRun, PromptText, StartedIn, Yes;
    var w := s.brokers[b];
    var e := Executed(b, w.cfg, w.req, w.phase.how);
    assert s'.log[..|s.log|] == s.log;
    assert Justified(env, s'.log, |s.log|);
    hide Justified;
    forall k | 0 <= k < |s'.log| ensures Justified(env, s'.log, k) {
      if k < |s.log| { JustifiedStays(env, s.log, e, k); }
    }
    assert forall k :: 0 <= k < |s.log| ==> s'.log[k] == s.log[k];
  }

  lemma ExecuteKeeps(env: Env, s: State, b: nat)
    requires Inv(env, s) && b in s.brokers && s.brokers[b].phase.Clear?
    ensures DoBroker(env, s, Execute(b), b).Some? && Inv(env, DoBroker(env, s, Execute(b), b).value)
  {
    hide IsCommand, B.DryRun, PromptText, StartedIn, SentOk, TableOk, RepliesOk, HistoryOk, ArrivalsOk, Yes;
    BrokerFacts(env, s, b);
    var w := s.brokers[b];
    var e := Executed(b, w.cfg, w.req, w.phase.how);
    var s' := DoBroker(env, s, Execute(b), b).value;
    SentGrows(s, s', e);
    TablesGrow(s, s', e);
    ArrivalsGrow(env, s, s', e);
    ExecuteHistory(env, s, s', b);
    StartedGrows(s.log, e, b, w.req);
    forall x | x in s'.brokers ensures BrokerOk(env, s', x, s'.brokers[x]) {
      if x != b { BrokerGrows(env, s, s', e, x, s.brokers[x]); }
    }
  }

  /** A relay step without history. */
  lemma QuietKeeps(env: Env, s: State, s': State)
    requires Inv(env, s) && s'.log == s.log && s'.sent == s.sent && s'.brokers == s.brokers
    requires TableOk(s') && RepliesOk(s') && ArrivalsOk(env, s')
    ensures Inv(env, s')
  {
    hide BrokerOk, TableOk, RepliesOk, Justified, RegisteredIn, ArrivalsOk;
    forall x | x in s'.brokers ensures BrokerOk(env, s', x, s'.brokers[x]) {
      SameBroker(env, s, s', x, s'.brokers[x]);
    }
  }

  lemma QuietRelay(env: Env, s: State, a: Action)
    requires Inv(env, s) && !a.Human? && !a.Arrive? && DoRelay(env, s, a).Some?
    ensures Inv(env, DoRelay(env, s, a).value)
  {
    hide BrokersOk, HistoryOk, SentOk, Yes, InWindow, ArrivedIn, RegisteredIn;
    var s' := DoRelay(env, s, a).value;
    assert TableOk(s');
    assert RepliesOk(s');
    assert ArrivalsOk(env, s');
    QuietKeeps(env, s, s');
  }

  lemma ArriveTable(env: Env, s: State, s': State, id: string)
    requires TableOk(s) && RepliesOk(s) && id in s.sent
    requires R.Created(s.table, env.limit, id, s.sent[id].prompt, env.ttl, s.clock).Some?
    requires s' == Logged(s.(table := R.Created(s.table, env.limit, id, s.sent[id].prompt, env.ttl, s.clock).value),
                          Arrived(id, s.clock))
    ensures TableOk(s') && RepliesOk(s')
  {
    var e := Arrived(id, s.clock);
    hide Yes;
    TablesGrow(s, Logged(s, e), e);
  }

  lemma SentIsRegistered(s: State, id: string)
    requires SentOk(s) && id in s.sent
    ensures RegisteredIn(s.log, s.sent[id].b, id, s.sent[id].prompt)
  {
    hide RegisteredIn;
  }

  lemma JustArrived(log: seq<Entry>, id: string, at: int)
    ensures ArrivedIn(log + [Arrived(id, at)], id, at)
  {
    assert (log + [Arrived(id, at)])[|log|] == Arrived(id, at);
  }

  lemma ArriveArrivals(env: Env, s: State, s': State, id: string)
    requires ArrivalsOk(env, s) && SentOk(s) && id in s.sent
    requires R.Created(s.table, env.limit, id, s.sent[id].prompt, env.ttl, s.clock).Some?
    requires s' == Logged(s.(table := R.Created(s.table, env.limit, id, s.sent[id].prompt, env.ttl, s.clock).value),
                          Arrived(id, s.clock))
    ensures ArrivalsOk(env, s')
  {
    hide InWindow, ArrivedIn, RegisteredIn, SentOk;
    var e := Arrived(id, s.clock);
    assert s'.log[..|s.log|] == s.log;
    SentIsRegistered(s, id);
    JustArrived(s.log, id, s.clock);
    OldArrivals(env, s, s', e);
    forall x | x in s'.table && x != id ensures ArrivedIn(s'.log, x, s'.table[x].createdAt) {
      ArrivedGrows(s.log, e, x, s.table[x].createdAt);
    }
  }

  lemma ArriveKeeps(env: Env, s: State, id: string)
    requires Inv(env, s) && DoRelay(env, s, Arrive(id)).Some?
    ensures Inv(env, DoRelay(env, s, Arrive(id)).value)
  {
    hide SentOk, TableOk, RepliesOk, HistoryOk, BrokerOk, ArrivalsOk, R.Created;
    if R.Created(s.table, env.limit, id, s.sent[id].prompt, env.ttl, s.clock).Some? {
      var e := Arrived(id, s.clock);
      var s' := DoRelay(env, s, Arrive(id)).value;
      ArriveTable(env, s, s', id);
      ArriveArrivals(env, s, s', id);
      SentGrows(s, s', e);
      HistoryGrows(env, s, s', e);
      forall x | x in s'.brokers ensures BrokerOk(env, s', x, s'.brokers[x]) {
        BrokerGrows(env, s, s', e, x, s.brokers[x]);
      }
    }
  }

  lemma HumanTable(env: Env, s: State, s': State, id: string, approve: bool)
    requires Inv(env, s) && R.Decided(s.table, id, approve, s.clock).Some?
    requires s' == Logged(s.(table := R.Decided(s.table, id, approve, s.clock).value),
                          Accepted(id, s.table[id].prompt, approve, s.clock, s.table[id].deadline))
    ensures TableOk(s') && RepliesOk(s')
  {
    hide BrokersOk, HistoryOk, ArrivalsOk;
    var e := Accepted(id, s.table[id].prompt, approve, s.clock, s.table[id].deadline);
    TablesGrow(s, Logged(s, e), e);
    if approve {
      var b, prompt := s.sent[id].b, s.sent[id].prompt;
      var i :| 0 <= i < |s.log| && s.log[i] == Registered(b, id, prompt);
      assert s'.log[i] == s.log[i] && YesAt(s'.log, |s.log|, id, prompt);
      assert Yes(s'.log, b, id, prompt);
    }
    hide Yes;
  }

  lemma HumanArrivals(env: Env, s: State, s': State, id: string, approve: bool)
    requires ArrivalsOk(env, s) && R.Decided(s.table, id, approve, s.clock).Some?
    requires s' == Logged(s.(table := R.Decided(s.table, id, approve, s.clock).value),
                          Accepted(id, s.table[id].prompt, approve, s.clock, s.table[id].deadline))
    ensures ArrivalsOk(env, s')
  {
    var e := Accepted(id, s.table[id].prompt, approve, s.clock, s.table[id].deadline);
    var i :| 0 <= i < |s.log| && s.log[i] == Arrived(id, s.table[id].createdAt);
    assert s'.log[i] == s.log[i] && s'.log[|s.log|] == e;
    assert Window(s'.log, env.ttl, i, |s.log|);
    hide Window, ArrivedIn, RegisteredIn;
    ArrivalsGrow(env, s, s', e);
  }

  lemma HumanKeeps(env: Env, s: State, id: string, approve: bool)
    requires Inv(env, s) && R.Decided(s.table, id, approve, s.clock).Some?
    ensures DoRelay(env, s, Human(id, approve)).Some? && Inv(env, DoRelay(env, s, Human(id, approve)).value)
  {
    hide SentOk, TableOk, RepliesOk, HistoryOk, ArrivalsOk, BrokerOk;
    var e := Accepted(id, s.table[id].prompt, approve, s.clock, s.table[id].deadline);
    var s' := DoRelay(env, s, Human(id, approve)).value;
    HumanTable(env, s, s', id, approve);
    HumanArrivals(env, s, s', id, approve);
    SentGrows(s, s', e);
    HistoryGrows(env, s, s', e);
    forall x | x in s'.brokers ensures BrokerOk(env, s', x, s'.brokers[x]) {
      BrokerGrows(env, s, s', e, x, s.brokers[x]);
    }
  }

  lemma DoKeeps(env: Env, s: State, a: Action)
    requires Inv(env, s) && Do(env, s, a).Some?
    ensures Inv(env, Do(env, s, a).value)
  {
    hide Inv, IsCommand, B.DryRun;
    match a
    case Begin(b, cfg, req) => BeginKeeps(env, s, b, cfg, req);
    case Judge(b) => JudgeKeeps(env, s, a, b);
    case Register(b, id) => RegisterKeeps(env, s, b, id);
    case Receive(b, _) => JudgeKeeps(env, s, a, b);
    case GiveUp(b) => JudgeKeeps(env, s, a, b);
    case Execute(b) => ExecuteKeeps(env, s, b);
    case Human(id, approve) => HumanKeeps(env, s, id, approve);
    case Arrive(id) => ArriveKeeps(env, s, id);
    case _ => QuietRelay(env, s, a);
  }

  lemma {:induction false} RunKeeps(env: Env, s: State, actions: seq<Action>)
    requires Initial(s) && Run(env, s, actions).Some?
    ensures Inv(env, Run(env, s, actions).value)
  {
    hide Do;
    if actions != [] {
      hide Inv;
      RunKeeps(env, s, actions[..|actions| - 1]);
      DoKeeps(env, Run(env, s, actions[..|actions| - 1]).value, actions[|actions| - 1]);
    }
  }

  // ----- End to end -----

  /**
   The approval behind an execution: registered by this broker alone, arrived at the relay after
   that, and accepted for this prompt no later than `ttl` after the arrival.
   */
  ghost predicate ApprovedBefore(log: seq<Entry>, ttl: int, k: nat, id: string, prompt: string)
    requires k < |log| && log[k].Executed?
  {
    exists i, a, j :: 0 <= i < a < j < k
      && log[i] == Registered(log[k].b, id, prompt)
      && log[a].Arrived? && log[a].id == id
      && YesAt(log, j, id, prompt) && log[a].at <= log[j].at <= log[a].at + ttl
      && forall x :: 0 <= x < |log| && log[x].Registered? && log[x].id == id ==> x == i
  }

  /**
   In every run: when the runner is invoked, the audit start was recorded before, the project
   exists and its directory, if it has one, resolves to the same path as the request's. Either
   the argv is allowlisted in mode never or prompt, or the mode asks about it and the relay
   accepted an approval, within the configured time after the request arrived, of a prompt that
   this request registered under an ID of its own and that determines exactly this command.
   */
  lemma EndToEnd(env: Env, s: State, actions: seq<Action>, k: nat)
    requires Initial(s) && Run(env, s, actions).Some? && k < |Run(env, s, actions).value.log|
    requires Run(env, s, actions).value.log[k].Executed?
    ensures var log := Run(env, s, actions).value.log;
            var x := log[k];
            && (exists i :: 0 <= i < k && log[i] == AuditStart(x.b, x.req))
            && C.IndexOf(x.cfg.projects, x.req.project) < |x.cfg.projects|
            && var p := x.cfg.projects[C.IndexOf(x.cfg.projects, x.req.project)];
            && p.alias == x.req.project
            && (p.workingDir == "" || (x.req.workingDir != "" && env.dirs(p.workingDir).Some?
                                       && env.dirs(x.req.workingDir) == env.dirs(p.workingDir)))
            && match x.how
               case Permitted => x.req.argv in p.allow && p.approval in {C.ApprovalNever, C.ApprovalPrompt}
               case ByHuman(id) =>
                 && AskedAbout(p, x.req.argv)
                 && exists prompt :: ApprovedBefore(log, env.ttl, k, id, prompt) && ParsePrompt(prompt) == Some(x.req)
  {
    hide Run, PromptText, ParsePrompt, IsCommand, B.Decide, TableOk, RepliesOk, BrokersOk, ArrivalsOk, SentOk,
         C.IndexOf;
    RunKeeps(env, s, actions);
    var t := Run(env, s, actions).value;
    assert Justified(env, t.log, k);
    var x := t.log[k];
    StartedBefore(t.log, k, x.b, x.req);
    JudgedBy(x.cfg, x.req, env.dirs);
    if x.how.ByHuman? {
      var prompt := PromptText(x.req, env.wide);
      PromptRoundTrip(x.req, env.wide);
      YesBefore(env, t, k, x.how.id, prompt);
    }
  }

  /** The modes in which a human is asked about this argv. */
  predicate AskedAbout(p: C.Project, argv: seq<string>) {
    || p.approval == C.ApprovalAlways
    || (p.approval == C.ApprovalAllowlistedPrompt && argv in p.allow)
    || (p.approval == C.ApprovalPrompt && argv !in p.allow)
  }

  /** The verdicts that lead to an execution, in terms of the project's mode and allowlist. */
  lemma JudgedBy(cfg: C.Config, req: Command, dirs: B.Directories)
    requires C.ValidProjects(cfg.projects) && B.DryRun(cfg, req, dirs) != B.Deny
    ensures B.Admitted(cfg, req, dirs)
    ensures var p := cfg.projects[C.IndexOf(cfg.projects, req.project)];
            && (B.DryRun(cfg, req, dirs) == B.Allow <==>
                  req.argv in p.allow && p.approval in {C.ApprovalNever, C.ApprovalPrompt})
            && (B.DryRun(cfg, req, dirs) == B.Ask <==> AskedAbout(p, req.argv))
  {
    hide C.ValidProject, B.Decide;
    B.Matrix(cfg.projects[C.IndexOf(cfg.projects, req.project)], req.argv);
  }

  lemma StartedBefore(log: seq<Entry>, k: nat, b: nat, req: Command)
    requires k <= |log| && StartedIn(log[..k], b, req)
    ensures exists i :: 0 <= i < k && log[i] == AuditStart(b, req)
  {
    var i :| 0 <= i < |log[..k]| && log[..k][i] == AuditStart(b, req);
    assert log[i] == AuditStart(b, req);
  }

  lemma YesBefore(env: Env, s: State, k: nat, id: string, prompt: string)
    requires SentOk(s) && ArrivalsOk(env, s)
    requires k < |s.log| && s.log[k].Executed? && Yes(s.log[..k], s.log[k].b, id, prompt)
    ensures ApprovedBefore(s.log, env.ttl, k, id, prompt)
  {
    hide SentOk, ArrivalsOk;
    var log := s.log;
    var i, j :| 0 <= i < j < |log[..k]| && YesAt(log[..k], j, id, prompt)
                && log[..k][i] == Registered(log[k].b, id, prompt);
    assert log[i] == log[..k][i] && log[j] == log[..k][j];
    assert YesAt(log, j, id, prompt);
    OnlyRegistration(s, i);
    var a := ArrivalOf(env, s, i, j);
  }

  lemma OnlyRegistration(s: State, i: nat)
    requires SentOk(s) && i < |s.log| && s.log[i].Registered?
    ensures forall x :: 0 <= x < |s.log| && s.log[x].Registered? && s.log[x].id == s.log[i].id ==> x == i
  {
  }

  /** The arrival behind an accepted decision lies between the registration and the decision. */
  lemma ArrivalOf(env: Env, s: State, i: nat, j: nat) returns (a: nat)
    requires ArrivalsOk(env, s) && i < |s.log| && s.log[i].Registered?
    requires j < |s.log| && s.log[j].Accepted? && s.log[j].id == s.log[i].id
    requires forall x :: 0 <= x < |s.log| && s.log[x].Registered? && s.log[x].id == s.log[i].id ==> x == i
    ensures i < a < j && s.log[a].Arrived? && s.log[a].id == s.log[i].id
    ensures s.log[a].at <= s.log[j].at <= s.log[a].at + env.ttl
  {
    hide RegisteredIn;
    assert InWindow(s.log, env.ttl, j);
    a :| 0 <= a < |s.log| && Window(s.log, env.ttl, a, j);
    RegisteredBefore(s.log, a, s.sent[s.log[a].id].b, s.log[a].id, s.sent[s.log[a].id].prompt);
  }

  lemma RegisteredBefore(log: seq<Entry>, a: nat, b: nat, id: string, prompt: string)
    requires a <= |log| && RegisteredIn(log[..a], b, id, prompt)
    ensures exists x :: 0 <= x < a && log[x].Registered? && log[x].id == id
  {
    var x :| 0 <= x < |log[..a]| && log[..a][x] == Registered(b, id, prompt);
    assert log[x] == log[..a][x];
  }

  /** No request is executed twice. */
  lemma ExecutedOnce(env: Env, s: State, actions: seq<Action>, j: nat, k: nat)
    requires Initial(s) && Run(env, s, actions).Some?
    requires var log := Run(env, s, actions).value.log;
             j < |log| && k < |log| && log[j].Executed? && log[k].Executed? && log[j].b == log[k].b
    ensures j == k
  {
    hide Run, SentOk, TableOk, RepliesOk, BrokersOk, Justified;
    RunKeeps(env, s, actions);
  }

  /** What the runner is started with for an execution, given the token resolved for the project. */
  function SpecOf(cfg: C.Config, req: Command, token: string): Shell.RunSpec
    requires C.IndexOf(cfg.projects, req.project) < |cfg.projects|
  {
    Shell.RunSpec(cfg.projects[C.IndexOf(cfg.projects, req.project)].bwsProjectId, token, req.workingDir, req.argv)
  }

  /**
   What a human approved is what the shell runs: in every run, behind every execution cleared
   by a human stands an approved prompt such that the inner shell reads the runner's arguments
   as sudo's fixed prefix and the argv read from that prompt, unless an argument holds a NUL.
   */
  lemma ApprovedIsRun(env: Env, s: State, actions: seq<Action>, k: nat, token: string)
    requires Initial(s) && Run(env, s, actions).Some? && k < |Run(env, s, actions).value.log|
    requires Run(env, s, actions).value.log[k].Executed? && Run(env, s, actions).value.log[k].how.ByHuman?
    ensures var log := Run(env, s, actions).value.log;
            var x := log[k];
            && C.IndexOf(x.cfg.projects, x.req.project) < |x.cfg.projects|
            && exists prompt :: ApprovedBefore(log, env.ttl, k, x.how.id, prompt) && ParsePrompt(prompt).Some?
                 && ReadsAs(SpecOf(x.cfg, x.req, token), ParsePrompt(prompt).value.argv)
  {
    hide Run, ParsePrompt, ApprovedBefore, ReadsAs, C.IndexOf;
    EndToEnd(env, s, actions, k);
    var log := Run(env, s, actions).value.log;
    var x := log[k];
    var prompt :| ApprovedBefore(log, env.ttl, k, x.how.id, prompt) && ParsePrompt(prompt) == Some(x.req);
    SpecReads(SpecOf(x.cfg, x.req, token));
  }

  /** The inner shell reads what follows `--` as sudo's prefix and this argv, exactly if it holds no NUL. */
  predicate ReadsAs(spec: Shell.RunSpec, argv: seq<string>) {
    Shell.ShellWords(Shell.JoinSpaces(Shell.CommandArgs(spec)[5..])) == Some(Shell.Literals(Shell.SudoPrefix + argv))
    <==> Shell.NulFree(argv)
  }

  lemma SpecReads(spec: Shell.RunSpec)
    ensures ReadsAs(spec, spec.argv)
  {
    hide Shell.ShellWords, Shell.QuoteAll, Shell.Literals, Shell.NulFree, Shell.JoinSpaces;
    Shell.ArgumentsExact(spec);
  }
}
