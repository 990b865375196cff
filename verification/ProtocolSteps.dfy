/**
 The broker of the approval protocol is the code: what `TailscaleApprover.Approve` returns for
 any events and what `Broker.Run` makes of it are what the corresponding steps of
 `ApprovalProtocol` lead to, while everybody else goes on between them.

 A failed poll and an answer that is not recognized are no step, and the timeout is GiveUp.
 */
module ProtocolSteps {
  import opened Basics
  import opened ApprovalProtocol
  import A = Approver
  import B = Broker
  import C = Config
  import P = Prompt
  import R = RelayStore

  // ----- Runs in parts -----

  lemma {:induction false} RunConcat(env: Env, s: State, a: seq<Action>, b: seq<Action>)
    ensures Run(env, s, a + b) == match Run(env, s, a) case None => None case Some(mid) => Run(env, mid, b)
    decreases |b|
  {
    hide Do;
    if b == [] {
      assert a + b == a;
    } else {
      var front := b[..|b| - 1];
      assert (a + b)[..|a + b| - 1] == a + front;
      RunConcat(env, s, a, front);
    }
  }

  lemma RunOne(env: Env, s: State, a: Action)
    ensures Run(env, s, [a]) == Do(env, s, a)
  {
    hide Do;
    assert [a][..0] == [];
    assert Run(env, s, []) == Some(s);
  }

  /** The broker that takes this step, if any does. */
  function Actor(a: Action): Option<nat> {
    match a
    case Begin(b, _, _) => Some(b)
    case Judge(b) => Some(b)
    case Register(b, _) => Some(b)
    case Receive(b, _) => Some(b)
    case GiveUp(b) => Some(b)
    case Execute(b) => Some(b)
    case _ => None
  }

  predicate ByOthers(actions: seq<Action>, b: nat) {
    forall i :: 0 <= i < |actions| ==> Actor(actions[i]) != Some(b)
  }

  lemma OtherStep(env: Env, s: State, a: Action, b: nat)
    requires b in s.brokers && Actor(a) != Some(b) && Do(env, s, a).Some?
    ensures b in Do(env, s, a).value.brokers && Do(env, s, a).value.brokers[b] == s.brokers[b]
  {
    hide B.DryRun;
  }

  lemma {:induction false} OthersRun(env: Env, s: State, actions: seq<Action>, b: nat)
    requires b in s.brokers && ByOthers(actions, b) && Run(env, s, actions).Some?
    ensures b in Run(env, s, actions).value.brokers && Run(env, s, actions).value.brokers[b] == s.brokers[b]
  {
    hide Do, Actor;
    if actions != [] {
      var front := actions[..|actions| - 1];
      OthersRun(env, s, front, b);
      OtherStep(env, Run(env, s, front).value, actions[|actions| - 1], b);
    }
  }

  // ----- The polling loop -----

  /** What others do before an event of the loop, and the event. */
  datatype Round = Round(others: seq<Action>, event: A.Event)

  function EventsOf(rounds: seq<Round>): seq<A.Event> {
    if rounds == [] then [] else [rounds[0].event] + EventsOf(rounds[1..])
  }

  function StepsOf(b: nat, event: A.Event): seq<Action> {
    match event
    case Done => [GiveUp(b)]
    case Tick(Failure(_)) => []
    case Tick(Answer(RelayPending)) => [Receive(b, R.Pending)]
    case Tick(Answer(RelayApproved)) => [Receive(b, R.Approved)]
    case Tick(Answer(RelayDenied)) => [Receive(b, R.Denied)]
    case Tick(Answer(RelayExpired)) => [Receive(b, R.Expired)]
    case Tick(Answer(Unrecognized)) => []
  }

  /** The loop up to the event that ends it. */
  function LoopActions(b: nat, rounds: seq<Round>): seq<Action> {
    if rounds == [] then []
    else rounds[0].others + (StepsOf(b, rounds[0].event)
                             + (if A.Decisive(rounds[0].event) then [] else LoopActions(b, rounds[1..])))
  }

  /** The events end with the timeout at the latest, and the others are others. */
  predicate Rounds(rounds: seq<Round>, b: nat) {
    && rounds != [] && rounds[|rounds| - 1].event.Done?
    && forall i :: 0 <= i < |rounds| ==> ByOthers(rounds[i].others, b)
  }

  /** The broker has stopped waiting, cleared exactly if `yes`. */
  predicate Answered(w: Broker, w': Broker, id: string, yes: bool) {
    w' == w.(phase := if yes then Clear(ByHuman(id)) else Over)
  }

  lemma EventStep(env: Env, s: State, b: nat, id: string, prompt: string, event: A.Event)
    requires b in s.brokers && s.brokers[b].phase == Waiting(id, prompt) && Run(env, s, StepsOf(b, event)).Some?
    ensures var s' := Run(env, s, StepsOf(b, event)).value;
            && b in s'.brokers
            && (A.Decisive(event) ==>
                  Answered(s.brokers[b], s'.brokers[b], id, event == A.Tick(A.Answer(A.RelayApproved))))
            && (!A.Decisive(event) ==> s'.brokers[b] == s.brokers[b])
  {
    if StepsOf(b, event) != [] { RunOne(env, s, StepsOf(b, event)[0]); }
    hide B.DryRun;
  }

  lemma FirstEvent(rounds: seq<Round>)
    requires rounds != []
    ensures A.SaidYes(true, true, EventsOf(rounds))
            <==> (if A.Decisive(rounds[0].event) then rounds[0].event == A.Tick(A.Answer(A.RelayApproved))
                  else A.SaidYes(true, true, EventsOf(rounds[1..])))
  {
    var events := EventsOf(rounds);
    assert events[0] == rounds[0].event && events[1..] == EventsOf(rounds[1..]);
  }

  /** The protocol's steps for the loop end as the loop does. */
  lemma {:induction false} LoopDecides(env: Env, s: State, b: nat, id: string, prompt: string, rounds: seq<Round>)
    requires b in s.brokers && s.brokers[b].phase == Waiting(id, prompt) && Rounds(rounds, b)
    requires Run(env, s, LoopActions(b, rounds)).Some?
    ensures var s' := Run(env, s, LoopActions(b, rounds)).value;
            && b in s'.brokers
            && Answered(s.brokers[b], s'.brokers[b], id, A.SaidYes(true, true, EventsOf(rounds)))
    decreases |rounds|
  {
    hide Do, ByOthers, A.Decisive, StepsOf, Run, A.SaidYes, EventsOf;
    var first, steps := rounds[0], StepsOf(b, rounds[0].event);
    var more := if A.Decisive(first.event) then [] else LoopActions(b, rounds[1..]);
    RunConcat(env, s, first.others, steps + more);
    OthersRun(env, s, first.others, b);
    var s1 := Run(env, s, first.others).value;
    RunConcat(env, s1, steps, more);
    EventStep(env, s1, b, id, prompt, first.event);
    var s2 := Run(env, s1, steps).value;
    FirstEvent(rounds);
    if A.Decisive(first.event) {
      NoSteps(env, s2);
    } else {
      DoneEnds(first.event);
      LoopDecides(env, s2, b, id, prompt, rounds[1..]);
    }
  }

  lemma NoSteps(env: Env, s: State)
    ensures Run(env, s, []) == Some(s)
  {
  }

  lemma DoneEnds(event: A.Event)
    ensures event.Done? ==> A.Decisive(event)
  {
  }

  /** A recognized answer is one that the relay has given for this request. */
  predicate Given(s: State, id: string, event: A.Event) {
    match event
    case Tick(Answer(RelayPending)) => (id, R.Pending) in s.replies
    case Tick(Answer(RelayApproved)) => (id, R.Approved) in s.replies
    case Tick(Answer(RelayDenied)) => (id, R.Denied) in s.replies
    case Tick(Answer(RelayExpired)) => (id, R.Expired) in s.replies
    case _ => true
  }

  lemma EventPossible(env: Env, s: State, b: nat, id: string, prompt: string, event: A.Event)
    requires b in s.brokers && s.brokers[b].phase == Waiting(id, prompt) && Given(s, id, event)
    ensures Run(env, s, StepsOf(b, event)).Some?
    ensures !A.Decisive(event) ==> Run(env, s, StepsOf(b, event)) == Some(s)
  {
    if StepsOf(b, event) != [] { RunOne(env, s, StepsOf(b, event)[0]); }
    hide B.DryRun;
  }

  /** The steps are possible whenever the answers are those of the relay. */
  lemma {:induction false} LoopPossible(env: Env, s: State, b: nat, id: string, prompt: string, rounds: seq<Round>)
    requires b in s.brokers && s.brokers[b].phase == Waiting(id, prompt)
    requires forall i :: 0 <= i < |rounds| ==> rounds[i].others == [] && Given(s, id, rounds[i].event)
    ensures Run(env, s, LoopActions(b, rounds)).Some?
    decreases |rounds|
  {
    hide Do, A.Decisive, StepsOf, Given, Run;
    NoSteps(env, s);
    if rounds != [] {
      var first, steps := rounds[0], StepsOf(b, rounds[0].event);
      var more := if A.Decisive(first.event) then [] else LoopActions(b, rounds[1..]);
      assert first.others + (steps + more) == steps + more;
      RunConcat(env, s, steps, more);
      EventPossible(env, s, b, id, prompt, first.event);
      NoSteps(env, Run(env, s, steps).value);
      if !A.Decisive(first.event) { LoopPossible(env, s, b, id, prompt, rounds[1..]); }
    }
  }

  // ----- Approve and Run -----

  /** Approve: no ID, a registration that is not confirmed, or the loop. */
  function ApproveActions(b: nat, id: string, idOk: bool, registered: bool, rounds: seq<Round>): seq<Action> {
    if !idOk then [GiveUp(b)]
    else if !registered then [Register(b, id)] + [GiveUp(b)]
    else [Register(b, id)] + LoopActions(b, rounds)
  }

  lemma RegisterIs(env: Env, s: State, b: nat, id: string)
    requires b in s.brokers && s.brokers[b].phase.Asking? && Do(env, s, Register(b, id)).Some?
    ensures var s' := Do(env, s, Register(b, id)).value;
            b in s'.brokers && s'.brokers[b] == s.brokers[b].(phase := Waiting(id, s.brokers[b].phase.prompt))
  {
  }

  lemma GiveUpIs(env: Env, s: State, b: nat)
    requires b in s.brokers
    ensures Do(env, s, GiveUp(b)) == Some(Move(s, b, Over))
  {
  }

  /** Every outcome of Approve is what its steps in the protocol lead to: cleared exactly if it approves. */
  lemma ApproveIsSteps(env: Env, s: State, b: nat, id: string, idOk: bool, registered: bool, rounds: seq<Round>)
    requires b in s.brokers && s.brokers[b].phase.Asking? && Rounds(rounds, b)
    requires Run(env, s, ApproveActions(b, id, idOk, registered, rounds)).Some?
    ensures var s' := Run(env, s, ApproveActions(b, id, idOk, registered, rounds)).value;
            && b in s'.brokers
            && Answered(s.brokers[b], s'.brokers[b], id, A.SaidYes(idOk, registered, EventsOf(rounds)))
  {
    hide Do, Run, LoopActions, Rounds, EventsOf, A.FirstDecisive;
    if !idOk {
      RunOne(env, s, GiveUp(b));
      GiveUpIs(env, s, b);
    } else {
      var rest := if registered then LoopActions(b, rounds) else [GiveUp(b)];
      RunConcat(env, s, [Register(b, id)], rest);
      RunOne(env, s, Register(b, id));
      RegisterIs(env, s, b, id);
      var s1 := Do(env, s, Register(b, id)).value;
      if registered {
        LoopDecides(env, s1, b, id, s.brokers[b].phase.prompt, rounds);
      } else {
        RunOne(env, s1, GiveUp(b));
        GiveUpIs(env, s1, b);
      }
    }
  }

  lemma JudgeIs(env: Env, s: State, b: nat)
    requires b in s.brokers && s.brokers[b].phase.Begun?
    ensures var w := s.brokers[b];
            && Do(env, s, Judge(b)).Some? && b in Do(env, s, Judge(b)).value.brokers
            && var w' := Do(env, s, Judge(b)).value.brokers[b];
               match B.DryRun(w.cfg, w.req, env.dirs)
               case Deny => w' == w.(phase := Over)
               case Allow => w' == w.(phase := Clear(Permitted))
               case Ask => w' == w.(phase := w'.phase) && w'.phase.Asking?
  {
    hide B.DryRun;
  }

  /** Run up to the point where the command may be executed. */
  function RunActions(verdict: B.Verdict, b: nat, id: string, idOk: bool, registered: bool,
                      rounds: seq<Round>): seq<Action>
  {
    [Judge(b)] + (if verdict == B.Ask then ApproveActions(b, id, idOk, registered, rounds) else [])
  }

  /**
   Broker.Run and the protocol agree: with the answers that Approve gives, Run gets as far as
   resolving the token exactly if the protocol's steps for it leave the broker free to execute.
   */
  lemma RunIsSteps(env: Env, s: State, b: nat, answers: B.Answers, id: string, idOk: bool, registered: bool,
                   rounds: seq<Round>)
    requires b in s.brokers && s.brokers[b].phase.Begun? && Rounds(rounds, b)
    requires B.Approves(answers) <==> A.SaidYes(idOk, registered, EventsOf(rounds))
    requires var w := s.brokers[b];
             Run(env, s, RunActions(B.DryRun(w.cfg, w.req, env.dirs), b, id, idOk, registered, rounds)).Some?
    ensures var w := s.brokers[b];
            var verdict := B.DryRun(w.cfg, w.req, env.dirs);
            var s' := Run(env, s, RunActions(verdict, b, id, idOk, registered, rounds)).value;
            && b in s'.brokers
            && s'.brokers[b] == w.(phase := if !B.Cleared(verdict, answers) then Over
                                            else if verdict == B.Ask then Clear(ByHuman(id)) else Clear(Permitted))
  {
    hide Do, Run, B.DryRun, A.SaidYes, Rounds, ApproveActions, EventsOf;
    var w := s.brokers[b];
    var verdict := B.DryRun(w.cfg, w.req, env.dirs);
    var rest := if verdict == B.Ask then ApproveActions(b, id, idOk, registered, rounds) else [];
    RunConcat(env, s, [Judge(b)], rest);
    RunOne(env, s, Judge(b));
    JudgeIs(env, s, b);
    var s1 := Do(env, s, Judge(b)).value;
    if verdict == B.Ask {
      ApproveIsSteps(env, s1, b, id, idOk, registered, rounds);
    } else {
      NoSteps(env, s1);
    }
  }

  // ----- A request that is approved runs -----

  /** The steps of one approved request with nobody else at work. */
  function WholeActions(b: nat, cfg: C.Config, req: P.Command, id: string): seq<Action> {
    [Begin(b, cfg, req), Judge(b), Register(b, id), Arrive(id), Human(id, true), Poll(id), Receive(b, R.Approved),
     Execute(b)]
  }

  lemma RunFirst(env: Env, s: State, a: Action, rest: seq<Action>)
    ensures Run(env, s, [a] + rest) == match Do(env, s, a) case None => None case Some(next) => Run(env, next, rest)
  {
    hide Do;
    RunConcat(env, s, [a], rest);
    RunOne(env, s, a);
  }

  /** The state in which the broker has registered its request. */
  function Asked(env: Env, s: State, b: nat, cfg: C.Config, req: P.Command, id: string): State
    requires P.IsCommand(req)
  {
    var prompt := P.PromptText(req, env.wide);
    s.(brokers := s.brokers[b := Broker(cfg, req, Waiting(id, prompt))], sent := s.sent[id := Sent(b, prompt)],
       log := s.log + [AuditStart(b, req), Registered(b, id, prompt)])
  }

  lemma AskedSteps(env: Env, s: State, b: nat, cfg: C.Config, req: P.Command, id: string)
    requires P.IsCommand(req) && C.ValidProjects(cfg.projects) && b !in s.brokers && id !in s.sent
    requires B.DryRun(cfg, req, env.dirs) == B.Ask
    ensures var s1 := Do(env, s, Begin(b, cfg, req));
            && s1.Some?
            && var s2 := Do(env, s1.value, Judge(b));
               s2.Some? && Do(env, s2.value, Register(b, id)) == Some(Asked(env, s, b, cfg, req, id))
  {
    hide P.IsCommand, C.ValidProjects, B.DryRun, P.PromptText;
    var prompt := P.PromptText(req, env.wide);
    var w: map<nat, Broker> := s.brokers[b := Broker(cfg, req, Begun)];
    var w': map<nat, Broker> := w[b := Broker(cfg, req, Asking(prompt))];
    assert w'[b := Broker(cfg, req, Waiting(id, prompt))] == s.brokers[b := Broker(cfg, req, Waiting(id, prompt))];
    assert s.log + [AuditStart(b, req)] + [Registered(b, id, prompt)]
           == s.log + [AuditStart(b, req), Registered(b, id, prompt)];
  }

  /** The relay's part: the request arrives, the human approves it, the status is polled. */
  lemma RelaySteps(env: Env, s: State, b: nat, id: string, prompt: string)
    returns (s1: State, s2: State, s3: State)
    requires id in s.sent && s.sent[id] == Sent(b, prompt) && id !in s.table && |s.table| < env.limit && env.ttl >= 0
    ensures Do(env, s, Arrive(id)) == Some(s1) && Do(env, s1, Human(id, true)) == Some(s2)
    ensures Do(env, s2, Poll(id)) == Some(s3)
    ensures s3.brokers == s.brokers && (id, R.Approved) in s3.replies
    ensures s3.log == s.log + [Arrived(id, s.clock), Accepted(id, prompt, true, s.clock, s.clock + env.ttl)]
  {
    var r := R.Request(id, prompt, R.Pending, s.clock, s.clock + env.ttl);
    s1 := Logged(s.(table := s.table[id := r]), Arrived(id, s.clock));
    s2 := Logged(s1.(table := s1.table[id := r.(status := R.Approved)]),
                 Accepted(id, prompt, true, s.clock, s.clock + env.ttl));
    s3 := s2.(replies := s2.replies + {(id, R.Approved)});
  }

  lemma BrokerSteps(env: Env, s: State, b: nat, id: string, prompt: string) returns (s1: State, s2: State)
    requires b in s.brokers && s.brokers[b].phase == Waiting(id, prompt) && (id, R.Approved) in s.replies
    ensures Do(env, s, Receive(b, R.Approved)) == Some(s1) && Do(env, s1, Execute(b)) == Some(s2)
    ensures s2.log == s.log + [Executed(b, s.brokers[b].cfg, s.brokers[b].req, ByHuman(id))]
  {
    s1 := Move(s, b, Clear(ByHuman(id)));
    s2 := Logged(Move(s1, b, Over), Executed(b, s.brokers[b].cfg, s.brokers[b].req, ByHuman(id)));
  }

  lemma AnsweredSteps(env: Env, s: State, b: nat, id: string, prompt: string)
    requires b in s.brokers && s.brokers[b].phase == Waiting(id, prompt)
    requires id in s.sent && s.sent[id] == Sent(b, prompt)
    requires id !in s.table && |s.table| < env.limit && env.ttl >= 0
    ensures var t := Run(env, s, [Arrive(id), Human(id, true), Poll(id), Receive(b, R.Approved), Execute(b)]);
            && t.Some?
            && t.value.log == s.log + [Arrived(id, s.clock), Accepted(id, prompt, true, s.clock, s.clock + env.ttl),
                                       Executed(b, s.brokers[b].cfg, s.brokers[b].req, ByHuman(id))]
  {
    hide Run, Do;
    var s1, s2, s3 := RelaySteps(env, s, b, id, prompt);
    var s4, s5 := BrokerSteps(env, s3, b, id, prompt);
    FiveSteps(env, s, s1, s2, s3, s4, s5, Arrive(id), Human(id, true), Poll(id), Receive(b, R.Approved), Execute(b));
  }

  lemma FiveSteps(env: Env, s: State, s1: State, s2: State, s3: State, s4: State, s5: State,
                  a1: Action, a2: Action, a3: Action, a4: Action, a5: Action)
    requires Do(env, s, a1) == Some(s1) && Do(env, s1, a2) == Some(s2) && Do(env, s2, a3) == Some(s3)
    requires Do(env, s3, a4) == Some(s4) && Do(env, s4, a5) == Some(s5)
    ensures Run(env, s, [a1, a2, a3, a4, a5]) == Some(s5)
  {
    hide Do, Run;
    assert [a1, a2, a3, a4, a5] == [a1] + ([a2] + ([a3] + ([a4] + [a5])));
    RunFirst(env, s, a1, [a2] + ([a3] + ([a4] + [a5])));
    RunFirst(env, s1, a2, [a3] + ([a4] + [a5]));
    RunFirst(env, s2, a3, [a4] + [a5]);
    RunFirst(env, s3, a4, [a5]);
    RunOne(env, s4, a5);
  }

  /** From any state with room on the relay, a request that is asked about and approved is executed. */
  lemma ApprovedRuns(env: Env, s: State, b: nat, cfg: C.Config, req: P.Command, id: string)
    requires P.IsCommand(req) && C.ValidProjects(cfg.projects) && b !in s.brokers
    requires id !in s.sent && id !in s.table && |s.table| < env.limit && env.ttl >= 0
    requires B.DryRun(cfg, req, env.dirs) == B.Ask
    ensures var t := Run(env, s, WholeActions(b, cfg, req, id));
            && t.Some? && |t.value.log| == |s.log| + 5
            && t.value.log[|s.log| + 4] == Executed(b, cfg, req, ByHuman(id))
  {
    hide Do, Run, P.IsCommand, C.ValidProjects, B.DryRun, P.PromptText;
    AskedSteps(env, s, b, cfg, req, id);
    var s1 := Do(env, s, Begin(b, cfg, req)).value;
    var s2 := Do(env, s1, Judge(b)).value;
    var s3 := Asked(env, s, b, cfg, req, id);
    var rest := [Arrive(id), Human(id, true), Poll(id), Receive(b, R.Approved), Execute(b)];
    assert WholeActions(b, cfg, req, id) == [Begin(b, cfg, req)] + ([Judge(b)] + ([Register(b, id)] + rest));
    RunFirst(env, s, Begin(b, cfg, req), [Judge(b)] + ([Register(b, id)] + rest));
    RunFirst(env, s1, Judge(b), [Register(b, id)] + rest);
    RunFirst(env, s2, Register(b, id), rest);
    AnsweredSteps(env, s3, b, id, P.PromptText(req, env.wide));
  }
}
