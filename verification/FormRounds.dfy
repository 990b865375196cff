/**
 What the web server does let through: a submission reaches its handler exactly when its token
 is in time and fits, a commit reaches the editor exactly when its change needs no confirmation
 or has one, and a whole round from the page to the editor's call is possible from any state.
 */
module FormRounds {
  import opened Basics
  import opened WebTokens
  import opened WebMachine
  import C = Config
  import Controls

  /** The token is known and in time, issued to this login for this action, alias and policy. */
  predicate Fits(f: C.Foreign, s: State, token: string, action: string, alias: string) {
    && token in s.tokens && s.clock < s.tokens[token].expires
    && s.tokens[token].action == action && s.tokens[token].login == s.login
    && s.tokens[token].target in {"", alias} && s.tokens[token].revision in {"", f.digest(s.policy)}
  }

  lemma SubmitStep(f: C.Foreign, s: State, r: nat, token: string, action: string, alias: string) returns (t: State)
    requires r !in s.requests && token !in s.hidden
    ensures Do(f, s, Submit(r, token, action, alias)) == Some(t)
    ensures t == s.(tokens := t.tokens, used := s.used + {token}, requests := t.requests, log := t.log)
    ensures t.requests == s.requests[r := t.requests[r]]
    ensures t.requests[r].action == action && t.requests[r].alias == alias
    ensures t.log == s.log + [Submitted(r, token, t.requests[r].phase.Took?)]
    ensures forall k :: k in t.tokens <==> k in s.tokens && k != token && s.clock < s.tokens[k].expires
    ensures forall k :: k in t.tokens ==> t.tokens[k] == s.tokens[k]
    ensures var known := token in s.tokens && s.clock < s.tokens[token].expires
                         && s.tokens[token].action == action && s.tokens[token].login == s.login;
            t.requests[r].phase == if known then Took(token, s.tokens[token], s.clock) else Over
  {
    t := Do(f, s, Submit(r, token, action, alias)).value;
  }

  lemma CheckStep(f: C.Foreign, s: State, r: nat)
    requires r in s.requests && s.requests[r].phase.Took?
    ensures var q := s.requests[r];
            var e := q.phase.entry;
            Do(f, s, Check(r)) ==
            if e.target in {"", q.alias} && e.revision in {"", f.digest(s.policy)}
            then Some(Logged(Move(s, r, Handling(q.phase.token, e)),
                             Invoked(r, q.phase.token, q.action, q.alias, q.phase.at, f.digest(s.policy))))
            else Some(Move(s, r, Over))
  {
  }

  lemma NothingTaken(f: C.Foreign, s: State, r: nat)
    requires r in s.requests && s.requests[r].phase.Over?
    ensures Do(f, s, Check(r)) == None
  {
  }

  /** The handler is invoked if and only if the token fits; either way the token is gone. */
  lemma ReachesHandler(f: C.Foreign, s: State, r: nat, token: string, action: string, alias: string) returns (t: State)
    requires r !in s.requests && token !in s.hidden
    ensures Do(f, s, Submit(r, token, action, alias)) == Some(t) && t.requests.Keys == s.requests.Keys + {r}
    ensures t.requests[r].action == action && t.requests[r].alias == alias
    ensures t.log == s.log + [Submitted(r, token, t.requests[r].phase.Took?)]
    ensures t.policy == s.policy && t.clock == s.clock && t.login == s.login && t.issued == s.issued
    ensures t.used == s.used + {token} && t.hidden == s.hidden
    ensures forall k :: k in t.tokens <==> k in s.tokens && k != token && s.clock < s.tokens[k].expires
    ensures forall k :: k in t.tokens ==> t.tokens[k] == s.tokens[k]
    ensures Fits(f, s, token, action, alias) <==>
              Do(f, t, Check(r)).Some? && r in Do(f, t, Check(r)).value.requests
              && Do(f, t, Check(r)).value.requests[r].phase.Handling?
    ensures Fits(f, s, token, action, alias) ==>
              Do(f, t, Check(r)) == Some(Logged(Move(t, r, Handling(token, s.tokens[token])),
                                                Invoked(r, token, action, alias, s.clock, f.digest(s.policy))))
  {
    hide Do;
    t := SubmitStep(f, s, r, token, action, alias);
    if t.requests[r].phase.Took? { CheckStep(f, t, r); } else { NothingTaken(f, t, r); }
  }

  /** commit calls the editor if and only if a change was reviewed that does not widen or is confirmed. */
  lemma ReachesEditor(f: C.Foreign, s: State, r: nat, confirm: bool)
    requires r in s.requests && s.requests[r].phase.Handling? && s.requests[r].action == CommitAction
    ensures var e := s.requests[r].phase.entry;
            var t := Do(f, s, Commit(r, confirm));
            && t.Some?
            && (|t.value.log| > |s.log| <==> e.change.Some? && (confirm || !e.change.value.widen))
            && (|t.value.log| > |s.log| ==>
                  t.value.log == s.log + [Called(s.requests[r].phase.token, e.change.value, e.revision, confirm,
                                                 s.policy)])
  {
  }

  // ----- A whole round -----

  /** A page, its form, the review and the commit, with nobody else at work. */
  function RoundActions(r: nat, q: nat, page: string, commit: string, alias: string, kind: Controls.Kind,
                        form: Controls.Form, offered: bool, confirm: bool): seq<Action> {
    [Page(page, ActionOf(kind), alias), Submit(r, page, ActionOf(kind), alias), Check(r), Look(r, kind, form, offered),
     Issue(r, commit), Attach(r), Submit(q, commit, CommitAction, alias), Check(q), Commit(q, confirm)]
  }

  lemma PageStep(f: C.Foreign, s: State, page: string, kind: Controls.Kind, alias: string) returns (t: State)
    requires page !in s.issued && page !in s.used && |Pruned(s.tokens, s.clock)| < MaxTokens
    ensures Do(f, s, Page(page, ActionOf(kind), alias)) == Some(t)
    ensures t == s.(tokens := t.tokens, issued := t.issued)
    ensures t.tokens == Pruned(s.tokens, s.clock)[page := t.tokens[page]]
    ensures t.issued == s.issued[page := t.tokens[page]]
    ensures t.tokens[page] == FormToken(ActionOf(kind), s.login, f.digest(s.policy), alias, s.clock + Lifetime, None)
  {
    t := Do(f, s, Page(page, ActionOf(kind), alias)).value;
  }

  lemma LookStep(f: C.Foreign, s: State, r: nat, kind: Controls.Kind, form: Controls.Form, offered: bool)
    requires r in s.requests && s.requests[r].phase.Handling? && s.requests[r].action == ActionOf(kind)
    requires s.requests[r].alias == form.alias && ChangeOf(f, Review(kind, form, offered, s.policy)).Some?
    ensures Do(f, s, Look(r, kind, form, offered))
            == Some(Move(s, r, Looked(s.requests[r].phase.token, s.requests[r].phase.entry,
                                      Review(kind, form, offered, s.policy))))
  {
    hide ChangeOf;
  }

  lemma IssueStep(f: C.Foreign, s: State, r: nat, commit: string) returns (t: State)
    requires r in s.requests && s.requests[r].phase.Looked?
    requires s.requests[r].phase.review.policy == s.policy
    requires s.requests[r].phase.entry.revision == f.digest(s.policy)
    requires ChangeOf(f, s.requests[r].phase.review).Some?
    requires commit !in s.issued && commit !in s.used && |Pruned(s.tokens, s.clock)| < MaxTokens
    ensures var v := s.requests[r].phase.review;
            var change := ChangeOf(f, v).value;
            && Do(f, s, Issue(r, commit)) == Some(t) && t.policy == s.policy && t.clock == s.clock && t.login == s.login
            && t.requests == s.requests[r := s.requests[r].(phase := Attaching(commit, change))]
            && t.hidden == s.hidden + {commit} && t.log == s.log + [Reviewed(commit, v)]
            && commit in t.tokens && commit in t.issued && t.issued[commit] == t.tokens[commit]
            && t.tokens[commit]
               == FormToken(CommitAction, s.login, f.digest(s.policy), change.alias, s.clock + Lifetime, None)
  {
    hide ChangeOf, Pruned;
    t := Do(f, s, Issue(r, commit)).value;
  }

  lemma AttachStep(f: C.Foreign, s: State, r: nat) returns (t: State)
    requires r in s.requests && s.requests[r].phase.Attaching?
    requires var token := s.requests[r].phase.token;
             token in s.issued && token in s.tokens && s.clock < s.issued[token].expires
    ensures var p := s.requests[r].phase;
            && Do(f, s, Attach(r)) == Some(t)
            && t == s.(tokens := s.tokens[p.token := s.tokens[p.token].(change := Some(p.change))],
                       hidden := s.hidden - {p.token}, requests := s.requests[r := s.requests[r].(phase := Over)])
  {
    t := Do(f, s, Attach(r)).value;
  }

  lemma ReviewSteps(f: C.Foreign, s: State, r: nat, kind: Controls.Kind, form: Controls.Form, offered: bool,
                    commit: string) returns (s1: State, s2: State, s3: State)
    requires r in s.requests && s.requests[r].phase.Handling? && s.requests[r].action == ActionOf(kind)
    requires s.requests[r].alias == form.alias && s.requests[r].phase.entry.revision == f.digest(s.policy)
    requires commit !in s.issued && commit !in s.used && commit !in s.hidden
    requires |Pruned(s.tokens, s.clock)| < MaxTokens
    requires ChangeOf(f, Review(kind, form, offered, s.policy)).Some?
    ensures Do(f, s, Look(r, kind, form, offered)) == Some(s1) && Do(f, s1, Issue(r, commit)) == Some(s2)
    ensures Do(f, s2, Attach(r)) == Some(s3)
    ensures var v := Review(kind, form, offered, s.policy);
            && s3.policy == s.policy && s3.clock == s.clock && s3.login == s.login
            && s3.requests.Keys == s.requests.Keys && s3.hidden == s.hidden
            && s3.log == s.log + [Reviewed(commit, v)] && commit in s3.tokens
            && s3.tokens[commit] == FormToken(CommitAction, s.login, f.digest(s.policy), ChangeOf(f, v).value.alias,
                                              s.clock + Lifetime, ChangeOf(f, v))
  {
    hide ChangeOf, Pruned, Do;
    var v := Review(kind, form, offered, s.policy);
    LookStep(f, s, r, kind, form, offered);
    s1 := Move(s, r, Looked(s.requests[r].phase.token, s.requests[r].phase.entry, v));
    s2 := IssueStep(f, s1, r, commit);
    s3 := AttachStep(f, s2, r);
    assert s3.hidden == s.hidden;
  }

  lemma RunThen(f: C.Foreign, s: State, actions: seq<Action>, t: State, a: Action, u: State)
    requires Run(f, s, actions) == Some(t) && Do(f, t, a) == Some(u)
    ensures Run(f, s, actions + [a]) == Some(u)
  {
    hide Do;
    assert (actions + [a])[..|actions|] == actions;
  }

  lemma ThreeMore(f: C.Foreign, s: State, actions: seq<Action>, t: State, a1: Action, s1: State, a2: Action, s2: State,
                  a3: Action, s3: State)
    requires Run(f, s, actions) == Some(t)
    requires Do(f, t, a1) == Some(s1) && Do(f, s1, a2) == Some(s2) && Do(f, s2, a3) == Some(s3)
    ensures Run(f, s, actions + [a1, a2, a3]) == Some(s3)
  {
    hide Do, Run;
    RunThen(f, s, actions, t, a1, s1);
    RunThen(f, s, actions + [a1], s1, a2, s2);
    RunThen(f, s, actions + [a1] + [a2], s2, a3, s3);
    assert actions + [a1] + [a2] + [a3] == actions + [a1, a2, a3];
  }

  /** The page's token makes room again when it is submitted. */
  lemma RoomAgain(s: State, t: State)
    requires forall k :: k in t.tokens ==> k in Pruned(s.tokens, s.clock)
    ensures |Pruned(t.tokens, t.clock)| <= |Pruned(s.tokens, s.clock)|
  {
    PrunedCount(t.tokens, t.clock);
    MapCount(t.tokens);
    MapCount(Pruned(s.tokens, s.clock));
    SubsetCount(t.tokens.Keys, Pruned(s.tokens, s.clock).Keys);
  }

  /** A page is opened and its form submitted. */
  lemma FormSteps(f: C.Foreign, s: State, r: nat, page: string, kind: Controls.Kind, alias: string)
    returns (s1: State, s2: State, s3: State)
    requires r !in s.requests && page !in s.issued && page !in s.used && page !in s.hidden
    requires |Pruned(s.tokens, s.clock)| < MaxTokens
    ensures Do(f, s, Page(page, ActionOf(kind), alias)) == Some(s1)
    ensures Do(f, s1, Submit(r, page, ActionOf(kind), alias)) == Some(s2) && Do(f, s2, Check(r)) == Some(s3)
    ensures s3.requests.Keys == s.requests.Keys + {r} && s3.requests[r].phase.Handling?
    ensures s3.requests[r].action == ActionOf(kind) && s3.requests[r].alias == alias
    ensures s3.requests[r].phase.entry.revision == f.digest(s.policy)
    ensures s3.policy == s.policy && s3.clock == s.clock && s3.login == s.login && s3.hidden == s.hidden
    ensures s3.issued.Keys == s.issued.Keys + {page} && s3.used == s.used + {page}
    ensures |Pruned(s3.tokens, s3.clock)| < MaxTokens
    ensures |s3.log| == |s.log| + 2 && s3.log[..|s.log|] == s.log
  {
    hide Do, Pruned;
    s1 := PageStep(f, s, page, kind, alias);
    assert Fits(f, s1, page, ActionOf(kind), alias);
    s2 := ReachesHandler(f, s1, r, page, ActionOf(kind), alias);
    s3 := Do(f, s2, Check(r)).value;
    RoomAgain(s, s3);
  }

  /** A commit form is submitted and its change goes to the editor. */
  lemma CommitSteps(f: C.Foreign, s: State, q: nat, commit: string, alias: string, change: Controls.Change,
                    confirm: bool) returns (s1: State, s2: State, s3: State)
    requires q !in s.requests && commit !in s.hidden && Fits(f, s, commit, CommitAction, alias)
    requires s.tokens[commit].change == Some(change) && s.tokens[commit].revision == f.digest(s.policy)
    requires confirm || !change.widen
    ensures Do(f, s, Submit(q, commit, CommitAction, alias)) == Some(s1) && Do(f, s1, Check(q)) == Some(s2)
    ensures Do(f, s2, Commit(q, confirm)) == Some(s3) && |s3.log| == |s.log| + 3 && s3.log[..|s.log|] == s.log
    ensures s3.log[|s.log| + 2] == Called(commit, change, f.digest(s.policy), confirm, s.policy)
  {
    hide Do, Fits;
    s1 := ReachesHandler(f, s, q, commit, CommitAction, alias);
    s2 := Do(f, s1, Check(q)).value;
    ReachesEditor(f, s2, q, confirm);
    s3 := Do(f, s2, Commit(q, confirm)).value;
  }

  lemma ChangeFits(f: C.Foreign, v: Review)
    requires ChangeOf(f, v).Some?
    ensures ChangeOf(f, v).value.alias == v.form.alias
  {
  }

  lemma LogGrows(a: seq<Entry>, b: seq<Entry>, c: seq<Entry>, d: seq<Entry>)
    requires |a| <= |b| <= |c| <= |d| && b[..|a|] == a && c[..|b|] == b && d[..|c|] == c
    ensures d[..|a|] == a
  {
  }

  lemma RunNone(f: C.Foreign, s: State)
    ensures Run(f, s, []) == Some(s)
  {
  }

  lemma NineSteps(f: C.Foreign, s: State, a1: Action, s1: State, a2: Action, s2: State, a3: Action, s3: State,
                  a4: Action, s4: State, a5: Action, s5: State, a6: Action, s6: State,
                  a7: Action, s7: State, a8: Action, s8: State, a9: Action, s9: State)
    requires Do(f, s, a1) == Some(s1) && Do(f, s1, a2) == Some(s2) && Do(f, s2, a3) == Some(s3)
    requires Do(f, s3, a4) == Some(s4) && Do(f, s4, a5) == Some(s5) && Do(f, s5, a6) == Some(s6)
    requires Do(f, s6, a7) == Some(s7) && Do(f, s7, a8) == Some(s8) && Do(f, s8, a9) == Some(s9)
    ensures Run(f, s, [a1, a2, a3, a4, a5, a6, a7, a8, a9]) == Some(s9)
  {
    hide Do, Run;
    RunNone(f, s);
    ThreeMore(f, s, [], s, a1, s1, a2, s2, a3, s3);
    ThreeMore(f, s, [] + [a1, a2, a3], s3, a4, s4, a5, s5, a6, s6);
    ThreeMore(f, s, [] + [a1, a2, a3] + [a4, a5, a6], s6, a7, s7, a8, s8, a9, s9);
    assert [] + [a1, a2, a3] + [a4, a5, a6] + [a7, a8, a9] == [a1, a2, a3, a4, a5, a6, a7, a8, a9];
  }

  /**
   From any state with room for a token: a page, its form, the review and the commit bring the
   change that the form and the policy define to the editor, under the revision of that policy.
   */
  lemma WholeRound(f: C.Foreign, s: State, r: nat, q: nat, page: string, commit: string, kind: Controls.Kind,
                   form: Controls.Form, offered: bool, confirm: bool)
    requires r !in s.requests && q !in s.requests && r != q && page != commit
    requires page !in s.issued && commit !in s.issued && page !in s.used && commit !in s.used
    requires page !in s.hidden && commit !in s.hidden && |Pruned(s.tokens, s.clock)| < MaxTokens
    requires ChangeOf(f, Review(kind, form, offered, s.policy)).Some?
    requires confirm || !ChangeOf(f, Review(kind, form, offered, s.policy)).value.widen
    ensures var t := Run(f, s, RoundActions(r, q, page, commit, form.alias, kind, form, offered, confirm));
            && t.Some? && |t.value.log| == |s.log| + 6 && t.value.log[..|s.log|] == s.log
            && t.value.log[|s.log| + 5] == Called(commit, ChangeOf(f, Review(kind, form, offered, s.policy)).value,
                                                  f.digest(s.policy), confirm, s.policy)
  {
    hide ChangeOf, Pruned, Do, Run;
    var v := Review(kind, form, offered, s.policy);
    var s1, s2, s3 := FormSteps(f, s, r, page, kind, form.alias);
    var s4, s5, s6 := ReviewSteps(f, s3, r, kind, form, offered, commit);
    ChangeFits(f, v);
    assert Fits(f, s6, commit, CommitAction, form.alias);
    var s7, s8, s9 := CommitSteps(f, s6, q, commit, form.alias, ChangeOf(f, v).value, confirm);
    LogGrows(s.log, s3.log, s6.log, s9.log);
    hide Fits;
    NineSteps(f, s, Page(page, ActionOf(kind), form.alias), s1, Submit(r, page, ActionOf(kind), form.alias), s2,
              Check(r), s3, Look(r, kind, form, offered), s4, Issue(r, commit), s5, Attach(r), s6,
              Submit(q, commit, CommitAction, form.alias), s7, Check(q), s8, Commit(q, confirm), s9);
  }

  // ----- Whose review it is -----

  predicate InvokedFor(log: seq<Entry>, upto: int, action: string, alias: string) {
    exists i :: 0 <= i < upto <= |log| && log[i].Invoked? && log[i].action == action && log[i].alias == alias
  }

  /** A request in its handler was invoked, and reviews what it was invoked for. */
  predicate HandledOk(log: seq<Entry>, q: Request) {
    && (q.phase.Handling? || q.phase.Looked? ==> InvokedFor(log, |log|, q.action, q.alias))
    && (q.phase.Looked? ==> q.action == ActionOf(q.phase.review.kind) && q.alias == q.phase.review.form.alias)
  }

  predicate ReviewedFor(log: seq<Entry>, j: int)
    requires 0 <= j < |log| && log[j].Reviewed?
  {
    InvokedFor(log, j, ActionOf(log[j].review.kind), log[j].review.form.alias)
  }

  predicate Reviews(s: State) {
    && (forall r :: r in s.requests ==> HandledOk(s.log, s.requests[r]))
    && (forall j :: 0 <= j < |s.log| && s.log[j].Reviewed? ==> ReviewedFor(s.log, j))
  }

  lemma InvokedLater(log: seq<Entry>, upto: int, e: Entry, action: string, alias: string)
    requires InvokedFor(log, upto, action, alias)
    ensures InvokedFor(log + [e], upto, action, alias) && InvokedFor(log + [e], |log| + 1, action, alias)
  {
    var i :| 0 <= i < upto <= |log| && log[i].Invoked? && log[i].action == action && log[i].alias == alias;
    assert (log + [e])[i] == log[i];
  }

  /** A step that logs at most one entry and moves at most one request. */
  lemma StepReviews(s: State, t: State, r: nat)
    requires Reviews(s) && (t.log == s.log || (|t.log| == |s.log| + 1 && t.log == s.log + [t.log[|s.log|]]))
    requires forall k :: k in t.requests && k != r ==> k in s.requests && t.requests[k] == s.requests[k]
    requires r in t.requests ==> HandledOk(t.log, t.requests[r])
    requires |t.log| > |s.log| && t.log[|s.log|].Reviewed? ==> ReviewedFor(t.log, |s.log|)
    ensures Reviews(t)
  {
    hide InvokedFor;
    forall k | k in t.requests ensures HandledOk(t.log, t.requests[k]) {
      if k != r && t.log != s.log && (s.requests[k].phase.Handling? || s.requests[k].phase.Looked?) {
        InvokedLater(s.log, |s.log|, t.log[|s.log|], s.requests[k].action, s.requests[k].alias);
      }
    }
    forall j | 0 <= j < |t.log| && t.log[j].Reviewed? ensures ReviewedFor(t.log, j) {
      if j < |s.log| {
        assert t.log[j] == s.log[j];
        if t.log != s.log {
          InvokedLater(s.log, j, t.log[|s.log|], ActionOf(s.log[j].review.kind), s.log[j].review.form.alias);
        }
      }
    }
  }

  lemma CheckReviews(f: C.Foreign, s: State, r: nat)
    requires Reviews(s) && r in s.requests && DoCheck(f, s, r).Some?
    ensures Reviews(DoCheck(f, s, r).value)
  {
    var t := DoCheck(f, s, r).value;
    var q := t.requests[r];
    assert q.phase.Handling? ==> t.log[|s.log|].Invoked? && InvokedFor(t.log, |t.log|, q.action, q.alias);
    hide InvokedFor, Reviews;
    StepReviews(s, t, r);
  }

  lemma LookReviews(f: C.Foreign, s: State, r: nat, kind: Controls.Kind, form: Controls.Form, offered: bool)
    requires Reviews(s) && r in s.requests && DoLook(f, s, r, kind, form, offered).Some?
    ensures Reviews(DoLook(f, s, r, kind, form, offered).value)
  {
    hide InvokedFor, ChangeOf;
    assert HandledOk(s.log, s.requests[r]);
    hide Reviews;
    StepReviews(s, DoLook(f, s, r, kind, form, offered).value, r);
  }

  lemma IssueReviews(f: C.Foreign, s: State, r: nat, token: string)
    requires Reviews(s) && r in s.requests && DoIssue(f, s, r, token).Some?
    ensures Reviews(DoIssue(f, s, r, token).value)
  {
    hide ChangeOf, WithToken;
    assert HandledOk(s.log, s.requests[r]);
    hide Reviews;
    var t := DoIssue(f, s, r, token).value;
    if |t.log| > |s.log| {
      InvokedLater(s.log, |s.log|, t.log[|s.log|], s.requests[r].action, s.requests[r].alias);
    }
    hide InvokedFor;
    StepReviews(s, t, r);
  }

  lemma OtherReviews(f: C.Foreign, s: State, a: Action)
    requires Reviews(s) && Do(f, s, a).Some? && !a.Check? && !a.Look? && !a.Issue?
    ensures Reviews(Do(f, s, a).value)
  {
    hide InvokedFor, WithToken, Taken, Remaining, WithChange;
    var t := Do(f, s, a).value;
    if a.Submit? || a.Attach? || a.Commit? {
      hide Reviews;
      StepReviews(s, t, a.r);
    } else {
      assert t.log == s.log && t.requests == s.requests;
    }
  }

  lemma {:induction false} RunReviews(f: C.Foreign, s: State, actions: seq<Action>)
    requires Initial(s) && Run(f, s, actions).Some?
    ensures Reviews(Run(f, s, actions).value)
  {
    if actions != [] {
      hide Reviews, DoCheck, DoLook, DoIssue;
      var n := |actions| - 1;
      RunReviews(f, s, actions[..n]);
      var mid, a := Run(f, s, actions[..n]).value, actions[n];
      match a
      case Check(r) => CheckReviews(f, mid, r);
      case Look(r, kind, form, offered) => LookReviews(f, mid, r, kind, form, offered);
      case Issue(r, token) => IssueReviews(f, mid, r, token);
      case _ => OtherReviews(f, mid, a);
    }
  }

  /** Over any run a review was invoked for the action and the alias of the form it reviews. */
  lemma ReviewedAsInvoked(f: C.Foreign, s: State, actions: seq<Action>, j: nat)
    requires Initial(s) && Run(f, s, actions).Some?
    requires j < |Run(f, s, actions).value.log| && Run(f, s, actions).value.log[j].Reviewed?
    ensures var log := Run(f, s, actions).value.log;
            exists i :: 0 <= i < j && log[i].Invoked? && log[i].action == ActionOf(log[j].review.kind)
                        && log[i].alias == log[j].review.form.alias
  {
    hide Run, Initial;
    RunReviews(f, s, actions);
    var log := Run(f, s, actions).value.log;
    assert ReviewedFor(log, j);
  }
}
