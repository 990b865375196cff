/**
 The administrator web server as a concurrent system: pages issue tokens, forms submit them,
 `review` reads the policy, builds a change, issues a commit token and attaches the change to it,
 and `commit` calls the editor. Steps are the critical sections and policy reads of
 internal/adminweb/server.go and controls.go; between them other requests, other editors of the
 policy and the clock move on. The state holds the bytes of the policy; its revision is their digest.

 Assumed: tokens are never issued twice and cannot be guessed before they are shown; a review
 attaches its change before the new token expires; and a policy that changed between the read of
 a review and its revision check has not changed back in between.
 */
module WebMachine {
  import opened Basics
  import opened WebTokens
  import Controls
  import C = Config
  import E = Edits

  const CommitAction := "commit"
  const ReviewActions: set<string> := {"create", "metadata", "mode", "add", "remove"}
  const PageActions: set<string> := ReviewActions + {"discover", "path", "access"}

  function ActionOf(k: Controls.Kind): string {
    match k
    case Create => "create"
    case Metadata => "metadata"
    case Mode => "mode"
    case Add => "add"
    case Remove => "remove"
  }

  /** What a review saw and was asked for. */
  datatype Review = Review(kind: Controls.Kind, form: Controls.Form, offered: bool, policy: string)

  datatype Phase =
    | Took(token: string, entry: FormToken, at: int)            // token consumed
    | Handling(token: string, entry: FormToken)                 // handler invoked
    | Looked(token: string, entry: FormToken, review: Review)   // policy read, change built
    | Attaching(token: string, change: Controls.Change)         // commit token issued
    | Over

  datatype Request = Request(action: string, alias: string, phase: Phase)

  datatype Entry =
    | Submitted(r: nat, token: string, taken: bool)
    | Invoked(r: nat, token: string, action: string, alias: string, at: int, rev: string)
    | Reviewed(token: string, review: Review)
    | Called(token: string, change: Controls.Change, revision: string, confirmed: bool, seen: string)

  /** `issued`, `reviews` and `used` remember what was issued, reviewed and submitted. */
  datatype State = State(
    clock: int, policy: string, login: string, tokens: Tokens,
    issued: Tokens, reviews: map<string, Review>, used: set<string>, hidden: set<string>,
    requests: map<nat, Request>, log: seq<Entry>)

  datatype Action =
    | Page(token: string, action: string, target: string)
    | Submit(r: nat, token: string, action: string, alias: string)
    | Check(r: nat)
    | Look(r: nat, kind: Controls.Kind, form: Controls.Form, offered: bool)
    | Issue(r: nat, token: string)
    | Attach(r: nat)
    | Commit(r: nat, confirm: bool)
    | Policy(bytes: string)
    | Advance(d: nat)

  // ----- The server -----

  function Rev(f: C.Foreign, s: State): string { f.digest(s.policy) }

  /** The change a review builds from the policy it read. */
  function ChangeOf(f: C.Foreign, v: Review): Option<Controls.Change> {
    match E.ReadPolicy(f, "", v.policy)
    case None => None
    case Some(c) => Controls.ReviewPolicy(v.kind, v.form, c, v.offered)
  }

  /** The project `commit` reads again before a metadata update. */
  function CurrentIn(f: C.Foreign, policy: string, change: Controls.Change): C.Project {
    match E.ReadPolicy(f, "", policy)
    case None => change.input
    case Some(c) =>
      var i := C.IndexOf(c.projects, change.alias);
      if i < |c.projects| then c.projects[i] else change.input
  }

  /** The edit a logged call asks the editor for, guarded by the revision. */
  function EditOf(f: C.Foreign, change: Controls.Change, seen: string): E.Edit {
    Controls.EditOf(change, CurrentIn(f, seen, change))
  }

  function Move(s: State, r: nat, p: Phase): State
    requires r in s.requests
  {
    s.(requests := s.requests[r := s.requests[r].(phase := p)])
  }

  function Logged(s: State, e: Entry): State { s.(log := s.log + [e]) }

  /** A token is issued under a revision; it was never seen before. */
  function NewToken(s: State, token: string, action: string, revision: string, target: string): Option<State> {
    if token in s.issued || token in s.used then None
    else match WithToken(s.tokens, s.clock, token, action, s.login, revision, target)
      case None => None
      case Some(t) => Some(s.(tokens := t, issued := s.issued[token := t[token]]))
  }

  function DoSubmit(s: State, r: nat, token: string, action: string, alias: string): Option<State> {
    if r in s.requests || token in s.hidden then None
    else
      var e := Taken(s.tokens, s.clock, token, action, s.login);
      var p := if e.Some? then Took(token, e.value, s.clock) else Over;
      Some(Logged(s.(tokens := Remaining(s.tokens, s.clock, token), used := s.used + {token},
                     requests := s.requests[r := Request(action, alias, p)]),
                  Submitted(r, token, e.Some?)))
  }

  /** protectPost after the token: target, then revision, then the handler. */
  function DoCheck(f: C.Foreign, s: State, r: nat): Option<State>
    requires r in s.requests
  {
    var q := s.requests[r];
    if !q.phase.Took? then None
    else
      var t, e := q.phase.token, q.phase.entry;
      if (e.target != "" && q.alias != e.target) || (e.revision != "" && Rev(f, s) != e.revision)
      then Some(Move(s, r, Over))
      else Some(Logged(Move(s, r, Handling(t, e)), Invoked(r, t, q.action, q.alias, q.phase.at, Rev(f, s))))
  }

  /** review reads the project and the list of projects, and builds the change. */
  function DoLook(f: C.Foreign, s: State, r: nat, kind: Controls.Kind, form: Controls.Form,
                  offered: bool): Option<State>
    requires r in s.requests
  {
    var q := s.requests[r];
    var v := Review(kind, form, offered, s.policy);
    if !q.phase.Handling? || q.action != ActionOf(kind) || q.action !in ReviewActions || form.alias != q.alias then None
    else if ChangeOf(f, v).None? then Some(Move(s, r, Over))
    else Some(Move(s, r, Looked(q.phase.token, q.phase.entry, v)))
  }

  /** review checks the revision and, in its first critical section, issues the commit token. */
  function DoIssue(f: C.Foreign, s: State, r: nat, token: string): Option<State>
    requires r in s.requests
  {
    var p := s.requests[r].phase;
    if !p.Looked? || ChangeOf(f, p.review).None? then None
    else if Rev(f, s) != p.entry.revision then Some(Move(s, r, Over))
    else if s.policy != p.review.policy then None // changed back in between: assumed away
    else
      var change := ChangeOf(f, p.review).value;
      match NewToken(s, token, CommitAction, p.entry.revision, change.alias)
      case None => None
      case Some(t) =>
        Some(Logged(Move(t, r, Attaching(token, change)).(reviews := s.reviews[token := p.review],
                                                          hidden := s.hidden + {token}),
                    Reviewed(token, p.review)))
  }

  /** The second critical section of review. */
  function DoAttach(s: State, r: nat): Option<State>
    requires r in s.requests
  {
    var p := s.requests[r].phase;
    if !p.Attaching? || p.token !in s.issued || !(s.clock < s.issued[p.token].expires) then None
    else Some(Move(s, r, Over).(tokens := WithChange(s.tokens, p.token, p.change), hidden := s.hidden - {p.token}))
  }

  /** commit: the reviewed change, confirmed if it widens, goes to the editor. */
  function DoCommit(s: State, r: nat, confirm: bool): Option<State>
    requires r in s.requests
  {
    var q := s.requests[r];
    if !q.phase.Handling? || q.action != CommitAction then None
    else
      var t, e := q.phase.token, q.phase.entry;
      if e.change.None? || (e.change.value.widen && !confirm) then Some(Move(s, r, Over))
      else Some(Logged(Move(s, r, Over), Called(t, e.change.value, e.revision, confirm, s.policy)))
  }

  function Do(f: C.Foreign, s: State, a: Action): Option<State> {
    match a
    case Page(token, action, target) =>
      if action in PageActions then NewToken(s, token, action, Rev(f, s), target) else None
    case Submit(r, token, action, alias) => DoSubmit(s, r, token, action, alias)
    case Check(r) => if r in s.requests then DoCheck(f, s, r) else None
    case Look(r, kind, form, offered) => if r in s.requests then DoLook(f, s, r, kind, form, offered) else None
    case Issue(r, token) => if r in s.requests then DoIssue(f, s, r, token) else None
    case Attach(r) => if r in s.requests then DoAttach(s, r) else None
    case Commit(r, confirm) => if r in s.requests then DoCommit(s, r, confirm) else None
    case Policy(bytes) => if E.ReadPolicy(f, "", bytes).Some? then Some(s.(policy := bytes)) else None
    case Advance(d) => Some(s.(clock := s.clock + d))
  }

  function Run(f: C.Foreign, s: State, actions: seq<Action>): Option<State> {
    if actions == [] then Some(s)
    else match Run(f, s, actions[..|actions| - 1])
      case None => None
      case Some(mid) => Do(f, mid, actions[|actions| - 1])
  }

  predicate Initial(s: State) {
    && s.tokens == map[] && s.issued == map[] && s.reviews == map[] && s.used == {} && s.hidden == {}
    && s.requests == map[] && s.log == []
  }

  /** Revisions are not empty strings. */
  ghost predicate Revisions(f: C.Foreign) { forall data :: f.digest(data) != "" }

  // ----- What every step keeps -----

  /** A table entry is the token as issued, possibly with the change reviewed under it. */
  predicate AsIssued(f: C.Foreign, s: State, token: string, e: FormToken) {
    && token in s.issued && e.(change := None) == s.issued[token]
    && (e.change.Some? ==> token in s.reviews && ChangeOf(f, s.reviews[token]) == e.change)
  }

  predicate TokensOk(f: C.Foreign, s: State) {
    && |s.tokens| <= MaxTokens
    && (forall t :: t in s.tokens ==> AsIssued(f, s, t, s.tokens[t]) && t !in s.used)
  }

  /** The change of a review is built from the policy of the revision its token records. */
  predicate ReviewOk(f: C.Foreign, s: State, token: string)
    requires token in s.reviews
  {
    && token in s.issued && s.issued[token].action == CommitAction
    && s.issued[token].revision == f.digest(s.reviews[token].policy) && ChangeOf(f, s.reviews[token]).Some?
  }

  predicate IssuedOk(f: C.Foreign, s: State) {
    && (forall t :: t in s.issued ==> s.issued[t].revision != "" && s.issued[t].change.None?)
    && (forall t :: t in s.reviews ==> ReviewOk(f, s, t))
  }

  /** A commit token that is not shown yet waits in the table. */
  predicate HiddenOk(s: State) {
    forall t :: t in s.hidden ==> t in s.issued && t !in s.used && (s.clock < s.issued[t].expires ==> t in s.tokens)
  }

  /** The first submission of the token in the log is that of r, and it took the token. */
  predicate FirstSubmit(log: seq<Entry>, r: nat, token: string) {
    exists i :: 0 <= i < |log| && log[i] == Submitted(r, token, true)
                && forall k :: 0 <= k < i ==> !(log[k].Submitted? && log[k].token == token)
  }

  predicate InvokedIn(log: seq<Entry>, token: string) {
    exists i :: 0 <= i < |log| && log[i].Invoked? && log[i].token == token
  }

  predicate CalledIn(log: seq<Entry>, token: string) {
    exists i :: 0 <= i < |log| && log[i].Called? && log[i].token == token
  }

  predicate ReviewedIn(log: seq<Entry>, token: string, v: Review) {
    exists i :: 0 <= i < |log| && log[i] == Reviewed(token, v)
  }

  predicate RequestOk(f: C.Foreign, s: State, r: nat, q: Request) {
    match q.phase
    case Took(t, e, at) =>
      && t in s.used && AsIssued(f, s, t, e) && e.action == q.action && at < e.expires
      && !InvokedIn(s.log, t) && FirstSubmit(s.log, r, t)
    case Handling(t, e) =>
      t in s.used && AsIssued(f, s, t, e) && e.action == q.action && InvokedIn(s.log, t) && !CalledIn(s.log, t)
    case Looked(t, e, v) => t in s.used && AsIssued(f, s, t, e)
    case Attaching(t, change) => t in s.hidden && t in s.reviews && ChangeOf(f, s.reviews[t]) == Some(change)
    case Over => true
  }

  function TokenOf(p: Phase): Option<string> {
    match p
    case Took(t, _, _) => Some(t)
    case Handling(t, _) => Some(t)
    case Looked(t, _, _) => Some(t)
    case Attaching(t, _) => Some(t)
    case Over => None
  }

  predicate RequestsOk(f: C.Foreign, s: State) {
    && (forall r :: r in s.requests ==> RequestOk(f, s, r, s.requests[r]))
    && (forall x, y :: x in s.requests && y in s.requests && x != y && TokenOf(s.requests[x].phase).Some? ==>
          TokenOf(s.requests[x].phase) != TokenOf(s.requests[y].phase))
  }

  /** A handler ran for a token of its own action and target, for the revision it was issued under, in time. */
  predicate InvocationOk(s: State, log: seq<Entry>, e: Entry)
    requires e.Invoked?
  {
    && e.token in s.used && e.token in s.issued && FirstSubmit(log, e.r, e.token)
    && var t := s.issued[e.token];
       t.action == e.action && (t.target != "" ==> e.alias == t.target) && e.rev == t.revision && e.at < t.expires
  }

  /** The editor was called with the change reviewed under that token, under its revision, confirmed if it widens. */
  predicate CallOk(f: C.Foreign, s: State, log: seq<Entry>, e: Entry)
    requires e.Called?
  {
    && e.token in s.reviews && ChangeOf(f, s.reviews[e.token]) == Some(e.change) && e.token in s.issued
    && e.revision == s.issued[e.token].revision && (e.change.widen ==> e.confirmed)
    && InvokedIn(log, e.token) && ReviewedIn(log, e.token, s.reviews[e.token])
  }

  /** An entry is in order, given the entries before it. */
  predicate EntryOk(f: C.Foreign, s: State, before: seq<Entry>, e: Entry) {
    match e
    case Submitted(_, t, _) => t in s.used
    case Invoked(_, _, _, _, _, _) => InvocationOk(s, before, e)
    case Reviewed(t, v) => t in s.reviews && s.reviews[t] == v
    case Called(_, _, _, _, _) => CallOk(f, s, before, e)
  }

  predicate EntriesOk(f: C.Foreign, s: State) {
    forall i :: 0 <= i < |s.log| ==> EntryOk(f, s, s.log[..i], s.log[i])
  }

  /** No token is invoked, reviewed or called twice. */
  predicate Unique(log: seq<Entry>) {
    forall i, j :: 0 <= i < j < |log| && log[i].token == log[j].token ==>
      && !(log[i].Invoked? && log[j].Invoked?) && !(log[i].Reviewed? && log[j].Reviewed?)
      && !(log[i].Called? && log[j].Called?)
  }

  predicate ReviewsLogged(s: State) { forall t :: t in s.reviews ==> ReviewedIn(s.log, t, s.reviews[t]) }

  predicate LogOk(f: C.Foreign, s: State) {
    && EntriesOk(f, s) && Unique(s.log) && ReviewsLogged(s)
  }

  predicate Inv(f: C.Foreign, s: State) {
    TokensOk(f, s) && IssuedOk(f, s) && HiddenOk(s) && RequestsOk(f, s) && LogOk(f, s)
  }

  // ----- What is known stays known -----

  predicate Grows(s: State, s': State) {
    && s.used <= s'.used
    && (forall t :: t in s.issued ==> t in s'.issued && s'.issued[t] == s.issued[t])
    && (forall t :: t in s.reviews ==> t in s'.reviews && s'.reviews[t] == s.reviews[t])
  }

  lemma AsIssuedGrows(f: C.Foreign, s: State, s': State, t: string, e: FormToken)
    requires AsIssued(f, s, t, e) && Grows(s, s')
    ensures AsIssued(f, s', t, e)
  {
    hide ChangeOf;
  }

  /** Every entry of the new table is an old one, or the one token that is new or changed. */
  lemma TokensStep(f: C.Foreign, s: State, s': State, token: string)
    requires TokensOk(f, s) && Grows(s, s') && |s'.tokens| <= MaxTokens
    requires forall t :: t in s'.tokens && t != token ==> t in s.tokens && s'.tokens[t] == s.tokens[t] && t !in s'.used
    requires token in s'.tokens ==> AsIssued(f, s', token, s'.tokens[token]) && token !in s'.used
    ensures TokensOk(f, s')
  {
    hide AsIssued;
    forall t | t in s'.tokens ensures AsIssued(f, s', t, s'.tokens[t]) && t !in s'.used {
      if t != token { AsIssuedGrows(f, s, s', t, s.tokens[t]); }
    }
  }

  /** Pruning takes no hidden token that has not expired. */
  lemma HiddenStep(f: C.Foreign, s: State, s': State, token: string)
    requires TokensOk(f, s) && HiddenOk(s) && s'.hidden == s.hidden
    requires s'.clock == s.clock && Grows(s, s') && token !in s.hidden
    requires forall t :: t != token && t in s.tokens && s.clock < s.tokens[t].expires ==> t in s'.tokens
    requires forall t :: t in s.hidden ==> t !in s'.used
    ensures HiddenOk(s')
  {
    hide ChangeOf;
    forall t | t in s'.hidden && s'.clock < s'.issued[t].expires ensures t in s'.tokens {
      assert AsIssued(f, s, t, s.tokens[t]);
    }
  }

  lemma WithinBound(f: C.Foreign, s: State)
    requires TokensOk(f, s)
    ensures |s.tokens| <= MaxTokens
  {
    hide AsIssued;
  }

  lemma Unused(f: C.Foreign, s: State)
    requires TokensOk(f, s)
    ensures forall t :: t in s.tokens ==> t !in s.used && t in s.issued
  {
    hide ChangeOf;
    forall t | t in s.tokens ensures t !in s.used && t in s.issued { assert AsIssued(f, s, t, s.tokens[t]); }
  }

  lemma JustIssued(f: C.Foreign, s: State, token: string)
    requires token in s.tokens && token in s.issued
    requires s.issued[token] == s.tokens[token] && s.tokens[token].change.None?
    ensures AsIssued(f, s, token, s.tokens[token])
  {
  }

  lemma FirstGrows(log: seq<Entry>, e: Entry, r: nat, t: string)
    requires FirstSubmit(log, r, t)
    ensures FirstSubmit(log + [e], r, t)
  {
    var i :| 0 <= i < |log| && log[i] == Submitted(r, t, true)
             && forall k :: 0 <= k < i ==> !(log[k].Submitted? && log[k].token == t);
    assert (log + [e])[i] == log[i] && forall k :: 0 <= k < i ==> (log + [e])[k] == log[k];
  }

  lemma InvokedGrows(log: seq<Entry>, e: Entry, t: string)
    requires InvokedIn(log, t)
    ensures InvokedIn(log + [e], t)
  {
    var i :| 0 <= i < |log| && log[i].Invoked? && log[i].token == t;
    assert (log + [e])[i] == log[i];
  }

  lemma ReviewedGrows(log: seq<Entry>, e: Entry, t: string, v: Review)
    requires ReviewedIn(log, t, v)
    ensures ReviewedIn(log + [e], t, v)
  {
    var i :| 0 <= i < |log| && log[i] == Reviewed(t, v);
    assert (log + [e])[i] == log[i];
  }

  lemma InvokedBack(log: seq<Entry>, e: Entry, t: string)
    requires !e.Invoked? || e.token != t
    ensures InvokedIn(log + [e], t) ==> InvokedIn(log, t)
  {
    if InvokedIn(log + [e], t) {
      var i :| 0 <= i < |log + [e]| && (log + [e])[i].Invoked? && (log + [e])[i].token == t;
      assert log[i] == (log + [e])[i];
    }
  }

  lemma CalledBack(log: seq<Entry>, e: Entry, t: string)
    requires !e.Called? || e.token != t
    ensures CalledIn(log + [e], t) ==> CalledIn(log, t)
  {
    if CalledIn(log + [e], t) {
      var i :| 0 <= i < |log + [e]| && (log + [e])[i].Called? && (log + [e])[i].token == t;
      assert log[i] == (log + [e])[i];
    }
  }

  /** A request that does not move, while the log stays as it is. */
  lemma RequestGrows(f: C.Foreign, s: State, s': State, r: nat, q: Request)
    requires RequestOk(f, s, r, q) && Grows(s, s') && s'.log == s.log
    requires q.phase.Attaching? ==> q.phase.token in s'.hidden
    ensures RequestOk(f, s', r, q)
  {
    hide InvokedIn, CalledIn, ChangeOf, FirstSubmit;
  }

  /** A request that does not move, while an entry about another token is added. */
  lemma RequestLogged(f: C.Foreign, s: State, s': State, r: nat, q: Request, e: Entry)
    requires RequestOk(f, s, r, q) && Grows(s, s') && s'.log == s.log + [e]
    requires q.phase.Attaching? ==> q.phase.token in s'.hidden
    requires e.Submitted? || e.Reviewed? || TokenOf(q.phase) != Some(e.token)
    ensures RequestOk(f, s', r, q)
  {
    hide InvokedIn, CalledIn, ChangeOf, FirstSubmit;
    if q.phase.Took? {
      InvokedBack(s.log, e, q.phase.token);
      FirstGrows(s.log, e, r, q.phase.token);
    } else if q.phase.Handling? {
      InvokedGrows(s.log, e, q.phase.token);
      CalledBack(s.log, e, q.phase.token);
    }
  }

  lemma EntryGrows(f: C.Foreign, s: State, s': State, before: seq<Entry>, e: Entry)
    requires EntryOk(f, s, before, e) && Grows(s, s')
    ensures EntryOk(f, s', before, e)
  {
    hide InvokedIn, FirstSubmit, ReviewedIn, ChangeOf;
  }

  lemma LogGrows(f: C.Foreign, s: State, s': State)
    requires LogOk(f, s) && s'.log == s.log && s'.reviews == s.reviews && Grows(s, s')
    ensures LogOk(f, s')
  {
    hide EntryOk, ReviewedIn, Unique;
    forall i | 0 <= i < |s'.log| ensures EntryOk(f, s', s'.log[..i], s'.log[i]) {
      EntryGrows(f, s, s', s.log[..i], s.log[i]);
    }
  }

  /** The new entry repeats nothing. */
  predicate NewEntry(log: seq<Entry>, e: Entry) {
    forall i :: 0 <= i < |log| && log[i].token == e.token ==>
      && !(log[i].Invoked? && e.Invoked?) && !(log[i].Reviewed? && e.Reviewed?) && !(log[i].Called? && e.Called?)
  }

  lemma LogAppend(f: C.Foreign, s: State, s': State, e: Entry)
    requires LogOk(f, s) && Grows(s, s') && s'.log == s.log + [e] && EntryOk(f, s', s.log, e) && NewEntry(s.log, e)
    requires forall t :: t in s'.reviews ==> t in s.reviews || e == Reviewed(t, s'.reviews[t])
    ensures LogOk(f, s')
  {
    hide EntryOk, NewEntry, Unique, ReviewedIn;
    forall i | 0 <= i < |s'.log| ensures EntryOk(f, s', s'.log[..i], s'.log[i]) {
      if i < |s.log| {
        assert s'.log[..i] == s.log[..i] && s'.log[i] == s.log[i];
        EntryGrows(f, s, s', s.log[..i], s.log[i]);
      } else {
        assert s'.log[..i] == s.log;
      }
    }
    UniqueAppend(s.log, e);
    forall t | t in s'.reviews ensures ReviewedIn(s'.log, t, s'.reviews[t]) {
      if t in s.reviews { ReviewedGrows(s.log, e, t, s.reviews[t]); } else { JustReviewed(s.log, t, s'.reviews[t]); }
    }
  }

  lemma UniqueAppend(log: seq<Entry>, e: Entry)
    requires Unique(log) && NewEntry(log, e)
    ensures Unique(log + [e])
  {
  }

  lemma JustReviewed(log: seq<Entry>, t: string, v: Review)
    ensures ReviewedIn(log + [Reviewed(t, v)], t, v)
  {
    assert (log + [Reviewed(t, v)])[|log|] == Reviewed(t, v);
  }

  // ----- Issuing -----

  /** What issuing does, entry by entry. */
  lemma NewTokenFacts(s: State, token: string, action: string, revision: string, target: string)
    requires NewToken(s, token, action, revision, target).Some? && |s.tokens| <= MaxTokens
    ensures var s' := NewToken(s, token, action, revision, target).value;
            && token !in s.issued && token !in s.used && |s'.tokens| <= MaxTokens
            && s' == s.(tokens := s'.tokens, issued := s'.issued)
            && token in s'.tokens
            && s'.tokens[token] == FormToken(action, s.login, revision, target, s.clock + Lifetime, None)
            && s'.issued == s.issued[token := s'.tokens[token]]
            && (forall t :: t != token ==> (t in s'.tokens <==> t in s.tokens && s.clock < s.tokens[t].expires))
            && (forall t :: t != token && t in s'.tokens ==> s'.tokens[t] == s.tokens[t])
  {
    TableBounded(s.tokens, s.clock, token, action, s.login, revision, target);
  }

  lemma FreshToken(f: C.Foreign, s: State, token: string)
    requires IssuedOk(f, s) && HiddenOk(s) && token !in s.issued
    ensures token !in s.hidden && token !in s.reviews
    ensures forall t :: t in s.hidden ==> t !in s.used
  {
    hide ChangeOf;
    assert forall t :: t in s.reviews ==> ReviewOk(f, s, t);
  }

  lemma IssuedGrows(f: C.Foreign, s: State, s': State, token: string)
    requires IssuedOk(f, s) && token !in s.issued && s'.reviews == s.reviews
    requires token in s'.issued && s'.issued == s.issued[token := s'.issued[token]]
    requires s'.issued[token].revision != "" && s'.issued[token].change.None?
    ensures IssuedOk(f, s')
  {
    hide ChangeOf;
    forall t | t in s'.reviews ensures ReviewOk(f, s', t) { assert ReviewOk(f, s, t); }
  }

  lemma NewTokenKeeps(f: C.Foreign, s: State, token: string, action: string, revision: string, target: string)
    requires Inv(f, s) && NewToken(s, token, action, revision, target).Some? && revision != ""
    ensures var s' := NewToken(s, token, action, revision, target).value;
            TokensOk(f, s') && IssuedOk(f, s') && HiddenOk(s') && Grows(s, s')
    ensures token !in s.hidden && token !in s.reviews
  {
    hide RequestsOk, LogOk, NewToken, TokensOk, AsIssued, IssuedOk, HiddenOk;
    var s' := NewToken(s, token, action, revision, target).value;
    WithinBound(f, s);
    NewTokenFacts(s, token, action, revision, target);
    FreshToken(f, s, token);
    IssuedGrows(f, s, s', token);
    Unused(f, s);
    JustIssued(f, s', token);
    TokensStep(f, s, s', token);
    HiddenStep(f, s, s', token);
  }

  lemma RequestsStay(f: C.Foreign, s: State, s': State)
    requires RequestsOk(f, s) && s'.requests == s.requests && s'.log == s.log && Grows(s, s') && s.hidden <= s'.hidden
    ensures RequestsOk(f, s')
  {
    hide RequestOk, TokenOf;
    forall r | r in s'.requests ensures RequestOk(f, s', r, s'.requests[r]) {
      HeldHidden(f, s, r, s.requests[r]);
      RequestGrows(f, s, s', r, s.requests[r]);
    }
  }

  lemma HeldHidden(f: C.Foreign, s: State, r: nat, q: Request)
    requires RequestOk(f, s, r, q)
    ensures q.phase.Attaching? ==> q.phase.token in s.hidden
    ensures TokenOf(q.phase).Some? && !q.phase.Attaching? ==> TokenOf(q.phase).value in s.used
  {
  }

  lemma PageKeeps(f: C.Foreign, s: State, token: string, action: string, target: string)
    requires Inv(f, s) && Revisions(f) && NewToken(s, token, action, Rev(f, s), target).Some?
    ensures Inv(f, NewToken(s, token, action, Rev(f, s), target).value)
  {
    hide TokensOk, IssuedOk, HiddenOk, LogOk, RequestsOk, NewToken;
    var s' := NewToken(s, token, action, Rev(f, s), target).value;
    assert Rev(f, s) != "";
    WithinBound(f, s);
    NewTokenFacts(s, token, action, Rev(f, s), target);
    NewTokenKeeps(f, s, token, action, Rev(f, s), target);
    LogGrows(f, s, s');
    RequestsStay(f, s, s');
  }

  // ----- Submitting -----

  /** What taking a token does, entry by entry. */
  lemma SubmitFacts(s: State, r: nat, token: string, action: string, alias: string)
    requires DoSubmit(s, r, token, action, alias).Some? && |s.tokens| <= MaxTokens
    ensures var s' := DoSubmit(s, r, token, action, alias).value;
            && r !in s.requests && token !in s.hidden && |s'.tokens| <= MaxTokens && token !in s'.tokens
            && (forall t :: t != token ==> (t in s'.tokens <==> t in s.tokens && s.clock < s.tokens[t].expires))
            && (forall t :: t in s'.tokens ==> s'.tokens[t] == s.tokens[t])
  {
    TableBounded(s.tokens, s.clock, token, action, s.login, "", "");
  }

  lemma SubmitIs(s: State, r: nat, token: string, action: string, alias: string)
    requires DoSubmit(s, r, token, action, alias).Some?
    ensures var s' := DoSubmit(s, r, token, action, alias).value;
            var e := Taken(s.tokens, s.clock, token, action, s.login);
            && s' == s.(tokens := s'.tokens, used := s.used + {token}, requests := s'.requests, log := s'.log)
            && s'.requests
               == s.requests[r := Request(action, alias, if e.Some? then Took(token, e.value, s.clock) else Over)]
            && s'.log == s.log + [Submitted(r, token, e.Some?)]
            && (e.Some? ==>
                  && token in s.tokens && e.value == s.tokens[token]
                  && e.value.action == action && s.clock < e.value.expires)
  {
  }

  lemma SubmitTokens(f: C.Foreign, s: State, r: nat, token: string, action: string, alias: string)
    requires Inv(f, s) && DoSubmit(s, r, token, action, alias).Some?
    ensures var s' := DoSubmit(s, r, token, action, alias).value;
            TokensOk(f, s') && IssuedOk(f, s') && HiddenOk(s')
  {
    hide RequestsOk, LogOk, DoSubmit, Taken, TokensOk, AsIssued, IssuedOk;
    var s' := DoSubmit(s, r, token, action, alias).value;
    WithinBound(f, s);
    SubmitFacts(s, r, token, action, alias);
    SubmitIs(s, r, token, action, alias);
    Unused(f, s);
    TokensStep(f, s, s', token);
    HiddenStep(f, s, s', token);
    SameIssued(f, s, s');
  }

  lemma SameIssued(f: C.Foreign, s: State, s': State)
    requires IssuedOk(f, s) && s'.issued == s.issued && s'.reviews == s.reviews
    ensures IssuedOk(f, s')
  {
    hide ChangeOf;
    forall t | t in s'.reviews ensures ReviewOk(f, s', t) { assert ReviewOk(f, s, t); }
  }

  /** A token that was never submitted was never invoked either. */
  lemma NeverSubmitted(f: C.Foreign, s: State, token: string)
    requires LogOk(f, s) && token !in s.used
    ensures !InvokedIn(s.log, token)
    ensures forall k :: 0 <= k < |s.log| ==> !(s.log[k].Submitted? && s.log[k].token == token)
  {
    hide FirstSubmit, ReviewedIn, ChangeOf, Unique, ReviewsLogged;
    forall k | 0 <= k < |s.log| ensures !((s.log[k].Submitted? || s.log[k].Invoked?) && s.log[k].token == token) {
      assert EntryOk(f, s, s.log[..k], s.log[k]);
    }
  }

  lemma JustTaken(f: C.Foreign, s: State, s': State, r: nat, token: string, q: Request)
    requires TokensOk(f, s) && LogOk(f, s) && Grows(s, s') && s'.log == s.log + [Submitted(r, token, true)]
    requires token in s.tokens && q.phase == Took(token, s.tokens[token], s.clock) && token in s'.used
    requires s.tokens[token].action == q.action && s.clock < s.tokens[token].expires
    ensures RequestOk(f, s', r, q) && token !in s.used
  {
    hide InvokedIn, LogOk, ChangeOf, AsIssued;
    assert AsIssued(f, s, token, s.tokens[token]) && token !in s.used;
    AsIssuedGrows(f, s, s', token, s.tokens[token]);
    NeverSubmitted(f, s, token);
    InvokedBack(s.log, Submitted(r, token, true), token);
    assert s'.log[|s.log|] == Submitted(r, token, true);
    assert forall k :: 0 <= k < |s.log| ==> s'.log[k] == s.log[k];
  }

  lemma SubmitRequests(f: C.Foreign, s: State, s': State, r: nat, q: Request, e: Entry)
    requires RequestsOk(f, s) && r !in s.requests && s'.requests == s.requests[r := q] && RequestOk(f, s', r, q)
    requires Grows(s, s') && s'.hidden == s.hidden && s'.log == s.log + [e] && e.Submitted?
    requires TokenOf(q.phase).Some? ==> TokenOf(q.phase).value !in s.used && TokenOf(q.phase).value !in s.hidden
    ensures RequestsOk(f, s')
  {
    hide RequestOk, TokenOf;
    forall x | x in s'.requests ensures RequestOk(f, s', x, s'.requests[x]) {
      if x != r {
        HeldHidden(f, s, x, s.requests[x]);
        RequestLogged(f, s, s', x, s.requests[x], e);
      }
    }
    forall x | x in s.requests && TokenOf(s.requests[x].phase).Some?
      ensures TokenOf(s.requests[x].phase).value in s.used || TokenOf(s.requests[x].phase).value in s.hidden
    {
      HeldHidden(f, s, x, s.requests[x]);
      AttachingHolds(s.requests[x].phase);
    }
  }

  lemma AttachingHolds(p: Phase)
    ensures p.Attaching? ==> TokenOf(p) == Some(p.token)
  {
  }

  lemma SubmitKeeps(f: C.Foreign, s: State, r: nat, token: string, action: string, alias: string)
    requires Inv(f, s) && DoSubmit(s, r, token, action, alias).Some?
    ensures Inv(f, DoSubmit(s, r, token, action, alias).value)
  {
    hide IssuedOk, HiddenOk, LogOk, RequestsOk, DoSubmit, Taken, TokensOk, RequestOk;
    var s' := DoSubmit(s, r, token, action, alias).value;
    WithinBound(f, s);
    SubmitTokens(f, s, r, token, action, alias);
    SubmitFacts(s, r, token, action, alias);
    SubmitIs(s, r, token, action, alias);
    var q := s'.requests[r];
    var e := Submitted(r, token, q.phase.Took?);
    LogAppend(f, s, s', e);
    if q.phase.Took? { JustTaken(f, s, s', r, token, q); } else { OverOk(f, s', r, q); }
    SubmitRequests(f, s, s', r, q, e);
  }

  lemma OverOk(f: C.Foreign, s: State, r: nat, q: Request)
    requires q.phase.Over?
    ensures RequestOk(f, s, r, q) && TokenOf(q.phase).None?
  {
  }

  // ----- One request moves on -----

  /** The parts of the invariant about tokens depend only on these fields. */
  lemma SameTokens(f: C.Foreign, s: State, s': State)
    requires TokensOk(f, s) && IssuedOk(f, s) && HiddenOk(s)
    requires s'.tokens == s.tokens && s'.issued == s.issued && s'.reviews == s.reviews && s'.used == s.used
    requires s'.hidden == s.hidden && s'.clock == s.clock
    ensures TokensOk(f, s') && IssuedOk(f, s') && HiddenOk(s')
  {
    hide ChangeOf;
    SameIssued(f, s, s');
    forall t | t in s'.tokens ensures AsIssued(f, s', t, s'.tokens[t]) && t !in s'.used {
      assert AsIssued(f, s, t, s.tokens[t]);
    }
  }

  lemma HeldBy(f: C.Foreign, s: State, r: nat, t: string)
    requires RequestsOk(f, s) && r in s.requests && TokenOf(s.requests[r].phase) == Some(t)
    ensures forall x :: x in s.requests && x != r ==> TokenOf(s.requests[x].phase) != Some(t)
    ensures RequestOk(f, s, r, s.requests[r])
  {
    hide RequestOk, TokenOf;
  }

  lemma RequestsMove(f: C.Foreign, s: State, s': State, r: nat, q: Request)
    requires RequestsOk(f, s) && r in s.requests && s'.requests == s.requests[r := q] && RequestOk(f, s', r, q)
    requires TokenOf(q.phase).Some? ==>
               forall x :: x in s.requests && x != r ==> TokenOf(s.requests[x].phase) != TokenOf(q.phase)
    requires forall x :: x in s.requests && x != r ==> RequestOk(f, s', x, s.requests[x])
    ensures RequestsOk(f, s')
  {
    hide RequestOk, TokenOf;
  }

  /** A step that only changes the phase of one request, which keeps its token or drops it. */
  lemma QuietMove(f: C.Foreign, s: State, r: nat, p: Phase)
    requires Inv(f, s) && r in s.requests && RequestOk(f, Move(s, r, p), r, s.requests[r].(phase := p))
    requires TokenOf(p).None? || TokenOf(p) == TokenOf(s.requests[r].phase)
    ensures Inv(f, Move(s, r, p))
  {
    hide TokensOk, IssuedOk, HiddenOk, LogOk, RequestOk, RequestsOk, TokenOf;
    var s' := Move(s, r, p);
    SameTokens(f, s, s');
    LogGrows(f, s, s');
    if TokenOf(p).Some? { HeldBy(f, s, r, TokenOf(p).value); }
    forall x | x in s.requests && x != r ensures RequestOk(f, s', x, s.requests[x]) {
      OneRequest(f, s, x);
      HeldHidden(f, s, x, s.requests[x]);
      RequestGrows(f, s, s', x, s.requests[x]);
    }
    RequestsMove(f, s, s', r, s'.requests[r]);
  }

  lemma OneRequest(f: C.Foreign, s: State, x: nat)
    requires RequestsOk(f, s) && x in s.requests
    ensures RequestOk(f, s, x, s.requests[x])
  {
    hide RequestOk;
  }

  lemma StopMove(f: C.Foreign, s: State, r: nat)
    requires Inv(f, s) && r in s.requests
    ensures Inv(f, Move(s, r, Over))
  {
    hide Inv, RequestOk;
    OverOk(f, Move(s, r, Over), r, s.requests[r].(phase := Over));
    QuietMove(f, s, r, Over);
  }

  /** A step that adds one entry about the token the request holds. */
  lemma LoggedMove(f: C.Foreign, s: State, s': State, r: nat, q: Request, e: Entry)
    requires TokensOk(f, s) && IssuedOk(f, s) && HiddenOk(s) && RequestsOk(f, s) && r in s.requests
    requires TokenOf(s.requests[r].phase) == Some(e.token)
    requires s' == s.(requests := s.requests[r := q], log := s.log + [e])
    requires RequestOk(f, s', r, q) && (TokenOf(q.phase).None? || TokenOf(q.phase) == Some(e.token)) && LogOk(f, s')
    ensures Inv(f, s')
  {
    hide TokensOk, IssuedOk, HiddenOk, LogOk, RequestOk, TokenOf, RequestsOk;
    HeldBy(f, s, r, e.token);
    SameTokens(f, s, s');
    forall x | x in s.requests && x != r ensures RequestOk(f, s', x, s.requests[x]) {
      OneRequest(f, s, x);
      HeldHidden(f, s, x, s.requests[x]);
      RequestLogged(f, s, s', x, s.requests[x], e);
    }
    RequestsMove(f, s, s', r, q);
  }

  // ----- The handler is invoked -----

  lemma InvocationGood(f: C.Foreign, s: State, r: nat, q: Request, x: Entry)
    requires IssuedOk(f, s) && q.phase.Took? && RequestOk(f, s, r, q)
    requires x == Invoked(r, q.phase.token, q.action, q.alias, q.phase.at, Rev(f, s))
    requires q.phase.entry.target == "" || q.alias == q.phase.entry.target
    requires q.phase.entry.revision == "" || Rev(f, s) == q.phase.entry.revision
    ensures InvocationOk(s, s.log, x) && NewEntry(s.log, x)
  {
    hide FirstSubmit, ChangeOf;
    assert s.issued[q.phase.token].revision != "";
  }

  /** A call comes after an invocation of the same token. */
  lemma CalledWasInvoked(f: C.Foreign, s: State, t: string)
    requires LogOk(f, s) && CalledIn(s.log, t)
    ensures InvokedIn(s.log, t)
  {
    hide FirstSubmit, ReviewedIn, ChangeOf, Unique, ReviewsLogged;
    var i :| 0 <= i < |s.log| && s.log[i].Called? && s.log[i].token == t;
    assert EntryOk(f, s, s.log[..i], s.log[i]);
    var j :| 0 <= j < |s.log[..i]| && s.log[..i][j].Invoked? && s.log[..i][j].token == t;
    assert s.log[j] == s.log[..i][j];
  }

  lemma HandlingOk(f: C.Foreign, s: State, s': State, r: nat, q: Request, x: Entry)
    requires LogOk(f, s) && q.phase.Took? && RequestOk(f, s, r, q)
    requires s' == s.(requests := s'.requests, log := s.log + [x])
    requires x.Invoked? && x.token == q.phase.token
    ensures RequestOk(f, s', r, q.(phase := Handling(q.phase.token, q.phase.entry)))
  {
    hide FirstSubmit, ChangeOf, LogOk;
    assert s'.log[|s.log|] == x;
    CalledBack(s.log, x, x.token);
    if CalledIn(s.log, x.token) { CalledWasInvoked(f, s, x.token); }
  }

  lemma CheckKeeps(f: C.Foreign, s: State, r: nat)
    requires Inv(f, s) && r in s.requests && DoCheck(f, s, r).Some?
    ensures Inv(f, DoCheck(f, s, r).value)
  {
    hide TokensOk, IssuedOk, HiddenOk, LogOk, RequestOk, RequestsOk, InvocationOk, NewEntry;
    var s' := DoCheck(f, s, r).value;
    var q := s.requests[r];
    HeldBy(f, s, r, q.phase.token);
    if s'.log == s.log {
      StopMove(f, s, r);
    } else {
      var x := Invoked(r, q.phase.token, q.action, q.alias, q.phase.at, Rev(f, s));
      InvocationGood(f, s, r, q, x);
      SameInvocation(s, s', x);
      LogAppend(f, s, s', x);
      HandlingOk(f, s, s', r, q, x);
      LoggedMove(f, s, s', r, s'.requests[r], x);
    }
  }

  lemma SameInvocation(s: State, s': State, x: Entry)
    requires x.Invoked? && InvocationOk(s, s.log, x) && s'.used == s.used && s'.issued == s.issued
    ensures InvocationOk(s', s.log, x)
  {
    hide FirstSubmit;
  }

  // ----- Review -----

  lemma LookKeeps(f: C.Foreign, s: State, r: nat, kind: Controls.Kind, form: Controls.Form, offered: bool)
    requires Inv(f, s) && r in s.requests && DoLook(f, s, r, kind, form, offered).Some?
    ensures Inv(f, DoLook(f, s, r, kind, form, offered).value)
  {
    hide Inv, ChangeOf;
    var q := s.requests[r];
    var v := Review(kind, form, offered, s.policy);
    if ChangeOf(f, v).None? {
      StopMove(f, s, r);
    } else {
      LookedOk(f, s, r, v);
      QuietMove(f, s, r, Looked(q.phase.token, q.phase.entry, v));
    }
  }

  lemma LookedOk(f: C.Foreign, s: State, r: nat, v: Review)
    requires Inv(f, s) && r in s.requests && s.requests[r].phase.Handling?
    ensures var q := s.requests[r]; var p := Looked(q.phase.token, q.phase.entry, v);
            RequestOk(f, Move(s, r, p), r, q.(phase := p))
  {
    hide TokensOk, IssuedOk, HiddenOk, LogOk, ChangeOf, InvokedIn, CalledIn;
    OneRequest(f, s, r);
  }

  lemma ReviewTokens(f: C.Foreign, t: State, s': State, token: string, v: Review)
    requires TokensOk(f, t) && IssuedOk(f, t) && HiddenOk(t) && token !in t.reviews && token !in t.used
    requires token in t.tokens && token in t.issued
    requires t.issued[token].action == CommitAction && t.tokens[token].change.None?
    requires t.issued[token].revision == f.digest(v.policy) && ChangeOf(f, v).Some?
    requires s' == t.(requests := s'.requests, reviews := t.reviews[token := v],
                      hidden := t.hidden + {token}, log := s'.log)
    ensures TokensOk(f, s') && IssuedOk(f, s') && HiddenOk(s') && Grows(t, s')
  {
    hide ChangeOf;
    assert Grows(t, s');
    Unused(f, t);
    assert AsIssued(f, t, token, t.tokens[token]);
    TokensStep(f, t, s', token);
    forall x | x in s'.reviews ensures ReviewOk(f, s', x) {
      if x != token { assert ReviewOk(f, t, x); }
    }
  }

  lemma NobodyHolds(f: C.Foreign, s: State, token: string)
    requires HiddenOk(s) && RequestsOk(f, s) && token !in s.issued && token !in s.used
    ensures forall x :: x in s.requests ==> TokenOf(s.requests[x].phase) != Some(token)
  {
    hide RequestOk;
    forall x | x in s.requests ensures TokenOf(s.requests[x].phase) != Some(token) {
      OneRequest(f, s, x);
      HeldHidden(f, s, x, s.requests[x]);
    }
  }

  lemma AttachingOk(f: C.Foreign, s: State, r: nat, q: Request)
    requires q.phase.Attaching? && q.phase.token in s.hidden && q.phase.token in s.reviews
    requires ChangeOf(f, s.reviews[q.phase.token]) == Some(q.phase.change)
    ensures RequestOk(f, s, r, q)
  {
  }

  /** What issuing the commit token does. */
  lemma IssueIs(f: C.Foreign, s: State, r: nat, token: string, t: State)
    requires r in s.requests && s.requests[r].phase.Looked? && DoIssue(f, s, r, token).Some?
    requires Rev(f, s) == s.requests[r].phase.entry.revision && ChangeOf(f, s.requests[r].phase.review).Some?
    requires var change := ChangeOf(f, s.requests[r].phase.review).value;
             t == (match NewToken(s, token, CommitAction, Rev(f, s), change.alias) case None => s case Some(n) => n)
    ensures var v := s.requests[r].phase.review;
            var change := ChangeOf(f, v).value;
            && NewToken(s, token, CommitAction, Rev(f, s), change.alias) == Some(t) && v.policy == s.policy
            && t.requests == s.requests
            && DoIssue(f, s, r, token).value
               == t.(requests := t.requests[r := t.requests[r].(phase := Attaching(token, change))],
                     reviews := s.reviews[token := v], hidden := s.hidden + {token},
                     log := t.log + [Reviewed(token, v)])
  {
    hide ChangeOf, WithToken;
  }

  lemma IssueKeeps(f: C.Foreign, s: State, r: nat, token: string)
    requires Inv(f, s) && Revisions(f) && r in s.requests && DoIssue(f, s, r, token).Some?
    ensures Inv(f, DoIssue(f, s, r, token).value)
  {
    hide Inv, ChangeOf, NewToken;
    var p := s.requests[r].phase;
    if Rev(f, s) != p.entry.revision {
      StopMove(f, s, r);
    } else {
      var change := ChangeOf(f, p.review).value;
      var t := match NewToken(s, token, CommitAction, Rev(f, s), change.alias) case None => s case Some(n) => n;
      IssueIs(f, s, r, token, t);
      IssuedReview(f, s, r, token, t, DoIssue(f, s, r, token).value, p.review, change);
    }
  }

  lemma IssuedReview(f: C.Foreign, s: State, r: nat, token: string, t: State, s': State, v: Review,
                     change: Controls.Change)
    requires Inv(f, s) && Revisions(f) && r in s.requests && ChangeOf(f, v) == Some(change) && v.policy == s.policy
    requires NewToken(s, token, CommitAction, Rev(f, s), change.alias) == Some(t) && r in t.requests
    requires s' == t.(requests := t.requests[r := t.requests[r].(phase := Attaching(token, change))],
                      reviews := s.reviews[token := v], hidden := s.hidden + {token},
                      log := t.log + [Reviewed(token, v)])
    ensures Inv(f, s')
  {
    hide TokensOk, IssuedOk, HiddenOk, LogOk, RequestOk, RequestsOk, NewToken, ChangeOf, TokenOf;
    assert Rev(f, s) != "";
    WithinBound(f, s);
    NewTokenFacts(s, token, CommitAction, Rev(f, s), change.alias);
    NewTokenKeeps(f, s, token, CommitAction, Rev(f, s), change.alias);
    ReviewTokens(f, t, s', token, v);
    assert Grows(s, s');
    NotReviewed(f, s, token, v);
    LogAppend(f, s, s', Reviewed(token, v));
    NobodyHolds(f, s, token);
    AttachingOk(f, s', r, s'.requests[r]);
    forall x | x in s.requests && x != r ensures RequestOk(f, s', x, s.requests[x]) {
      OneRequest(f, s, x);
      HeldHidden(f, s, x, s.requests[x]);
      RequestLogged(f, s, s', x, s.requests[x], Reviewed(token, v));
    }
    AttachingHolds(s'.requests[r].phase);
    RequestsMove(f, s, s', r, s'.requests[r]);
  }

  lemma NotReviewed(f: C.Foreign, s: State, token: string, v: Review)
    requires LogOk(f, s) && token !in s.reviews
    ensures NewEntry(s.log, Reviewed(token, v))
  {
    hide FirstSubmit, ReviewedIn, ChangeOf, Unique, ReviewsLogged;
    forall i | 0 <= i < |s.log| && s.log[i].token == token ensures !s.log[i].Reviewed? {
      assert EntryOk(f, s, s.log[..i], s.log[i]);
    }
  }

  lemma AttachTokens(f: C.Foreign, s: State, s': State, token: string, change: Controls.Change)
    requires TokensOk(f, s) && IssuedOk(f, s) && HiddenOk(s)
    requires token in s.hidden && s.clock < s.issued[token].expires
    requires token in s.reviews && ChangeOf(f, s.reviews[token]) == Some(change)
    requires s'
             == s.(requests := s'.requests, tokens := WithChange(s.tokens, token, change), hidden := s.hidden - {token})
    ensures TokensOk(f, s') && IssuedOk(f, s') && HiddenOk(s')
  {
    hide ChangeOf;
    assert token in s.tokens && AsIssued(f, s, token, s.tokens[token]);
    AttachBounded(s.tokens, token, change);
    Unused(f, s);
    TokensStep(f, s, s', token);
    SameIssued(f, s, s');
  }

  lemma AttachKeeps(f: C.Foreign, s: State, r: nat)
    requires Inv(f, s) && r in s.requests && DoAttach(s, r).Some?
    ensures Inv(f, DoAttach(s, r).value)
  {
    hide TokensOk, IssuedOk, HiddenOk, LogOk, RequestsOk, ChangeOf;
    var s' := DoAttach(s, r).value;
    var p := s.requests[r].phase;
    HeldBy(f, s, r, p.token);
    AttachTokens(f, s, s', p.token, p.change);
    hide RequestOk;
    LogGrows(f, s, s');
    OverOk(f, s', r, s'.requests[r]);
    forall x | x in s.requests && x != r ensures RequestOk(f, s', x, s.requests[x]) {
      OneRequest(f, s, x);
      HeldHidden(f, s, x, s.requests[x]);
      AttachingHolds(s.requests[x].phase);
      RequestGrows(f, s, s', x, s.requests[x]);
    }
    RequestsMove(f, s, s', r, s'.requests[r]);
  }

  // ----- Commit -----

  lemma CallGood(f: C.Foreign, s: State, r: nat, q: Request, confirm: bool)
    requires LogOk(f, s) && q.phase.Handling? && RequestOk(f, s, r, q)
    requires q.phase.entry.change.Some? && (q.phase.entry.change.value.widen ==> confirm)
    ensures var x := Called(q.phase.token, q.phase.entry.change.value, q.phase.entry.revision, confirm, s.policy);
            CallOk(f, s, s.log, x) && NewEntry(s.log, x)
  {
    hide InvokedIn, ReviewedIn, ChangeOf, EntryOk, Unique;
    assert ReviewedIn(s.log, q.phase.token, s.reviews[q.phase.token]);
  }

  lemma SameCall(f: C.Foreign, s: State, s': State, x: Entry)
    requires x.Called? && CallOk(f, s, s.log, x) && s'.reviews == s.reviews && s'.issued == s.issued
    ensures CallOk(f, s', s.log, x)
  {
    hide InvokedIn, ReviewedIn, ChangeOf;
  }

  lemma CommitKeeps(f: C.Foreign, s: State, r: nat, confirm: bool)
    requires Inv(f, s) && r in s.requests && DoCommit(s, r, confirm).Some?
    ensures Inv(f, DoCommit(s, r, confirm).value)
  {
    hide TokensOk, IssuedOk, HiddenOk, LogOk, RequestOk, RequestsOk, CallOk, NewEntry;
    var s' := DoCommit(s, r, confirm).value;
    var q := s.requests[r];
    HeldBy(f, s, r, q.phase.token);
    if s'.log == s.log {
      StopMove(f, s, r);
    } else {
      var x := Called(q.phase.token, q.phase.entry.change.value, q.phase.entry.revision, confirm, s.policy);
      CallGood(f, s, r, q, confirm);
      SameCall(f, s, s', x);
      LogAppend(f, s, s', x);
      OverOk(f, s', r, s'.requests[r]);
      LoggedMove(f, s, s', r, s'.requests[r], x);
    }
  }

  // ----- Every step -----

  /** The policy changes, or time passes. */
  lemma OutsideKeeps(f: C.Foreign, s: State, s': State)
    requires Inv(f, s) && s.clock <= s'.clock && s' == s.(policy := s'.policy, clock := s'.clock)
    ensures Inv(f, s')
  {
    hide LogOk, RequestsOk, AsIssued, ReviewOk;
    LogGrows(f, s, s');
    RequestsStay(f, s, s');
    forall t | t in s'.tokens ensures AsIssued(f, s', t, s'.tokens[t]) { AsIssuedGrows(f, s, s', t, s.tokens[t]); }
    forall t | t in s'.reviews ensures ReviewOk(f, s', t) { ReviewStays(f, s, s', t); }
  }

  lemma ReviewStays(f: C.Foreign, s: State, s': State, t: string)
    requires t in s.reviews && t in s'.reviews && ReviewOk(f, s, t) && s'.reviews == s.reviews && s'.issued == s.issued
    ensures ReviewOk(f, s', t)
  {
  }

  lemma DoKeeps(f: C.Foreign, s: State, a: Action)
    requires Inv(f, s) && Revisions(f) && Do(f, s, a).Some?
    ensures Inv(f, Do(f, s, a).value)
  {
    hide Inv, NewToken, DoSubmit, DoCheck, DoLook, DoIssue, DoAttach, DoCommit, Revisions;
    match a
    case Page(token, action, target) => PageKeeps(f, s, token, action, target);
    case Submit(r, token, action, alias) => SubmitKeeps(f, s, r, token, action, alias);
    case Check(r) => CheckKeeps(f, s, r);
    case Look(r, kind, form, offered) => LookKeeps(f, s, r, kind, form, offered);
    case Issue(r, token) => IssueKeeps(f, s, r, token);
    case Attach(r) => AttachKeeps(f, s, r);
    case Commit(r, confirm) => CommitKeeps(f, s, r, confirm);
    case Policy(bytes) => OutsideKeeps(f, s, Do(f, s, a).value);
    case Advance(d) => OutsideKeeps(f, s, Do(f, s, a).value);
  }

  lemma {:induction false} RunKeeps(f: C.Foreign, s: State, actions: seq<Action>)
    requires Initial(s) && Revisions(f) && Run(f, s, actions).Some?
    ensures Inv(f, Run(f, s, actions).value)
  {
    hide Do, Revisions;
    if actions != [] {
      hide Inv;
      RunKeeps(f, s, actions[..|actions| - 1]);
      DoKeeps(f, Run(f, s, actions[..|actions| - 1]).value, actions[|actions| - 1]);
    }
  }

  // ----- What every run guarantees -----

  /**
   Over the whole run a token reaches at most one handler invocation, and only for the action,
   target and revision it was issued for and before its expiry; the table stays within 128.
   */
  lemma TokensSingleUse(f: C.Foreign, s: State, actions: seq<Action>, i: nat, j: nat)
    requires Initial(s) && Revisions(f) && Run(f, s, actions).Some?
    requires var log := Run(f, s, actions).value.log; i < |log| && j < |log| && log[i].Invoked? && log[j].Invoked?
    ensures var t := Run(f, s, actions).value;
            && |t.tokens| <= MaxTokens
            && (t.log[i].token == t.log[j].token ==> i == j)
            && t.log[i].token in t.issued
            && var e := t.issued[t.log[i].token];
               e.action == t.log[i].action && (e.target != "" ==> t.log[i].alias == e.target)
               && t.log[i].rev == e.revision && t.log[i].at < e.expires
  {
    hide Run, RequestsOk, HiddenOk, IssuedOk, FirstSubmit, ReviewsLogged;
    RunKeeps(f, s, actions);
    var t := Run(f, s, actions).value;
    assert EntryOk(f, t, t.log[..i], t.log[i]);
  }

  /**
   A submission consumes the token whatever comes of it: an invocation that follows a submission
   of the same token belongs to the first submission of that token, and that one took it. So
   after a mismatched first attempt the token reaches no handler.
   */
  lemma SubmissionConsumes(f: C.Foreign, s: State, actions: seq<Action>, i: nat, j: nat)
    requires Initial(s) && Revisions(f) && Run(f, s, actions).Some?
    requires var log := Run(f, s, actions).value.log;
             i < j < |log| && log[i].Submitted? && log[j].Invoked? && log[i].token == log[j].token
    ensures var log := Run(f, s, actions).value.log;
            exists k :: 0 <= k <= i && log[k] == Submitted(log[j].r, log[j].token, true)
                        && forall x :: 0 <= x < k ==> !(log[x].Submitted? && log[x].token == log[j].token)
  {
    hide Run, RequestsOk, HiddenOk, IssuedOk, ReviewsLogged, TokensOk, Unique;
    RunKeeps(f, s, actions);
    var t := Run(f, s, actions).value;
    assert EntryOk(f, t, t.log[..j], t.log[j]);
    var b, r, token := t.log[..j], t.log[j].r, t.log[j].token;
    var k :| 0 <= k < |b| && b[k] == Submitted(r, token, true)
             && forall x :: 0 <= x < k ==> !(b[x].Submitted? && b[x].token == token);
    assert b[i] == t.log[i] && t.log[k] == b[k] && forall x :: 0 <= x < k ==> t.log[x] == b[x];
  }

  /**
   Every editor call of commit has exactly one review before it in the log. Its change is what
   the review builds from the form and the policy it read, whose digest is the revision the call
   is guarded by; a review is called at most once, and confirmed whenever the change widens.
   */
  lemma CommitsReviewed(f: C.Foreign, s: State, actions: seq<Action>, j: nat) returns (i: nat)
    requires Initial(s) && Revisions(f) && Run(f, s, actions).Some?
    requires var log := Run(f, s, actions).value.log; j < |log| && log[j].Called?
    ensures var log := Run(f, s, actions).value.log;
            var call := log[j];
            && i < j && log[i].Reviewed? && log[i].token == call.token
            && (forall k :: 0 <= k < |log| && log[k].Reviewed? && log[k].token == call.token ==> k == i)
            && (forall k :: 0 <= k < |log| && log[k].Called? && log[k].token == call.token ==> k == j)
            && ChangeOf(f, log[i].review) == Some(call.change)
            && call.revision == f.digest(log[i].review.policy)
            && (call.change.widen ==> call.confirmed)
  {
    hide Run, RequestsOk, HiddenOk, TokensOk, FirstSubmit, ChangeOf, ReviewsLogged;
    RunKeeps(f, s, actions);
    var t := Run(f, s, actions).value;
    var call := t.log[j];
    assert EntryOk(f, t, t.log[..j], call);
    assert ReviewOk(f, t, call.token);
    var v := t.reviews[call.token];
    i :| 0 <= i < |t.log[..j]| && t.log[..j][i] == Reviewed(call.token, v);
    assert t.log[i] == t.log[..j][i];
  }
}
