/**
 The form tokens of the administrator web server, internal/adminweb/server.go: a bounded table
 of expiring, single-use tokens, each bound to an action, a target and a policy revision.
 The clock is read once per critical section and never shows the zero time.
 */
module WebTokens {
  import opened Basics
  import Controls

  const MaxTokens := 128
  const Lifetime := 600

  datatype FormToken = FormToken(action: string, login: string, revision: string, target: string, expires: int,
                                 change: Option<Controls.Change>)

  /** Go's zero value of a missing map entry; its expiry is the zero time. */
  const ZeroToken := FormToken("", "", "", "", 0, None)

  type Tokens = map<string, FormToken>

  function Pruned(t: Tokens, now: int): Tokens { map k | k in t && now < t[k].expires :: t[k] }

  function WithToken(t: Tokens, now: int, token: string, action: string, login: string, revision: string,
                     target: string): Option<Tokens> {
    if |Pruned(t, now)| >= MaxTokens then None
    else Some(Pruned(t, now)[token := FormToken(action, login, revision, target, now + Lifetime, None)])
  }

  /** takeToken: the entry, if there is one and it fits; the token is gone either way. */
  function Taken(t: Tokens, now: int, token: string, action: string, login: string): Option<FormToken> {
    if token in Pruned(t, now) && t[token].action == action && t[token].login == login then Some(t[token]) else None
  }

  function Remaining(t: Tokens, now: int, token: string): Tokens { Pruned(t, now) - {token} }

  /** The second critical section of review. */
  function WithChange(t: Tokens, token: string, change: Controls.Change): Tokens {
    t[token := (if token in t then t[token] else ZeroToken).(change := Some(change))]
  }

  class TokenTable {
    var tokens: Tokens
    const login: string

    constructor (login: string)
      ensures tokens == map[] && this.login == login
    {
      tokens := map[];
      this.login := login;
    }

    /** pruneTokens: deletes while iterating. */
    method Prune(now: int)
      modifies this`tokens
      ensures tokens == Pruned(old(tokens), now)
    {
      var todo := tokens.Keys;
      while todo != {}
        invariant todo <= tokens.Keys <= old(tokens).Keys
        invariant forall k :: k in tokens ==> tokens[k] == old(tokens)[k]
        invariant forall k :: k in old(tokens) && k !in todo ==> (k in tokens <==> now < old(tokens)[k].expires)
        decreases |todo|
      {
        var k :| k in todo;
        todo := todo - {k};
        if !(now < tokens[k].expires) {
          tokens := tokens - {k};
        }
      }
      assert tokens == Pruned(old(tokens), now);
    }

    /** issueTargetToken, with the random token as a parameter. */
    method Issue(action: string, revision: string, target: string, random: string,
                 now: int) returns (token: Option<string>)
      modifies this`tokens
      ensures token.Some? <==> WithToken(old(tokens), now, random, action, login, revision, target).Some?
      ensures token.Some? ==> token.value == random
                              && tokens == WithToken(old(tokens), now, random, action, login, revision, target).value
      ensures token.None? ==> tokens == Pruned(old(tokens), now)
    {
      Prune(now);
      if |tokens| >= MaxTokens { return None; }
      tokens := tokens[random := FormToken(action, login, revision, target, now + Lifetime, None)];
      token := Some(random);
    }

    method Take(token: string, action: string, now: int) returns (entry: Option<FormToken>)
      modifies this`tokens
      ensures entry == Taken(old(tokens), now, token, action, login)
      ensures tokens == Remaining(old(tokens), now, token)
    {
      Prune(now);
      entry := if token in tokens && tokens[token].action == action && tokens[token].login == login
               then Some(tokens[token]) else None;
      tokens := tokens - {token};
    }

    method Attach(token: string, change: Controls.Change)
      modifies this`tokens
      ensures tokens == WithChange(old(tokens), token, change)
    {
      var entry := if token in tokens then tokens[token] else ZeroToken;
      tokens := tokens[token := entry.(change := Some(change))];
    }
  }

  // ----- Size -----

  lemma PrunedCount(t: Tokens, now: int)
    ensures |Pruned(t, now)| <= |t|
  {
    MapCount(t);
    MapCount(Pruned(t, now));
    SubsetCount(Pruned(t, now).Keys, t.Keys);
  }

  lemma AddedCount(t: Tokens, token: string, entry: FormToken)
    ensures |t[token := entry]| == |t| + (if token in t then 0 else 1)
  {
    MapCount(t);
    MapCount(t[token := entry]);
    if token in t {
      assert t[token := entry].Keys == t.Keys;
    } else {
      assert t[token := entry].Keys == t.Keys + {token};
    }
  }

  lemma RemovedCount(t: Tokens, now: int, token: string)
    ensures |Remaining(t, now, token)| <= |t|
  {
    PrunedCount(t, now);
    MapCount(Pruned(t, now));
    MapCount(Remaining(t, now, token));
    SubsetCount(Remaining(t, now, token).Keys, Pruned(t, now).Keys);
  }

  /** Issuing and taking keep the table within its bound. */
  lemma TableBounded(t: Tokens, now: int, token: string, action: string, login: string, revision: string,
                     target: string)
    requires |t| <= MaxTokens
    ensures |Pruned(t, now)| <= MaxTokens && |Remaining(t, now, token)| <= MaxTokens
    ensures WithToken(t, now, token, action, login, revision, target).Some? ==>
              |WithToken(t, now, token, action, login, revision, target).value| <= MaxTokens
  {
    PrunedCount(t, now);
    RemovedCount(t, now, token);
    AddedCount(Pruned(t, now), token, FormToken(action, login, revision, target, now + Lifetime, None));
  }

  /**
   Attaching a change can exceed the bound, when the token has meanwhile been pruned: the
   bound holds afterwards if and only if the token is still there or there is room for it.
   */
  lemma AttachBounded(t: Tokens, token: string, change: Controls.Change)
    requires |t| <= MaxTokens
    ensures |WithChange(t, token, change)| <= MaxTokens <==> token in t || |t| < MaxTokens
  {
    AddedCount(t, token, (if token in t then t[token] else ZeroToken).(change := Some(change)));
  }

  /** An entry that such a late attachment revives can never be taken, and is gone at the next access. */
  lemma RevivedIsDead(t: Tokens, token: string, change: Controls.Change, now: int, action: string, login: string)
    requires token !in t && now >= 0
    ensures Taken(WithChange(t, token, change), now, token, action, login).None?
    ensures Pruned(WithChange(t, token, change), now) == Pruned(t, now)
  {
  }

  /**
   A token can be issued exactly while fewer than 128 are unexpired, and is taken exactly by a
   submission for its action and login within ten minutes.
   */
  lemma IssuedLives(t: Tokens, now: int, token: string, action: string, login: string, revision: string,
                    target: string, later: int, action': string, login': string)
    ensures var u := WithToken(t, now, token, action, login, revision, target);
            && (u.Some? <==> |Pruned(t, now)| < 128)
            && (u.Some? ==>
                  && (Taken(u.value, later, token, action', login').Some? <==>
                        later < now + 600 && action' == action && login' == login)
                  && (Taken(u.value, later, token, action', login').Some? ==>
                        Taken(u.value, later, token, action', login').value
                        == FormToken(action, login, revision, target, now + 600, None)))
  {
    var u := WithToken(t, now, token, action, login, revision, target);
    if u.Some? { assert token in u.value && u.value[token].expires == now + 600; }
  }

  // ----- A late attachment -----

  /** Tokens of these names issued one after the other. */
  function IssueAll(t: Tokens, now: int, names: seq<string>, action: string, login: string, revision: string,
                    target: string): Option<Tokens>
  {
    if names == [] then Some(t)
    else match IssueAll(t, now, names[..|names| - 1], action, login, revision, target)
      case None => None
      case Some(some) => WithToken(some, now, names[|names| - 1], action, login, revision, target)
  }

  predicate Distinct(names: seq<string>) { forall i, j :: 0 <= i < j < |names| ==> names[i] != names[j] }

  lemma NonePruned(t: Tokens, now: int)
    requires forall k :: k in t ==> now < t[k].expires
    ensures Pruned(t, now) == t
  {
  }

  /** Up to 128 tokens can be issued; the table then holds exactly these, and what has expired is gone. */
  lemma {:induction false} AllIssued(t: Tokens, now: int, names: seq<string>, action: string, login: string,
                                     revision: string, target: string)
    requires Pruned(t, now) == map[] && Distinct(names) && 0 < |names| <= MaxTokens
    ensures IssueAll(t, now, names, action, login, revision, target).Some?
    ensures var u := IssueAll(t, now, names, action, login, revision, target).value;
            && |u| == |names| && (forall k :: k in u <==> k in names)
            && forall k :: k in u ==> now < u[k].expires
    decreases |names|
  {
    hide Pruned;
    var front, last := names[..|names| - 1], names[|names| - 1];
    assert names == front + [last];
    var entry := FormToken(action, login, revision, target, now + Lifetime, None);
    if front == [] {
      assert names == [last];
      AddedCount(map[], last, entry);
    } else {
      AllIssued(t, now, front, action, login, revision, target);
      var some := IssueAll(t, now, front, action, login, revision, target).value;
      NonePruned(some, now);
      AddedCount(some, last, entry);
    }
  }

  lemma OneExpired(t: Tokens, token: string, issued: int, now: int)
    requires t.Keys == {token} && t[token].expires == issued + Lifetime && issued + Lifetime <= now
    ensures Pruned(t, now) == map[]
  {
  }

  /**
   The bound does fail in a table that issuing produces: a review issues its token, the token
   expires, 128 other tokens are issued, and then the review attaches its change.
   */
  lemma LateAttachExceeds(token: string, issued: int, now: int, names: seq<string>, action: string, login: string,
                          revision: string, target: string, change: Controls.Change)
    requires issued + Lifetime <= now && Distinct(names) && |names| == MaxTokens && token !in names
    ensures WithToken(map[], issued, token, action, login, revision, target).Some?
    ensures var t := WithToken(map[], issued, token, action, login, revision, target).value;
            var u := IssueAll(t, now, names, action, login, revision, target);
            && u.Some? && |u.value| == MaxTokens && |WithChange(u.value, token, change)| == MaxTokens + 1
  {
    var t := WithToken(map[], issued, token, action, login, revision, target).value;
    OneExpired(t, token, issued, now);
    AllIssued(t, now, names, action, login, revision, target);
    var u := IssueAll(t, now, names, action, login, revision, target).value;
    AddedCount(u, token, ZeroToken.(change := Some(change)));
  }
}
