/**
 A contended policy lock: lockPolicy of internal/admin/policy.go in the runs of the editor
 machine. An editor that is guarded by a revision (the web server) does not wait for a held
 lock but fails at once; an unguarded one (the command line) waits until the holder has stopped.
 */
module Contention {
  import opened Basics
  import opened Edits
  import opened EditorMachine

  /** Some editor other than e holds the lock of this file. */
  predicate HeldByOther(s: State, e: nat, target: nat) {
    exists h :: h in s.editors && h != e && LockOf(s.editors[h].phase) == Some(target)
  }

  /** In every run the lock table is what the editors' phases say. */
  lemma LockedExactly(env: Env, s: State, actions: seq<Action>, e: nat)
    requires Initial(env, s) && Run(env, s, actions).Some?
    requires e in Run(env, s, actions).value.editors && Run(env, s, actions).value.editors[e].phase.Opened?
    ensures var t := Run(env, s, actions).value;
            var target := t.editors[e].phase.target;
            target in t.locks <==> HeldByOther(t, e, target)
  {
    hide Run, Initial, Inv;
    RunKeeps(env, s, actions);
    LocksFacts(env, Run(env, s, actions).value);
  }

  lemma FlockIs(env: Env, s: State, e: nat)
    requires s.files != [] && e in s.editors && s.editors[e].phase.Opened?
    ensures Do(env, s, Flock(e)) == DoLock(env, s, Flock(e), e, s.editors[e])
  {
    hide DoLock;
  }

  /** A guarded editor that finds the lock held fails, and nothing but its own phase changes. */
  lemma GuardedFails(env: Env, s: State, actions: seq<Action>, e: nat)
    requires Initial(env, s) && Run(env, s, actions).Some?
    requires var t := Run(env, s, actions).value;
             && e in t.editors && t.editors[e].phase.Opened? && t.editors[e].revision != ""
             && HeldByOther(t, e, t.editors[e].phase.target)
    ensures var t := Run(env, s, actions).value;
            Do(env, t, Flock(e)) == Some(t.(editors := t.editors[e := t.editors[e].(phase := Failed(None))]))
  {
    hide Run, Initial, Inv, HeldByOther;
    RunKeeps(env, s, actions);
    var t := Run(env, s, actions).value;
    LocksFacts(env, t);
    LockedExactly(env, s, actions, e);
    FlockIs(env, t, e);
    hide Do;
  }

  /** An unguarded editor that finds the lock held waits: it has no step of this kind. */
  lemma UnguardedWaits(env: Env, s: State, actions: seq<Action>, e: nat)
    requires Initial(env, s) && Run(env, s, actions).Some?
    requires var t := Run(env, s, actions).value;
             && e in t.editors && t.editors[e].phase.Opened? && t.editors[e].revision == ""
             && HeldByOther(t, e, t.editors[e].phase.target)
    ensures Do(env, Run(env, s, actions).value, Flock(e)) == None
  {
    hide Run, Initial, Inv, HeldByOther;
    RunKeeps(env, s, actions);
    var t := Run(env, s, actions).value;
    LocksFacts(env, t);
    LockedExactly(env, s, actions, e);
    FlockIs(env, t, e);
    hide Do;
  }

  /** Whoever finds the lock free takes it, guarded or not. */
  lemma FreeIsTaken(env: Env, s: State, actions: seq<Action>, e: nat)
    requires Initial(env, s) && Run(env, s, actions).Some?
    requires var t := Run(env, s, actions).value;
             && e in t.editors && t.editors[e].phase.Opened? && !HeldByOther(t, e, t.editors[e].phase.target)
    ensures var t := Run(env, s, actions).value;
            var p := t.editors[e].phase;
            Do(env, t, Flock(e))
            == Some(t.(editors := t.editors[e := t.editors[e].(phase := Holding(p.src, p.u, p.target))],
                       locks := t.locks[p.target := e]))
  {
    hide Run, Initial, Inv, HeldByOther;
    RunKeeps(env, s, actions);
    var t := Run(env, s, actions).value;
    LocksFacts(env, t);
    LockedExactly(env, s, actions, e);
    FlockIs(env, t, e);
    hide Do;
  }

  /** Once the holder has ended, in success, failure or a crash, a waiting editor takes the lock. */
  lemma WaitEnds(env: Env, s: State, actions: seq<Action>, a: Action, e: nat, h: nat)
    requires Initial(env, s) && Run(env, s, actions).Some? && Run(env, s, actions + [a]).Some? && a.e == h != e
    requires var t := Run(env, s, actions).value;
             && e in t.editors && t.editors[e].phase.Opened?
             && h in t.editors && LockOf(t.editors[h].phase) == Some(t.editors[e].phase.target)
    requires var t := Run(env, s, actions + [a]).value; h in t.editors && Final(t.editors[h].phase)
    ensures var t := Run(env, s, actions + [a]).value;
            && e in t.editors && t.editors[e].phase == Run(env, s, actions).value.editors[e].phase
            && Do(env, t, Flock(e)).Some? && e in Do(env, t, Flock(e)).value.editors
            && Do(env, t, Flock(e)).value.editors[e].phase.Holding?
  {
    hide Inv, Do, Initial;
    assert (actions + [a])[..|actions|] == actions;
    var t, t' := Run(env, s, actions).value, Run(env, s, actions + [a]).value;
    RunKeeps(env, s, actions);
    RunKeeps(env, s, actions + [a]);
    LocksFacts(env, t);
    hide Run;
    var target := t.editors[e].phase.target;
    forall x | x in t'.editors && x != h ensures x in t.editors && t'.editors[x] == t.editors[x] {
      OthersStay(env, t, a, x);
    }
    OthersIn(env, t, a, e);
    FinalUnlocked(t'.editors[h].phase);
    forall x | x in t'.editors && x != e ensures LockOf(t'.editors[x].phase) != Some(target) {
      OneHolder(t, x, h, target);
    }
    FreeIsTaken(env, s, actions + [a], e);
  }

  lemma FinalUnlocked(p: Phase)
    requires Final(p)
    ensures LockOf(p).None?
  {
  }

  lemma OneHolder(s: State, x: nat, h: nat, target: nat)
    requires LocksOk(s) && h in s.editors && LockOf(s.editors[h].phase) == Some(target)
    ensures x in s.editors && LockOf(s.editors[x].phase) == Some(target) ==> x == h
  {
    hide LockOf;
  }

  /** A step of an editor that is at work moves no other and starts none. */
  lemma OthersStay(env: Env, s: State, a: Action, x: nat)
    requires Do(env, s, a).Some? && a.e in s.editors && x in Do(env, s, a).value.editors && x != a.e
    ensures x in s.editors && Do(env, s, a).value.editors[x] == s.editors[x]
  {
    NotStarting(env, s, a);
    hide Do;
    DoMoves(env, s, a);
  }

  lemma OthersIn(env: Env, s: State, a: Action, x: nat)
    requires Do(env, s, a).Some? && a.e in s.editors && x in s.editors
    ensures x in Do(env, s, a).value.editors
  {
    NotStarting(env, s, a);
    hide Do;
    DoMoves(env, s, a);
  }

  lemma NotStarting(env: Env, s: State, a: Action)
    requires Do(env, s, a).Some? && a.e in s.editors
    ensures !a.Start?
  {
    hide DoRead, DoPublish, DoLock, DoTemp, DoReplace, DoStop, Fits;
  }

  /** An editor fails at the lock if and only if it is guarded and another editor holds the lock. */
  lemma FailsAtLockExactly(env: Env, s: State, actions: seq<Action>, e: nat)
    requires Initial(env, s) && Run(env, s, actions).Some?
    requires e in Run(env, s, actions).value.editors && Run(env, s, actions).value.editors[e].phase.Opened?
    ensures var t := Run(env, s, actions).value;
            var r := Do(env, t, Flock(e));
            r.Some? && e in r.value.editors && r.value.editors[e].phase.Failed?
            <==> t.editors[e].revision != "" && HeldByOther(t, e, t.editors[e].phase.target)
  {
    hide Run, Initial, Do, HeldByOther;
    var t := Run(env, s, actions).value;
    if HeldByOther(t, e, t.editors[e].phase.target) {
      if t.editors[e].revision != "" {
        GuardedFails(env, s, actions, e);
      } else {
        UnguardedWaits(env, s, actions, e);
      }
    } else {
      FreeIsTaken(env, s, actions, e);
    }
  }
}
