/**
 The broker of internal/broker/broker.go: the decision matrix, Run as a sequence of effects,
 and DryRun as its prediction.
 */
module Broker {
  import opened Basics
  import opened Prompt
  import C = Config
  import A = Approver

  datatype Verdict = Deny | Allow | Ask

  const ReasonUnknownProject := "unknown_project"
  const ReasonNotAllowlisted := "not_allowlisted"
  const ReasonApprovalRejected := "approval_rejected"
  const ReasonTokenResolutionFailed := "token_resolution_failed"
  const ReasonRunnerStartFailed := "runner_start_failed"
  const ReasonAuditUnavailable := "audit_unavailable"
  const ReasonWorkingDirectoryNotAllowed := "working_directory_not_allowed"

  // ----- The decision matrix -----

  /** decide. */
  function Decide(p: C.Project, argv: seq<string>): Verdict {
    if p.approval == C.ApprovalAlways then Ask
    else if argv in p.allow && p.approval == C.ApprovalAllowlistedPrompt then Ask
    else if argv in p.allow then Allow
    else if p.approval == C.ApprovalPrompt then Ask
    else Deny
  }

  /** How the file system resolves a directory; None if it cannot. */
  type Directories = string -> Option<string>

  /** sameWorkingDir. */
  predicate SameDir(dirs: Directories, allowed: string, requested: string) {
    requested != "" && dirs(allowed).Some? && dirs(allowed) == dirs(requested)
  }

  /** The project exists and accepts the working directory. */
  predicate Admitted(cfg: C.Config, req: Command, dirs: Directories) {
    var i := C.IndexOf(cfg.projects, req.project);
    && i < |cfg.projects|
    && (cfg.projects[i].workingDir == "" || SameDir(dirs, cfg.projects[i].workingDir, req.workingDir))
  }

  /** DryRun. */
  function DryRun(cfg: C.Config, req: Command, dirs: Directories): Verdict {
    if !Admitted(cfg, req, dirs) then Deny
    else Decide(cfg.projects[C.IndexOf(cfg.projects, req.project)], req.argv)
  }

  /**
   For a validated policy the matrix is: an allowlisted command runs unasked in the modes
   never and prompt, and an unlisted one can run only in the modes prompt and always, asked.
   */
  lemma Matrix(p: C.Project, argv: seq<string>)
    requires C.ValidProject(p)
    ensures Decide(p, argv) == Allow <==> argv in p.allow && p.approval in {C.ApprovalNever, C.ApprovalPrompt}
    ensures Decide(p, argv) == Deny
            <==> argv !in p.allow && p.approval in {C.ApprovalNever, C.ApprovalAllowlistedPrompt}
    ensures Decide(p, argv) == Ask <==> p.approval == C.ApprovalAlways
                                        || (argv in p.allow && p.approval == C.ApprovalAllowlistedPrompt)
                                        || (argv !in p.allow && p.approval == C.ApprovalPrompt)
  {
    Modes();
  }

  lemma Modes()
    ensures C.ApprovalAlways[0] == 'a' && C.ApprovalAlways[2] == 'w' && C.ApprovalPrompt[0] == 'p'
    ensures C.ApprovalAllowlistedPrompt[0] == 'a' && C.ApprovalAllowlistedPrompt[2] == 'l' && C.ApprovalNever[0] == 'n'
  {
  }

  // ----- Run -----

  datatype Effect =
    | Started
    | Asked(prompt: string)
    | Resolved(entry: string)
    | Ran(projectId: string, token: string, workingDir: string, argv: seq<string>)
    | Finished(outcome: string, exitCode: Option<int>)

  datatype Outcome = Outcome(denied: bool, reason: string, exitCode: int, auditIncomplete: bool)

  /** What the collaborators answer, should they be called. */
  datatype Answers = Answers(
    startOk: bool, finishOk: bool,
    decision: A.Decision, approveFailed: bool,
    token: Option<string>, exitCode: Option<int>)

  /** start, then optionally approve, resolve and run in that order, then one finish. */
  predicate Shape(trace: seq<Effect>, asked: bool, resolved: bool, ran: bool) {
    var a, r, x := if asked then 1 else 0, if resolved then 1 else 0, if ran then 1 else 0;
    && |trace| == 2 + a + r + x
    && trace[0].Started? && trace[|trace| - 1].Finished?
    && (asked ==> trace[1].Asked?) && (resolved ==> trace[1 + a].Resolved?) && (ran ==> trace[1 + a + r].Ran?)
  }

  predicate Approves(a: Answers) { a.decision == A.Approved && !a.approveFailed }

  /** The command may be run: permitted outright, or asked about and approved. */
  predicate Cleared(verdict: Verdict, a: Answers) { verdict == Allow || (verdict == Ask && Approves(a)) }

  /** The one reason for a denial: the first condition that is not met. */
  function Reason(cfg: C.Config, req: Command, dirs: Directories, a: Answers): string {
    var verdict := DryRun(cfg, req, dirs);
    if C.IndexOf(cfg.projects, req.project) == |cfg.projects| then ReasonUnknownProject
    else if !Admitted(cfg, req, dirs) then ReasonWorkingDirectoryNotAllowed
    else if verdict == Deny then ReasonNotAllowlisted
    else if !Cleared(verdict, a) then ReasonApprovalRejected
    else if a.token.None? then ReasonTokenResolutionFailed
    else ReasonRunnerStartFailed
  }

  /**
   The reasons in the order in which they apply: an unknown project; a directory that does not
   resolve to the project's; a verdict of the matrix; no approval; no token; no start.
   */
  lemma Reasons(cfg: C.Config, req: Command, dirs: Directories, a: Answers)
    requires C.ValidProjects(cfg.projects)
    ensures (forall k :: 0 <= k < |cfg.projects| ==> cfg.projects[k].alias != req.project) ==>
              Reason(cfg, req, dirs, a) == "unknown_project"
    ensures forall k :: 0 <= k < |cfg.projects| && cfg.projects[k].alias == req.project ==>
              var p := cfg.projects[k];
              var same := p.workingDir == ""
                          || (req.workingDir != "" && dirs(p.workingDir).Some?
                              && dirs(req.workingDir) == dirs(p.workingDir));
              var unlisted := req.argv !in p.allow && p.approval in {C.ApprovalNever, C.ApprovalAllowlistedPrompt};
              var free := req.argv in p.allow && p.approval in {C.ApprovalNever, C.ApprovalPrompt};
              Reason(cfg, req, dirs, a)
              == if !same then "working_directory_not_allowed"
                 else if unlisted then "not_allowlisted"
                 else if !free && (a.decision != A.Approved || a.approveFailed) then "approval_rejected"
                 else if a.token.None? then "token_resolution_failed" else "runner_start_failed"
  {
    forall k | 0 <= k < |cfg.projects| && cfg.projects[k].alias == req.project
      ensures k == C.IndexOf(cfg.projects, req.project) && C.ValidProject(cfg.projects[k])
    {
      assert C.UniqueAliases(cfg.projects);
    }
    hide C.IndexOf, C.ValidProjects, C.ValidProject, Decide;
    forall k | 0 <= k < |cfg.projects| && cfg.projects[k].alias == req.project { Matrix(cfg.projects[k], req.argv); }
  }

  method Run(cfg: C.Config, req: Command, dirs: Directories, a: Answers, wide: nat -> bool)
    returns (o: Outcome, trace: seq<Effect>)
    requires IsCommand(req)
    ensures !a.startOk ==> trace == [Started] && o.denied && o.reason == ReasonAuditUnavailable
    ensures a.startOk ==>
              var verdict := DryRun(cfg, req, dirs);
              var ran := Cleared(verdict, a) && a.token.Some?;
              && Shape(trace, verdict == Ask, Cleared(verdict, a), ran)
              && (verdict == Ask ==>
                    trace[1] == Asked(PromptText(req, wide)) && ParsePrompt(trace[1].prompt) == Some(req))
              && (Cleared(verdict, a) ==>
                    var p := cfg.projects[C.IndexOf(cfg.projects, req.project)];
                    && p.alias == req.project
                    && (p.workingDir == ""
                        || (req.workingDir != "" && dirs(p.workingDir).Some?
                            && dirs(req.workingDir) == dirs(p.workingDir)))
                    && trace[if verdict == Ask then 2 else 1] == Resolved(p.tokenEntry)
                    && (ran ==>
                          trace[|trace| - 2] == Ran(p.bwsProjectId, a.token.value, req.workingDir, req.argv)))
              && (o.denied <==> !ran || a.exitCode.None?)
              && trace[|trace| - 1]
                 == (if o.denied then Finished("denied:" + o.reason, None) else Finished("executed", a.exitCode))
              && o.auditIncomplete == !a.finishOk
              && (o.denied ==> o.reason == Reason(cfg, req, dirs, a)) && (!o.denied ==> o.exitCode == a.exitCode.value)
  {
    hide PromptText, ParsePrompt, IsCommand, Decide;
    trace := [Started];
    if !a.startOk { return Outcome(true, ReasonAuditUnavailable, 0, false), trace; }
    var found := C.LookupProject(cfg, req.project);
    if found.None? {
      return Outcome(true, ReasonUnknownProject, 0, !a.finishOk),
             trace + [Finished("denied:" + ReasonUnknownProject, None)];
    }
    var project := found.value;
    if project.workingDir != "" && !SameDir(dirs, project.workingDir, req.workingDir) {
      return Outcome(true, ReasonWorkingDirectoryNotAllowed, 0, !a.finishOk),
             trace + [Finished("denied:" + ReasonWorkingDirectoryNotAllowed, None)];
    }
    var verdict := Decided(project, req.argv);
    match verdict {
      case Deny =>
        return Outcome(true, ReasonNotAllowlisted, 0, !a.finishOk),
               trace + [Finished("denied:" + ReasonNotAllowlisted, None)];
      case Ask =>
        var prompt := FormatPrompt(req.project, req.workingDir, req.argv, wide);
        trace := trace + [Asked(prompt)];
        if a.approveFailed || a.decision != A.Approved {
          return Outcome(true, ReasonApprovalRejected, 0, !a.finishOk),
                 trace + [Finished("denied:" + ReasonApprovalRejected, None)];
        }
      case Allow =>
    }
    trace := trace + [Resolved(project.tokenEntry)];
    if a.token.None? {
      return Outcome(true, ReasonTokenResolutionFailed, 0, !a.finishOk),
             trace + [Finished("denied:" + ReasonTokenResolutionFailed, None)];
    }
    trace := trace + [Ran(project.bwsProjectId, a.token.value, req.workingDir, req.argv)];
    if a.exitCode.None? {
      return Outcome(true, ReasonRunnerStartFailed, 0, !a.finishOk),
             trace + [Finished("denied:" + ReasonRunnerStartFailed, None)];
    }
    trace := trace + [Finished("executed", a.exitCode)];
    o := Outcome(false, "", a.exitCode.value, !a.finishOk);
  }

  /** decide, with its search through the allowlist. */
  method Decided(p: C.Project, argv: seq<string>) returns (v: Verdict)
    ensures v == Decide(p, argv)
  {
    if p.approval == C.ApprovalAlways { return Ask; }
    var allowlisted := C.Match(p.allow, argv);
    if allowlisted && p.approval == C.ApprovalAllowlistedPrompt { return Ask; }
    if allowlisted { return Allow; }
    if p.approval == C.ApprovalPrompt { return Ask; }
    v := Deny;
  }
}
