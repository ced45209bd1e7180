/** The policy decision: denylist first, then the allowlist, then the need for approval. */
module Policy {
  import opened Common
  import opened Events
  import opened Denylist

  datatype ProfileAllow = ProfileAllow(name: string, mode: Mode, allowedExec: seq<string>)

  datatype Intent = Intent(path: string, access: Access)

  datatype Request = Request(profile: string, mode: Mode, exec: string, risk: Risk,
                             commands: seq<string>, paths: seq<Intent>)

  /** The loaded allowlist and the command patterns (a regular-expression engine) of the denylist. */
  datatype Engine = Engine(allowlist: seq<ProfileAllow>, rules: seq<Rule>, commandDenied: string -> bool)

  datatype Outcome =
    | Allowed
    | NeedsApproval(twoPerson: bool)
    | Denied(why: DenyMatch)
    | NotAllowed

  /** The first profile of that name. */
  function FindProfile(allowlist: seq<ProfileAllow>, name: string): Option<ProfileAllow> {
    if allowlist == [] then None
    else if allowlist[0].name == name then Some(allowlist[0])
    else FindProfile(allowlist[1..], name)
  }

  predicate IsAllowed(allowlist: seq<ProfileAllow>, profile: string, exec: string, mode: Mode) {
    match FindProfile(allowlist, profile)
    case Some(p) => p.mode == mode && exec in p.allowedExec
    case None => false
  }

  function FirstDeniedCommand(e: Engine, commands: seq<string>): Option<DenyMatch> {
    if commands == [] then None
    else if e.commandDenied(commands[0]) then Some(ByCommand(commands[0]))
    else FirstDeniedCommand(e, commands[1..])
  }

  function FirstDeniedPath(e: Engine, paths: seq<Intent>): Option<DenyMatch> {
    if paths == [] then None
    else
      match CheckPath(e.rules, paths[0].path, paths[0].access)
      case Some(m) => Some(m)
      case None => FirstDeniedPath(e, paths[1..])
  }

  function Evaluate(e: Engine, r: Request): Outcome {
    match FirstDeniedCommand(e, r.commands)
    case Some(m) => Denied(m)
    case None =>
      match FirstDeniedPath(e, r.paths)
      case Some(m) => Denied(m)
      case None =>
        if !IsAllowed(e.allowlist, r.profile, r.exec, r.mode) then NotAllowed
        else if r.mode.RequiresHumanApproval() then NeedsApproval(r.risk == Critical)
        else if r.risk == Critical then NeedsApproval(true)
        else Allowed
  }

  // ----- What the decision means ----------------------------------------------------

  ghost predicate SomeCommandDenied(e: Engine, commands: seq<string>) {
    exists i :: 0 <= i < |commands| && e.commandDenied(commands[i])
  }

  ghost predicate SomePathDenied(e: Engine, paths: seq<Intent>) {
    exists i :: 0 <= i < |paths| && CheckPath(e.rules, paths[i].path, paths[i].access).Some?
  }

  /** The first profile of that name is for this mode and lists the executable. */
  ghost predicate Lists(allowlist: seq<ProfileAllow>, i: int, profile: string, exec: string, mode: Mode) {
    && 0 <= i < |allowlist|
    && allowlist[i].name == profile && allowlist[i].mode == mode && exec in allowlist[i].allowedExec
    && forall j :: 0 <= j < i ==> allowlist[j].name != profile
  }

  lemma {:induction false} AllowedMeaning(allowlist: seq<ProfileAllow>, profile: string, exec: string, mode: Mode)
    ensures IsAllowed(allowlist, profile, exec, mode) <==> exists i :: Lists(allowlist, i, profile, exec, mode)
  {
    if allowlist != [] {
      var rest := allowlist[1..];
      if allowlist[0].name == profile {
        if IsAllowed(allowlist, profile, exec, mode) {
          assert Lists(allowlist, 0, profile, exec, mode);
        }
        forall i | Lists(allowlist, i, profile, exec, mode) ensures i == 0 {
          assert allowlist[0].name == profile;
        }
      } else {
        AllowedMeaning(rest, profile, exec, mode);
        forall i | Lists(rest, i, profile, exec, mode) ensures Lists(allowlist, i + 1, profile, exec, mode) {
          assert forall j :: 1 <= j <= i ==> allowlist[j] == rest[j - 1];
        }
        forall i | Lists(allowlist, i, profile, exec, mode) ensures Lists(rest, i - 1, profile, exec, mode) {
          assert forall j :: 0 <= j < i - 1 ==> rest[j] == allowlist[j + 1];
        }
      }
    }
  }

  lemma {:induction false} DeniedCommandFound(e: Engine, commands: seq<string>)
    ensures FirstDeniedCommand(e, commands).Some? <==> SomeCommandDenied(e, commands)
  {
    if commands != [] {
      DeniedCommandFound(e, commands[1..]);
      assert forall i :: 1 <= i < |commands| ==> commands[i] == commands[1..][i - 1];
    }
  }

  lemma {:induction false} DeniedPathFound(e: Engine, paths: seq<Intent>)
    ensures FirstDeniedPath(e, paths).Some? <==> SomePathDenied(e, paths)
  {
    if paths != [] {
      DeniedPathFound(e, paths[1..]);
      assert forall i :: 1 <= i < |paths| ==> paths[i] == paths[1..][i - 1];
    }
  }

  /**
   A single denied command or path is final, whatever the allowlist says; nothing runs
   unless explicitly allowlisted; only a non-critical action outside interactive mode
   runs without approval; two persons are asked exactly for critical risk.
   */
  lemma EvaluateMeaning(e: Engine, r: Request)
    ensures Evaluate(e, r).Denied? <==> SomeCommandDenied(e, r.commands) || SomePathDenied(e, r.paths)
    ensures !Evaluate(e, r).Denied? ==>
              (Evaluate(e, r) == NotAllowed <==> !IsAllowed(e.allowlist, r.profile, r.exec, r.mode))
    ensures Evaluate(e, r) == Allowed ==> r.mode != Interactive && r.risk != Critical
    ensures Evaluate(e, r).NeedsApproval? ==>
              (r.mode == Interactive || r.risk == Critical) && (Evaluate(e, r).twoPerson <==> r.risk == Critical)
  {
    DeniedCommandFound(e, r.commands);
    DeniedPathFound(e, r.paths);
  }
}
