/** `main()` of `claude-submit`: one command per run, dispatched on the
    first argument, against the session loaded from the config file. The
    working directory and the server's answer to the one request a command
    may send are inputs. */
module CliMain {
  import opened Js
  import opened CliArgs
  import opened CliDetect
  import opened CliSubmit
  import opened CliSession

  /** What a run does, short of its console text. */
  datatype Outcome =
    | Help                                    // `showHelp()`
    | Usage(command: string)                  // too few arguments for the command
    | LoginRun(request: Request, ok: bool)
    | RegisterRun(request: Request, ok: bool)
    | SubmitRun(detected: Option<ProjectInfo>, plan: Plan, sent: Option<SubmitOutcome>)
    | DetectRun(info: ProjectInfo)
    | LoggedOut
    | WhoamiRun(out: WhoamiOutput)

  /** The commands with a case of their own; every other word (and `help`)
      shows the help. */
  predicate IsCommand(command: string) {
    command in {"login", "register", "submit", "detect", "logout", "whoami"}
  }

  /** One run of `main()` with `process.argv.slice(2)` as `args`. The
      submit command follows the evidently intended merge of detected and
      manual values. */
  method Run(args: seq<string>, file: ConfigFile, ws: Workspace, reply: HttpReply)
    returns (outcome: Outcome, cli: Cli)
    ensures |args| == 0 || !IsCommand(args[0]) ==> outcome == Help && cli.config == LoadConfig(file)
    ensures outcome.Usage? <==>
              |args| > 0 && ((args[0] == "login" && |args| < 3) || (args[0] == "register" && |args| < 4))
    ensures outcome.Usage? ==> outcome.command == args[0] && cli.config == LoadConfig(file)
    ensures |args| >= 3 && args[0] == "login" ==>
              && outcome == LoginRun(LoginRequest(args[1], args[2]), Accepted(reply) && reply.user.Some?)
              && cli.config == if Accepted(reply) then Config(reply.token, reply.user) else LoadConfig(file)
    ensures |args| >= 4 && args[0] == "register" ==>
              && outcome == RegisterRun(RegisterRequest(args[1], args[2], args[3],
                                                        if |args| > 4 then Some(args[4]) else None),
                                        Accepted(reply) && reply.user.Some?)
              && cli.config == if Accepted(reply) then Config(reply.token, reply.user) else LoadConfig(file)
    ensures |args| > 0 && args[0] == "submit" ==>
              var p := ParseOptions(args);
              && outcome.SubmitRun?
              && (outcome.detected.Some? <==> RunsDetection(p))
              && (outcome.detected.Some? ==> outcome.detected.value == Detected(ws))
              && outcome.plan == PrepareSubmission(p, if RunsDetection(p) then ToFields(Detected(ws)) else map[])
              && (outcome.sent.Some? <==> outcome.plan.Submit?)
              && (outcome.sent.Some? ==> outcome.sent.value == cli.SubmitProject(outcome.plan.data, reply))
              && cli.config == LoadConfig(file)
    ensures outcome.SubmitRun? && outcome.sent.Some? && outcome.sent.value.Sent? ==> LoggedIn(LoadConfig(file))
    ensures |args| > 0 && args[0] == "detect" ==> outcome == DetectRun(Detected(ws)) && cli.config == LoadConfig(file)
    ensures |args| > 0 && args[0] == "logout" ==> outcome == LoggedOut && cli.config == Anonymous
    ensures |args| > 0 && args[0] == "whoami" ==> outcome == WhoamiRun(cli.Whoami()) && cli.config == LoadConfig(file)
  {
    cli := new Cli(file);
    if |args| == 0 {
      return Help, cli;
    }
    var command := args[0];
    if command == "login" {
      if |args| < 3 {
        return Usage(command), cli;
      }
      var request, ok := cli.Login(args[1], args[2], reply);
      outcome := LoginRun(request, ok);
    } else if command == "register" {
      if |args| < 4 {
        return Usage(command), cli;
      }
      var githubUsername := if |args| > 4 then Some(args[4]) else None;
      var request, ok := cli.Register(args[1], args[2], args[3], githubUsername, reply);
      outcome := RegisterRun(request, ok);
    } else if command == "submit" {
      var data, useAuto := ParseSubmitArgs(args);
      var p := Parsed(data, useAuto);
      var detected: Option<ProjectInfo> := None;
      var plan;
      if RunsDetection(p) {
        var info := DetectProjectInfo(ws);
        detected := Some(info);
        plan := PrepareSubmission(p, ToFields(info));
      } else {
        plan := PrepareSubmission(p, map[]);
      }
      var sent: Option<SubmitOutcome> := None;
      if plan.Submit? {
        sent := Some(cli.SubmitProject(plan.data, reply));
      }
      outcome := SubmitRun(detected, plan, sent);
    } else if command == "detect" {
      var info := DetectProjectInfo(ws);
      outcome := DetectRun(info);
    } else if command == "logout" {
      cli.Logout();
      outcome := LoggedOut;
    } else if command == "whoami" {
      outcome := WhoamiRun(cli.Whoami());
    } else {
      outcome := Help;
    }
  }
}
