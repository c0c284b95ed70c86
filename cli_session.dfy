/** The `ClaudeCreationsCLI` object: a saved session (`config`) that login
    and register fill in from the server's answer and logout empties, and
    the gate that keeps `submitProject` from sending anything without a
    session. The config file and the server's answers are inputs; the
    file write that follows every change of `config` is not modelled. */
module CliSession {
  import opened Js
  import opened CliArgs

  /** The `user` object the server returns with a token. */
  datatype UserInfo = UserInfo(id: int, username: string, email: string, githubUsername: Option<string>)

  /** The saved session: `{}` when anonymous, `{token, user}` after a
      login or a registration. */
  datatype Config = Config(token: Option<string>, user: Option<UserInfo>)

  const Anonymous := Config(None, None)

  /** The config file: missing, not parsable JSON, or a parsed object. */
  datatype ConfigFile = NoConfigFile | BadJson | ConfigJson(config: Config)

  /** `loadConfig`: the parsed file, or `{}` when it is missing or does not
      parse. */
  function LoadConfig(file: ConfigFile): (config: Config)
    ensures file.ConfigJson? ==> config == file.config
    ensures !file.ConfigJson? ==> config == Anonymous
  {
    if file.ConfigJson? then file.config else Anonymous
  }

  /** What `fetch` and `response.json()` give: no answer at all (network
      failure or a body that is not JSON), or the status flag and the
      `token` and `user` fields of the body. */
  datatype HttpReply = NoAnswer | Answer(ok: bool, token: Option<string>, user: Option<UserInfo>)

  /** A reply arrived and `response.ok` is true. */
  predicate Accepted(reply: HttpReply) {
    reply.Answer? && reply.ok
  }

  /** The request bodies the CLI sends. The project request carries no
      token: `submitProject` sends no `Authorization` header. */
  datatype Request =
    | LoginRequest(email: string, password: string)
    | RegisterRequest(username: string, email: string, password: string, githubUsername: Option<string>)
    | ProjectRequest(data: Fields)

  /** `!this.config.token || !this.config.user` refuses to submit. */
  predicate LoggedIn(config: Config) {
    Present(config.token) && config.user.Some?
  }

  /** What `whoami` prints. */
  datatype WhoamiOutput = LoggedInAs(username: string, email: string) | NotLoggedIn

  /** How `submitProject` ends. */
  datatype SubmitOutcome = RefusedNotLoggedIn | Sent(request: Request, accepted: bool)

  class Cli {
    var config: Config

    /** `new ClaudeCreationsCLI()` loads the saved session. */
    constructor (file: ConfigFile)
      ensures config == LoadConfig(file)
    {
      config := LoadConfig(file);
    }

    /** The common tail of `login` and `register`. On a non-ok answer (or
        none) the error is thrown before `config` is touched and the result
        is false. On an ok answer `token` and `user` are overwritten with
        the answer's; the success message then reads `data.user.username`,
        so without a user the call still fails after the overwrite. */
    method SignIn(reply: HttpReply) returns (ok: bool)
      modifies this
      ensures Accepted(reply) ==> config == Config(reply.token, reply.user)
      ensures !Accepted(reply) ==> config == old(config)
      ensures ok <==> Accepted(reply) && reply.user.Some?
    {
      if !Accepted(reply) {
        return false;
      }
      config := config.(token := reply.token, user := reply.user);
      ok := reply.user.Some?;
    }

    /** `login(email, password)`. */
    method Login(email: string, password: string, reply: HttpReply) returns (request: Request, ok: bool)
      modifies this
      ensures request == LoginRequest(email, password)
      ensures Accepted(reply) ==> config == Config(reply.token, reply.user)
      ensures !Accepted(reply) ==> config == old(config)
      ensures ok <==> Accepted(reply) && reply.user.Some?
    {
      request := LoginRequest(email, password);
      ok := SignIn(reply);
    }

    /** `register(username, email, password, githubUsername = null)`. */
    method Register(username: string, email: string, password: string, githubUsername: Option<string>,
                    reply: HttpReply) returns (request: Request, ok: bool)
      modifies this
      ensures request == RegisterRequest(username, email, password, githubUsername)
      ensures Accepted(reply) ==> config == Config(reply.token, reply.user)
      ensures !Accepted(reply) ==> config == old(config)
      ensures ok <==> Accepted(reply) && reply.user.Some?
    {
      request := RegisterRequest(username, email, password, githubUsername);
      ok := SignIn(reply);
    }

    /** `logout`: `cli.config = {}`. */
    method Logout()
      modifies this
      ensures config == Anonymous && !LoggedIn(config)
    {
      config := Anonymous;
    }

    /** `whoami`: the user iff `config.user` is set. */
    function Whoami(): (out: WhoamiOutput)
      reads this
      ensures out.LoggedInAs? <==> config.user.Some?
      ensures out.LoggedInAs? ==> out.username == config.user.value.username && out.email == config.user.value.email
    {
      if config.user.Some? then LoggedInAs(config.user.value.username, config.user.value.email) else NotLoggedIn
    }

    /** `submitProject(projectData)`: nothing is sent without a token and a
        user; otherwise `creator_name` is replaced by the session's user
        name, every other key is sent as given, and the result is whether
        the server answered ok. */
    function SubmitProject(data: Fields, reply: HttpReply): (outcome: SubmitOutcome)
      reads this
      ensures outcome.RefusedNotLoggedIn? <==> !LoggedIn(config)
      ensures outcome.Sent? ==>
                && outcome.request.ProjectRequest?
                && outcome.request.data.Keys == data.Keys + {CreatorName}
                && outcome.request.data[CreatorName] == Str(config.user.value.username)
                && (forall f :: f in data && f != CreatorName ==> outcome.request.data[f] == data[f])
                && (outcome.accepted <==> Accepted(reply))
    {
      if !LoggedIn(config) then RefusedNotLoggedIn
      else Sent(ProjectRequest(data[CreatorName := Str(config.user.value.username)]), Accepted(reply))
    }
  }
}
