/** The option loop of `claude-submit submit`: it walks the arguments after
    the command word, each value flag assigns the argument after it to a
    field of the project data and skips it, `--auto` sets a switch, and
    anything else is passed over. */
module CliArgs {
  import opened Js

  /** The keys of the project data the CLI sends (`title`, `description`,
      `github_url`, `demo_url`, `tags`, `category`, `creator_name`). */
  datatype Field = Title | Description | GithubUrl | DemoUrl | Tags | Category | CreatorName

  /** A property value as JavaScript holds it: `undefined` (a value flag
      with nothing after it), a string, or an array of strings (the
      detected `tags`). */
  datatype JsVal = Undefined | Str(s: string) | List(items: seq<string>)

  /** A project-data object: the keys it owns and their values. */
  type Fields = map<Field, JsVal>

  /** JavaScript truthiness of a property: `undefined` and `''` are falsy,
      an array is truthy even when empty. */
  predicate Truthy(data: Fields, f: Field) {
    f in data && (data[f].Str? ==> data[f].s != "") && !data[f].Undefined?
  }

  /** The six value flags and the key each one sets. */
  function FlagField(arg: string): (f: Option<Field>)
    ensures f.Some? ==> f.value != CreatorName
  {
    if arg == "--title" then Some(Title)
    else if arg == "--description" then Some(Description)
    else if arg == "--github-url" then Some(GithubUrl)
    else if arg == "--demo-url" then Some(DemoUrl)
    else if arg == "--tags" then Some(Tags)
    else if arg == "--category" then Some(Category)
    else None
  }

  /** The flag that sets a key (`creator_name` has none). */
  function FlagOf(f: Field): string {
    match f
    case Title => "--title"
    case Description => "--description"
    case GithubUrl => "--github-url"
    case DemoUrl => "--demo-url"
    case Tags => "--tags"
    case Category => "--category"
    case CreatorName => ""
  }

  /** Each value flag names exactly one key, and that key's flag is it. */
  lemma FlagFieldInverse(arg: string, f: Field)
    ensures FlagField(arg) == Some(f) <==> f != CreatorName && arg == FlagOf(f)
  {
  }

  /** One step of the loop as it reads the arguments. */
  datatype SubmitOption =
    | SetValue(field: Field, value: JsVal)
    | Auto
    | Ignored(arg: string)

  predicate SetsField(o: SubmitOption, f: Field) {
    o.SetValue? && o.field == f
  }

  /** The steps the loop takes over `args`: a value flag takes the next
      argument whatever it looks like, or `undefined` when it is the last
      argument. */
  function Lex(args: seq<string>): seq<SubmitOption>
    decreases |args|
  {
    if args == [] then []
    else match FlagField(args[0])
      case Some(f) =>
        if |args| == 1 then [SetValue(f, Undefined)]
        else [SetValue(f, Str(args[1]))] + Lex(args[2..])
      case None =>
        [if args[0] == "--auto" then Auto else Ignored(args[0])] + Lex(args[1..])
  }

  /** The arguments a sequence of steps was read from. */
  function Unlex(opts: seq<SubmitOption>): seq<string>
  {
    if opts == [] then []
    else
      var head := match opts[0]
        case SetValue(f, Str(v)) => [FlagOf(f), v]
        case SetValue(f, _) => [FlagOf(f)]
        case Auto => ["--auto"]
        case Ignored(a) => [a];
      head + Unlex(opts[1..])
  }

  /** The loop reads every argument exactly once, in order: the arguments
      can be rebuilt from its steps. */
  lemma {:induction false} UnlexLex(args: seq<string>)
    ensures Unlex(Lex(args)) == args
    decreases |args|
  {
    if args != [] {
      match FlagField(args[0])
      case Some(f) =>
        FlagFieldInverse(args[0], f);
        if |args| == 1 {
          assert Unlex(Lex(args)) == [FlagOf(f)] + Unlex([]);
        } else {
          var rest := Lex(args[2..]);
          UnlexLex(args[2..]);
          assert ([SetValue(f, Str(args[1]))] + rest)[1..] == rest;
          assert args == [args[0], args[1]] + args[2..];
        }
      case None =>
        var rest := Lex(args[1..]);
        UnlexLex(args[1..]);
        var o := if args[0] == "--auto" then Auto else Ignored(args[0]);
        assert ([o] + rest)[1..] == rest;
        assert args == [args[0]] + args[1..];
    }
  }

  /** The project data and the `useAuto` switch. */
  datatype Parsed = Parsed(data: Fields, useAuto: bool)

  /** The effect of one step: `projectData.<key> = nextArg` or
      `useAuto = true`. */
  function Step(p: Parsed, o: SubmitOption): Parsed {
    match o
    case SetValue(f, v) => p.(data := p.data[f := v])
    case Auto => p.(useAuto := true)
    case Ignored(_) => p
  }

  /** The steps applied in order. */
  function ApplyOptions(opts: seq<SubmitOption>, p: Parsed): Parsed
    decreases |opts|
  {
    if opts == [] then p else ApplyOptions(opts[1..], Step(p, opts[0]))
  }

  /** The value of the last step that sets `f`, if any. */
  function LastValue(opts: seq<SubmitOption>, f: Field): (r: Option<JsVal>)
    ensures r.None? <==> forall k :: 0 <= k < |opts| ==> !SetsField(opts[k], f)
    ensures r.Some? ==>
              exists k :: 0 <= k < |opts| && opts[k] == SetValue(f, r.value)
                          && forall j :: k < j < |opts| ==> !SetsField(opts[j], f)
    decreases |opts|
  {
    if opts == [] then None
    else
      var later := LastValue(opts[1..], f);
      if later.Some? then
        var k :| 0 <= k < |opts[1..]| && opts[1..][k] == SetValue(f, later.value)
                 && forall j :: k < j < |opts[1..]| ==> !SetsField(opts[1..][j], f);
        assert opts[k + 1] == SetValue(f, later.value);
        assert forall j :: k + 1 < j < |opts| ==> opts[j] == opts[1..][j - 1];
        later
      else if SetsField(opts[0], f) then
        assert forall j :: 0 < j < |opts| ==> opts[j] == opts[1..][j - 1];
        Some(opts[0].value)
      else
        assert forall k :: 0 < k < |opts| ==> opts[k] == opts[1..][k - 1];
        None
  }

  /** A later repeat of a flag overwrites an earlier one: a key ends up
      with the value of the last step that sets it, keys no step sets keep
      their value, and the switch is on iff it was or some step is
      `--auto`. */
  lemma {:induction false} ApplyOptionsLastWins(opts: seq<SubmitOption>, p: Parsed, f: Field)
    ensures var r := ApplyOptions(opts, p);
            && (f in r.data <==> f in p.data || LastValue(opts, f).Some?)
            && (LastValue(opts, f).Some? ==> r.data[f] == LastValue(opts, f).value)
            && (LastValue(opts, f).None? && f in p.data ==> r.data[f] == p.data[f])
            && (r.useAuto <==> p.useAuto || Auto in opts)
    decreases |opts|
  {
    if opts != [] {
      ApplyOptionsLastWins(opts[1..], Step(p, opts[0]), f);
      assert opts == [opts[0]] + opts[1..];
      assert Auto in opts <==> opts[0] == Auto || Auto in opts[1..];
    }
  }

  /** The arguments after the command word. */
  function Options(args: seq<string>): seq<string> {
    if |args| <= 1 then [] else args[1..]
  }

  /** What the option loop of `submit` leaves in `projectData` and
      `useAuto`, starting from `{}` and `false`. */
  function ParseOptions(args: seq<string>): Parsed {
    ApplyOptions(Lex(Options(args)), Parsed(map[], false))
  }

  /** A value flag consumes the argument after it even when that argument
      is itself a flag. */
  lemma ValueFlagConsumesFlag()
    ensures ParseOptions(["submit", "--title", "--auto"]) == Parsed(map[Title := Str("--auto")], false)
  {
    assert Options(["submit", "--title", "--auto"]) == ["--title", "--auto"];
    assert Lex(["--title", "--auto"]) == [SetValue(Title, Str("--auto"))] + Lex([]);
  }

  lemma ApplyFirst(o: SubmitOption, opts: seq<SubmitOption>, p: Parsed)
    ensures ApplyOptions([o] + opts, p) == ApplyOptions(opts, Step(p, o))
  {
    assert ([o] + opts)[1..] == opts;
  }

  /** The arguments from index `i` on. */
  function Rest(args: seq<string>, i: nat): seq<string> {
    if i < |args| then args[i..] else []
  }

  /** The step the loop takes at index `i`: `nextArg` is `undefined` past
      the end. */
  function StepAt(args: seq<string>, i: nat): SubmitOption
    requires i < |args|
  {
    match FlagField(args[i])
    case Some(f) => SetValue(f, if i + 1 < |args| then Str(args[i + 1]) else Undefined)
    case None => if args[i] == "--auto" then Auto else Ignored(args[i])
  }

  /** Where the loop goes on after index `i`: a value flag skips its value. */
  function NextAt(args: seq<string>, i: nat): nat
    requires i < |args|
  {
    if FlagField(args[i]).Some? then i + 2 else i + 1
  }

  /** Reading from index `i` is taking the step there and reading on. */
  lemma LexAt(args: seq<string>, i: nat)
    requires i < |args|
    ensures Lex(Rest(args, i)) == [StepAt(args, i)] + Lex(Rest(args, NextAt(args, i)))
  {
    if i + 1 < |args| {
      assert args[i..][1..] == args[i + 1..];
      assert args[i..][2..] == Rest(args, i + 2);
    }
  }

  /** The loop `for (let i = 1; i < args.length; i++)` over the whole
      argument list (`args[0]` is the command word). */
  method ParseSubmitArgs(args: seq<string>) returns (data: Fields, useAuto: bool)
    ensures Parsed(data, useAuto) == ParseOptions(args)
  {
    data, useAuto := map[], false;
    var i := 1;
    while i < |args|
      invariant 1 <= i <= |args| + 1
      invariant ApplyOptions(Lex(Rest(args, i)), Parsed(data, useAuto)) == ParseOptions(args)
      decreases |args| - i
    {
      var step := StepAt(args, i);
      ghost var before, next := Parsed(data, useAuto), NextAt(args, i);
      LexAt(args, i);
      ApplyFirst(step, Lex(Rest(args, next)), before);
      match step {
        case SetValue(f, nextArg) =>
          data := data[f := nextArg];
          i := i + 1;
        case Auto =>
          useAuto := true;
        case Ignored(_) =>
      }
      assert Parsed(data, useAuto) == Step(before, step);
      i := i + 1;
    }
  }
}
