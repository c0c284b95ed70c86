/** `detectProjectInfo`: what the CLI guesses about the project in the
    current directory from `package.json`, `README.md` and `.git/config`.
    The three files are inputs: absent, or their contents (package.json
    already parsed). */
module CliDetect {
  import opened Js
  import opened Strings
  import opened CliArgs

  /** The parts of a parsed package.json the CLI reads. A dependency's
      version string is what makes `pkg.dependencies.<name>` truthy. */
  datatype Package = Package(name: Option<string>, description: Option<string>,
                             keywords: Option<seq<string>>,
                             dependencies: Option<map<string, string>>)

  /** package.json is missing, fails to parse (or parses to `null`), or
      parses to an object. */
  datatype PackageFile = NoPackage | Unparsable | PackageJson(pkg: Package)

  /** The current directory: its base name and the three files. */
  datatype Workspace = Workspace(dirName: string, package: PackageFile,
                                 readme: Option<string>, gitConfig: Option<string>)

  /** The object `detectProjectInfo` returns. */
  datatype ProjectInfo = ProjectInfo(title: string, description: string, githubUrl: string,
                                     tags: seq<string>, category: string)

  /** The same object as project data, with the five keys it always owns. */
  function ToFields(info: ProjectInfo): (data: Fields)
    ensures data.Keys == {Title, Description, GithubUrl, Tags, Category}
  {
    map[Title := Str(info.title), Description := Str(info.description),
        GithubUrl := Str(info.githubUrl), Tags := List(info.tags), Category := Str(info.category)]
  }

  predicate HasDependency(deps: map<string, string>, name: string) {
    name in deps && deps[name] != ""
  }

  /** The category chosen from the dependencies: a server framework first,
      then a front-end framework, and `'tools'` otherwise. */
  function CategoryFor(dependencies: Option<map<string, string>>): (category: string)
    ensures category == "apis" <==>
              dependencies.Some? && (HasDependency(dependencies.value, "express")
                                     || HasDependency(dependencies.value, "fastify"))
    ensures category == "web-apps" <==>
              && dependencies.Some?
              && !HasDependency(dependencies.value, "express") && !HasDependency(dependencies.value, "fastify")
              && (HasDependency(dependencies.value, "react") || HasDependency(dependencies.value, "vue")
                  || HasDependency(dependencies.value, "svelte"))
    ensures category in {"apis", "web-apps", "tools"}
  {
    match dependencies
    case None => "tools"
    case Some(deps) =>
      if HasDependency(deps, "express") || HasDependency(deps, "fastify") then "apis"
      else if HasDependency(deps, "react") || HasDependency(deps, "vue") || HasDependency(deps, "svelte") then "web-apps"
      else "tools"
  }

  /** A README line usable as a description once trimmed: not empty, not a
      heading, not an image. */
  predicate IsDescriptionLine(line: string) {
    line != "" && !StartsWith(line, "#") && !StartsWith(line, "!")
  }

  /** `line.substring(0, 200)`. */
  function Cut(line: string): (r: string)
    ensures |r| <= 200 && StartsWith(line, r)
    ensures |line| <= 200 ==> r == line
    ensures |line| > 200 ==> |r| == 200
  {
    if |line| <= 200 then line else line[..200]
  }

  /** The description the README loop settles on, if any line qualifies. */
  function FirstDescriptionLine(lines: seq<string>): Option<string>
    decreases |lines|
  {
    if lines == [] then None
    else if IsDescriptionLine(Trim(lines[0])) then Some(Cut(Trim(lines[0])))
    else FirstDescriptionLine(lines[1..])
  }

  /** One turn of the README loop at line `k`. */
  lemma FirstDescriptionLineAt(lines: seq<string>, k: nat)
    requires k < |lines|
    ensures IsDescriptionLine(Trim(lines[k])) ==> FirstDescriptionLine(lines[k..]) == Some(Cut(Trim(lines[k])))
    ensures !IsDescriptionLine(Trim(lines[k])) ==> FirstDescriptionLine(lines[k..]) == FirstDescriptionLine(lines[k + 1..])
  {
    assert lines[k..][0] == lines[k];
    assert lines[k..][1..] == lines[k + 1..];
  }

  /** The README loop finds no description exactly when no trimmed line
      qualifies. */
  lemma {:induction false} FirstDescriptionLineNone(lines: seq<string>)
    ensures FirstDescriptionLine(lines).None? <==>
              forall k :: 0 <= k < |lines| ==> !IsDescriptionLine(Trim(lines[k]))
    decreases |lines|
  {
    if lines != [] && !IsDescriptionLine(Trim(lines[0])) {
      FirstDescriptionLineNone(lines[1..]);
      assert forall k :: 0 < k < |lines| ==> lines[k] == lines[1..][k - 1];
    }
  }

  /** A description the README loop finds is the first qualifying line,
      cut to 200 characters. */
  lemma {:induction false} FirstDescriptionLineSome(lines: seq<string>)
    ensures FirstDescriptionLine(lines).Some? ==>
              exists k :: 0 <= k < |lines| && IsDescriptionLine(Trim(lines[k]))
                          && (forall j :: 0 <= j < k ==> !IsDescriptionLine(Trim(lines[j])))
                          && FirstDescriptionLine(lines).value == Cut(Trim(lines[k]))
    decreases |lines|
  {
    if lines != [] && !IsDescriptionLine(Trim(lines[0])) {
      FirstDescriptionLineSome(lines[1..]);
      if FirstDescriptionLine(lines[1..]).Some? {
        var k :| 0 <= k < |lines[1..]| && IsDescriptionLine(Trim(lines[1..][k]))
                 && (forall j :: 0 <= j < k ==> !IsDescriptionLine(Trim(lines[1..][j])))
                 && FirstDescriptionLine(lines[1..]).value == Cut(Trim(lines[1..][k]));
        assert lines[k + 1] == lines[1..][k];
        forall j | 0 <= j < k + 1
          ensures !IsDescriptionLine(Trim(lines[j]))
        {
          if j > 0 {
            assert lines[j] == lines[1..][j - 1];
          }
        }
        assert FirstDescriptionLine(lines) == FirstDescriptionLine(lines[1..]);
      }
    }
  }

  /** The characters `.` does not match in a JavaScript regular expression. */
  predicate IsLineTerminator(c: char) {
    c == '\n' || c == '\r' || c == '\U{2028}' || c == '\U{2029}'
  }

  /** The longest prefix free of line terminators: what `(.+)` captures. */
  function LineRest(s: string): (r: string)
    ensures StartsWith(s, r)
    ensures forall i :: 0 <= i < |r| ==> !IsLineTerminator(r[i])
    ensures |r| == |s| || IsLineTerminator(s[|r|])
    decreases |s|
  {
    if s == [] || IsLineTerminator(s[0]) then [] else [s[0]] + LineRest(s[1..])
  }

  const UrlKey := "url = "

  /** `url = ` starts at index `p` of `config` and `v` is the rest of that
      line after it. */
  predicate UrlAt(config: string, p: nat, v: string) {
    && p + |UrlKey| + |v| <= |config|
    && config[p..p + |UrlKey|] == UrlKey
    && config[p + |UrlKey|..p + |UrlKey| + |v|] == v
    && (p + |UrlKey| + |v| == |config| || IsLineTerminator(config[p + |UrlKey| + |v|]))
  }

  lemma SliceOfTail(s: string, a: nat, b: nat)
    requires a <= b < |s|
    ensures s[1..][a..b] == s[a + 1..b + 1]
  {
  }

  lemma UrlAtShift(config: string, p: nat, v: string)
    requires |config| > 0 && UrlAt(config[1..], p, v)
    ensures UrlAt(config, p + 1, v)
  {
    SliceOfTail(config, p, p + |UrlKey|);
    SliceOfTail(config, p + |UrlKey|, p + |UrlKey| + |v|);
  }

  /** `gitConfig.match(/url = (.+)/)[1]`: the rest of the line after the
      first `url = ` that is followed by at least one character on its
      line. */
  function UrlMatch(config: string): (r: Option<string>)
    ensures r.Some? ==> r.value != [] && exists p: nat :: UrlAt(config, p, r.value)
    ensures r.Some? ==> forall i :: 0 <= i < |r.value| ==> !IsLineTerminator(r.value[i])
    decreases |config|
  {
    if |config| <= |UrlKey| then None
    else if config[..|UrlKey|] == UrlKey && !IsLineTerminator(config[|UrlKey|]) then
      var v := LineRest(config[|UrlKey|..]);
      assert config[|UrlKey|..][..|v|] == v;
      assert config[|UrlKey|..|UrlKey| + |v|] == v;
      assert UrlAt(config, 0, v);
      Some(v)
    else
      var r := UrlMatch(config[1..]);
      if r.Some? then
        var p: nat :| UrlAt(config[1..], p, r.value);
        UrlAtShift(config, p, r.value);
        r
      else r
  }

  /** A match of `/url = (.+)/` can start at `p`: `url = ` is there and is
      followed by a character other than a line terminator. */
  predicate Candidate(config: string, p: nat) {
    && p + |UrlKey| < |config|
    && config[p..p + |UrlKey|] == UrlKey
    && !IsLineTerminator(config[p + |UrlKey|])
  }

  lemma CandidateShift(config: string, p: nat)
    requires |config| > 0
    ensures Candidate(config[1..], p) <==> Candidate(config, p + 1)
  {
    if p + 1 + |UrlKey| < |config| {
      SliceOfTail(config, p, p + |UrlKey|);
    }
  }

  /** The git config yields no URL exactly when no `url = ` is followed by
      a character on its line. */
  lemma {:induction false} UrlMatchNone(config: string)
    ensures UrlMatch(config).None? <==> forall p: nat :: !Candidate(config, p)
    decreases |config|
  {
    if |config| <= |UrlKey| {
    } else if config[..|UrlKey|] == UrlKey && !IsLineTerminator(config[|UrlKey|]) {
      assert Candidate(config, 0);
    } else {
      assert !Candidate(config, 0);
      UrlMatchNone(config[1..]);
      forall p: nat | p > 0 ensures Candidate(config, p) <==> Candidate(config[1..], p - 1) {
        CandidateShift(config, p - 1);
      }
      if UrlMatch(config[1..]).Some? {
        var q: nat :| Candidate(config[1..], q);
        CandidateShift(config, q);
      }
    }
  }

  /** A URL found is the rest of the line after the first `url = ` that is
      followed by a character on its line. */
  lemma {:induction false} UrlMatchSome(config: string)
    ensures UrlMatch(config).Some? ==>
              exists p: nat :: && Candidate(config, p)
                               && (forall q: nat :: q < p ==> !Candidate(config, q))
                               && UrlMatch(config).value == LineRest(config[p + |UrlKey|..])
    decreases |config|
  {
    if |config| <= |UrlKey| {
    } else if config[..|UrlKey|] == UrlKey && !IsLineTerminator(config[|UrlKey|]) {
      assert Candidate(config, 0);
    } else if UrlMatch(config[1..]).Some? {
      assert !Candidate(config, 0);
      UrlMatchSome(config[1..]);
      var p: nat :| && Candidate(config[1..], p)
                    && (forall q: nat :: q < p ==> !Candidate(config[1..], q))
                    && UrlMatch(config[1..]).value == LineRest(config[1..][p + |UrlKey|..]);
      CandidateShift(config, p);
      forall q: nat | q < p + 1 ensures !Candidate(config, q) {
        if q > 0 {
          CandidateShift(config, q - 1);
        }
      }
      assert config[1..][p + |UrlKey|..] == config[p + 1 + |UrlKey|..];
    }
  }

  const SshPrefix := "git@github.com:"
  const HttpsPrefix := "https://github.com/"
  const GitSuffix := ".git"

  /** The SSH remote form rewritten to HTTPS, then one trailing `.git`
      removed. */
  function NormaliseUrl(url: string): (r: string)
    ensures !StartsWith(r, SshPrefix)
    ensures !StartsWith(url, SshPrefix) && !EndsWith(url, GitSuffix) ==> r == url
  {
    var https := if StartsWith(url, SshPrefix) then HttpsPrefix + url[|SshPrefix|..] else url;
    assert StartsWith(url, SshPrefix) ==> https[4] != SshPrefix[4];
    if EndsWith(https, GitSuffix) then https[..|https| - |GitSuffix|] else https
  }

  /** `git@github.com:owner/repo.git` becomes `https://github.com/owner/repo`. */
  lemma NormaliseSshRemote(path: string)
    ensures NormaliseUrl(SshPrefix + path + GitSuffix) == HttpsPrefix + path
  {
    var url := SshPrefix + path + GitSuffix;
    assert url[..|SshPrefix|] == SshPrefix;
    assert url[|SshPrefix|..] == path + GitSuffix;
    var https := HttpsPrefix + (path + GitSuffix);
    assert https[|https| - |GitSuffix|..] == GitSuffix;
    assert https[..|https| - |GitSuffix|] == HttpsPrefix + path;
  }

  /** `https://github.com/owner/repo.git` loses only its suffix. */
  lemma NormaliseHttpsRemote(path: string)
    ensures NormaliseUrl(HttpsPrefix + path + GitSuffix) == HttpsPrefix + path
  {
    var url := HttpsPrefix + path + GitSuffix;
    assert url[4] != SshPrefix[4];
    assert url[|url| - |GitSuffix|..] == GitSuffix;
    assert url[..|url| - |GitSuffix|] == HttpsPrefix + path;
  }

  /** package.json when it parsed to an object. */
  function PackageOf(ws: Workspace): Option<Package> {
    if ws.package.PackageJson? then Some(ws.package.pkg) else None
  }

  /** The title `detectProjectInfo` finds: package.json's name when it is
      non-empty, otherwise the directory name. */
  function DetectedTitle(ws: Workspace): string {
    var pkg := PackageOf(ws);
    if pkg.Some? && Present(pkg.value.name) then pkg.value.name.value else ws.dirName
  }

  /** The tags: package.json's keywords when present, otherwise none. */
  function DetectedTags(ws: Workspace): seq<string> {
    var pkg := PackageOf(ws);
    if pkg.Some? && pkg.value.keywords.Some? then pkg.value.keywords.value else []
  }

  /** The category: from package.json's dependencies, otherwise `'tools'`. */
  function DetectedCategory(ws: Workspace): string {
    var pkg := PackageOf(ws);
    if pkg.Some? then CategoryFor(pkg.value.dependencies) else "tools"
  }

  /** The README's first description line, or empty when none qualifies. */
  function ReadmeText(readme: string): string {
    match FirstDescriptionLine(Split(readme, '\n'))
    case None => ""
    case Some(line) => line
  }

  /** The description `detectProjectInfo` finds: package.json's when it is
      non-empty, otherwise the README's, otherwise empty. */
  function DetectedDescription(ws: Workspace): string {
    var pkg := PackageOf(ws);
    if pkg.Some? && Present(pkg.value.description) then pkg.value.description.value
    else if ws.readme.None? then ""
    else ReadmeText(ws.readme.value)
  }

  /** The URL `detectProjectInfo` finds: the first `url = ` value of the
      git config, trimmed and normalised, otherwise empty. */
  function DetectedUrl(ws: Workspace): string {
    match (if ws.gitConfig.Some? then UrlMatch(ws.gitConfig.value) else None)
    case None => ""
    case Some(u) => NormaliseUrl(Trim(u))
  }

  /** What `detectProjectInfo` finds: start from the directory name, no
      description, no URL, no tags and `'tools'`; let package.json override
      the title, description, tags and category; consult the README only
      while the description is still empty; take the remote URL from the
      git config. */
  function Detected(ws: Workspace): ProjectInfo {
    ProjectInfo(DetectedTitle(ws), DetectedDescription(ws), DetectedUrl(ws),
                DetectedTags(ws), DetectedCategory(ws))
  }

  /** No trimmed line of `lines` qualifies as a description. */
  predicate NoDescriptionLine(lines: seq<string>) {
    forall k :: 0 <= k < |lines| ==> !IsDescriptionLine(Trim(lines[k]))
  }

  /** A description taken from the README is at most 200 characters, and
      it is empty only when no README line qualifies. */
  lemma ReadmeTextSpec(readme: string)
    ensures |ReadmeText(readme)| <= 200
    ensures ReadmeText(readme) == "" <==> NoDescriptionLine(Split(readme, '\n'))
  {
    var lines := Split(readme, '\n');
    var found := FirstDescriptionLine(lines);
    FirstDescriptionLineNone(lines);
    if found.Some? {
      FirstDescriptionLineSome(lines);
      var k :| 0 <= k < |lines| && IsDescriptionLine(Trim(lines[k]))
               && (forall j :: 0 <= j < k ==> !IsDescriptionLine(Trim(lines[j])))
               && found.value == Cut(Trim(lines[k]));
      assert found.value != "";
      assert ReadmeText(readme) == found.value;
      assert !NoDescriptionLine(lines);
    } else {
      assert ReadmeText(readme) == "";
      assert NoDescriptionLine(lines);
    }
  }

  /** What the detection promises: the README is consulted only when
      package.json gives no description, and the description stays empty
      only when neither file offers one; the URL is never left in SSH form;
      the category is one of the three the CLI guesses. */
  lemma DetectedSpec(ws: Workspace)
    ensures var pkg := PackageOf(ws);
            Detected(ws).description ==
              if pkg.Some? && Present(pkg.value.description) then pkg.value.description.value
              else if ws.readme.Some? then ReadmeText(ws.readme.value)
              else ""
    ensures Detected(ws).description == "" <==>
              && !(PackageOf(ws).Some? && Present(PackageOf(ws).value.description))
              && (ws.readme.None? || NoDescriptionLine(Split(ws.readme.value, '\n')))
    ensures !StartsWith(Detected(ws).githubUrl, SshPrefix)
    ensures Detected(ws).category in {"apis", "web-apps", "tools"}
  {
    if ws.readme.Some? {
      ReadmeTextSpec(ws.readme.value);
    }
  }

  /** The README loop: trim each line in turn and stop at the first one
      that qualifies. */
  method ReadmeDescription(lines: seq<string>) returns (description: Option<string>)
    ensures description == FirstDescriptionLine(lines)
  {
    var k := 0;
    while k < |lines|
      invariant 0 <= k <= |lines|
      invariant FirstDescriptionLine(lines[k..]) == FirstDescriptionLine(lines)
      decreases |lines| - k
    {
      FirstDescriptionLineAt(lines, k);
      var line := Trim(lines[k]);
      if IsDescriptionLine(line) {
        return Some(Cut(line));
      }
      k := k + 1;
    }
    return None;
  }

  /** The steps of `detectProjectInfo`, the README read line by line until
      the first description line. */
  method DetectProjectInfo(ws: Workspace) returns (info: ProjectInfo)
    ensures info == Detected(ws)
  {
    info := ProjectInfo(ws.dirName, "", "", [], "tools");

    if ws.package.PackageJson? {
      var pkg := ws.package.pkg;
      if Present(pkg.name) {
        info := info.(title := pkg.name.value);
      }
      if Present(pkg.description) {
        info := info.(description := pkg.description.value);
      }
      if pkg.keywords.Some? {
        info := info.(tags := pkg.keywords.value);
      }
      info := info.(category := CategoryFor(pkg.dependencies));
    }
    assert info.title == DetectedTitle(ws) && info.tags == DetectedTags(ws);
    assert info.category == DetectedCategory(ws) && info.githubUrl == "";

    if ws.readme.Some? && info.description == "" {
      var line := ReadmeDescription(Split(ws.readme.value, '\n'));
      if line.Some? {
        info := info.(description := line.value);
      }
    }
    assert info.description == DetectedDescription(ws);

    if ws.gitConfig.Some? {
      var found := UrlMatch(ws.gitConfig.value);
      if found.Some? {
        info := info.(githubUrl := NormaliseUrl(Trim(found.value)));
      }
    }
    assert info.githubUrl == DetectedUrl(ws);
  }
}
