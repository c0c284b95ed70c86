# Claude Creations: verified model of the server contract and the submit CLI

Claude Creations is a small showcase site. It has two parts:

- An Express server (`server.js`) over SQLite, with users, projects and comments.
- A command-line tool (`cli-submit.js`, `claude-submit`) that logs in, guesses facts about the project in the current directory and submits it.

This Dafny project models the logic of both parts that can be stated and checked.

Server side:

- `ServerAuth`: the `authenticateToken` middleware. The bearer token is the second space-separated field of the header. A missing token gives 401, a failed verification gives 403, and otherwise the verified claims become the request's user.
- `ServerStore`: the three live tables as a `Store` class. Each table is a sequence of rows with an id counter. The class holds the handlers that read and write the tables: register (both columns unique), login, profile, project creation, comment creation and project detail. Detail lists comments oldest first.
- `ListQuery`: the builder of `GET /api/projects`. It pushes conditions and parameters side by side, joins the conditions with `AND`, and appends the grouping, the ordering and the page. Lemmas prove the WHERE clause carries one `?` per filter parameter, and the whole text as many `?` as `params` has entries plus any `?` the unchecked `sort` and `order` bring in.

CLI side:

- `CliArgs`: the option loop of `submit`. A value flag takes the next argument, `--auto` takes none, other words are ignored, and the last repeat of a flag wins.
- `CliDetect`: `detectProjectInfo`. It reads the title, description, tags and category from package.json. Failing a description there, it takes one from the first qualifying README line, cut to 200 characters. It takes the remote URL from `.git/config`, turning the SSH form into HTTPS and dropping `.git`.
- `CliSubmit`: the merge of detected and manual values, and the check for a title and a description. It also holds the `submit` branch as written, which always crashes when detection runs (see Findings).
- `CliSession`: the `ClaudeCreationsCLI` object. Its `config` is `{}` until a login or a registration stores `{token, user}`, and logout empties it again. `submitProject` sends nothing without both.
- `CliMain`: `main()`, one command per run, dispatched on the first argument.

Shared helpers:

- `Js`: an optional value and JavaScript truthiness of optional strings.
- `Strings`: `split`, `join`, `trim`, `startsWith` and `endsWith`, with their round-trip and trimming lemmas.

Inputs and outputs:

- bcrypt is modelled as the functions `hash` and `checkPassword`.
- JWT is modelled as `sign` and `verify`.
- SQLite's CURRENT_TIMESTAMP is the `now` argument.
- Any engine failure other than a UNIQUE violation is the `dbError` argument.
- On the CLI side, the config file, the working directory (its name, package.json already parsed, README and git config) and the server's reply are inputs. The request bodies and the outcome of a run are outputs.

Where the code's behaviour is easy to misread, the model follows the code:

- `sort` and `order` are pasted into the list query unchecked. The code has no allow-list.
- A comment is stored for any project id. The code does not check that the project exists, and SQLite does not enforce foreign keys by default.
- `login` and `register` overwrite `config.token` and `config.user` as soon as the reply is ok. When the reply carries no `user`, the success message then throws, and the method returns false with the config already overwritten. The config is left unchanged only when the reply is not ok or never arrives.

## Model

| member | source | states |
|---|---|---|
| Strings.Split | server.js:110 | `split(' ')` yields at least one field, and no field contains the separator |
| Strings.JoinSplit | server.js:110 | joining the fields of a split with the separator gives back the original header |
| Strings.SplitJoin | server.js:110 | separator-free fields, once joined, split back into exactly those fields |
| Strings.TrimSpec | server.js:337 | `trim()` gives the empty string iff the input is all whitespace; otherwise the result neither starts nor ends with whitespace |
| Strings.TrimIdempotent | server.js:344 | trimming the stored (already trimmed) text changes nothing |
| ServerAuth.BearerToken | server.js:109-110 | an extracted token is non-empty and free of spaces; a missing or empty header gives none |
| ServerAuth.BearerTokenOf | server.js:110 | whatever the first word is, a token after the first space, ending at the end of the header or at the next space, is the token extracted (the scheme is never checked) |
| ServerAuth.BearerTokenPosition | server.js:110 | conversely, an extracted token always sits after a space-free first word and one space, followed by nothing or by a space and the other fields |
| ServerAuth.Authenticate | server.js:108-123 | 401 "Access token required" iff there is no token, 403 "Invalid or expired token" otherwise when rejected; the request is authenticated iff the token verifies, and then `req.user` is exactly the verified payload; every other case is 403 |
| ServerAuth.MissingHeaderRejected | server.js:109-114 | a request with no `Authorization` header, or an empty one, is answered 401 "Access token required" whatever the verifier would say |
| ServerAuth.IssuedTokenAuthenticates | server.js:116-122 | a token the server signed, sent after any scheme word, authenticates as the claims it was signed for |
| ServerStore.CommentContentSpec | server.js:337-344 | a comment is refused iff it is absent or all whitespace; the stored text is the trimmed content, non-empty, with no whitespace at either end |
| ServerStore.FirstMatch | server.js:192 | `db.get` gives no row iff none matches, and otherwise a stored row that matches |
| ServerStore.SortByCreatedAt | server.js:297 | `ORDER BY c.created_at ASC`: the result is sorted by creation time and is a permutation of the input |
| ServerStore.CommentsOf | server.js:292-296 | a comment is listed iff its row is stored for the requested project and its author row exists, and it is listed with that author's username |
| ServerStore.CommentsOfIncreasing | server.js:292-297 | over comment rows in id order, the join lists comments in strictly increasing id order |
| ServerStore.CommentsListedOnce | server.js:292-297 | over comment rows in id order, the join lists each comment at most once |
| ServerStore.Store.constructor | server.js:56-104 | the tables start empty and the table invariant holds (ids below the counters and increasing, usernames and emails unique) |
| ServerStore.Store.Register | server.js:150-182 | 400 with no insert unless username, email and password are non-empty; 400 "Username or email already exists" with no insert when either is taken; 500 with no insert on another engine error; otherwise one row appended with the next id and the hashed password, 201 with a token for `{id, username}`; uniqueness of both columns preserved |
| ServerStore.Store.Login | server.js:184-221 | 400 iff a field is missing; 500 on an engine error; 200 iff some user has that email and the password checks; an unknown email and a wrong password give the same 401 "Invalid credentials"; the token carries the matched user's id and username |
| ServerStore.Store.Profile | server.js:223-234 | the gate's 401/403 pass through unchanged; after it, 500 "Database error" iff the engine fails; otherwise 404 "User not found" iff no user has the token's id, and 200 with that user's public fields and creation time when one does |
| ServerStore.Store.CreateProject | server.js:309-329 | 400 with nothing stored unless title, description and creator name are non-empty; 500 with nothing stored on an engine error; otherwise one row appended with the next id and 201 with that id |
| ServerStore.Store.AddComment | server.js:333-354 | 400 with nothing stored for a missing or whitespace-only comment; 500 with nothing stored on an engine error; otherwise one row with the trimmed text and the token's user id, and 201 with its id |
| ServerStore.Store.PostComment | server.js:333-354 | the gate runs first: on 401/403 nothing is stored; once authenticated, 400 with nothing stored for a missing or blank comment, 500 with nothing stored on an engine error, otherwise one row with the next id, the authenticated user's id and the trimmed content, and 201 with that id; the other tables and counters are untouched |
| ServerStore.Store.ProjectDetail | server.js:276-307 | 500 "Database error" iff the engine fails; otherwise 404 "Project not found" iff no project has the id, and 200 when one does, with that project and its joined comments, sorted by creation time, a permutation of them and none listed twice |
| ServerStore.DetailListsComment | server.js:276-307 | every stored comment of an existing project whose author exists appears in the project's detail, with that author's username |
| ServerStore.RegisterSameEmailTwice | server.js:160-168 | registering a second user with the same email answers 400 and leaves exactly one user row |
| ListQuery.BuildListQuery | server.js:237-266 | the pushes and appends of the route produce exactly `ListSql(q)` and `ListParams(q)` |
| ListQuery.FilterPlaceholders | server.js:250-263 | the WHERE clause carries one `?` per parameter pushed with its conditions |
| ListQuery.ListQueryPlaceholders | server.js:265-266 | the number of `?` in the text equals `params.length`, plus whatever `?` the unchecked `sort` and `order` bring in |
| ListQuery.ListParamsOrder | server.js:250-266 | `params.length` is (category ? 1 : 0) + (search ? 3 : 0) + 2; the category comes first, the search pattern `%search%` three times, and the last two are limit then offset |
| ListQuery.ListSqlShape | server.js:240-265 | the text starts with the SELECT, has " WHERE " right after it iff some filter applies, joins both conditions with " AND " when both apply, and ends with the grouping, ordering and page |
| CliArgs.FlagField | cli-submit.js:283-307 | only the six value flags set a key, and none of them sets `creator_name` |
| CliArgs.FlagFieldInverse | cli-submit.js:283-307 | each value flag names exactly one key, and that key's flag is that flag |
| CliArgs.UnlexLex | cli-submit.js:279-312 | the loop reads every argument exactly once, in order: the arguments can be rebuilt from its steps |
| CliArgs.LastValue | cli-submit.js:279-312 | the value of the last step that sets a key, or none iff no step sets it |
| CliArgs.ApplyOptionsLastWins | cli-submit.js:279-312 | a key ends with the value of its last setting flag; keys no flag sets keep their value; `useAuto` is on iff `--auto` occurs |
| CliArgs.ValueFlagConsumesFlag | cli-submit.js:280-287 | `--title --auto` sets the title to "--auto" and leaves `useAuto` off |
| CliArgs.ParseSubmitArgs | cli-submit.js:275-312 | the loop over `args[1..]` leaves exactly the data and switch of the step-by-step reading |
| CliDetect.ToFields | cli-submit.js:134-140 | the detected object always owns the five keys title, description, github_url, tags and category |
| CliDetect.CategoryFor | cli-submit.js:154-160 | "apis" iff express or fastify is a dependency; "web-apps" iff neither is and react, vue or svelte is; otherwise "tools" |
| CliDetect.Cut | cli-submit.js:174 | `substring(0, 200)`: a prefix of at most 200 characters, the whole line when it is short enough |
| CliDetect.FirstDescriptionLineNone | cli-submit.js:171-177 | the README loop finds no description iff no trimmed line is non-empty and starts with neither `#` nor `!` |
| CliDetect.FirstDescriptionLineSome | cli-submit.js:171-177 | a description the README loop finds is the first trimmed line that qualifies, cut to 200 characters |
| CliDetect.ReadmeDescription | cli-submit.js:171-177 | the loop with its early `break` settles on exactly that first qualifying line |
| CliDetect.LineRest | cli-submit.js:187 | what `(.+)` captures: the longest prefix free of line terminators |
| CliDetect.UrlMatch | cli-submit.js:187-188 | a match is a non-empty text without line terminators that follows some `url = ` in the git config |
| CliDetect.UrlMatchNone | cli-submit.js:187-188 | the git config yields no URL iff no `url = ` in it is followed by a character other than a line terminator |
| CliDetect.UrlMatchSome | cli-submit.js:187-188 | a URL found is the rest of the line after the first `url = ` that is followed by such a character |
| CliDetect.NormaliseUrl | cli-submit.js:190-197 | the result never starts with `git@github.com:`; a URL with neither the SSH prefix nor a `.git` suffix is kept as is |
| CliDetect.NormaliseSshRemote | cli-submit.js:190-197 | `git@github.com:P.git` becomes `https://github.com/P` |
| CliDetect.NormaliseHttpsRemote | cli-submit.js:195-197 | `https://github.com/P.git` becomes `https://github.com/P` |
| CliDetect.ReadmeTextSpec | cli-submit.js:166-178 | a description taken from the README is at most 200 characters, and it is empty iff no trimmed README line qualifies |
| CliDetect.DetectedSpec | cli-submit.js:134-203 | the detected description is package.json's non-empty one, otherwise the README's, otherwise empty, and it is empty iff neither file offers one; the URL is never left in SSH form; the category is one of the three guesses |
| CliDetect.DetectProjectInfo | cli-submit.js:129-206 | the field-by-field updates yield the detection: defaults of directory name, "" and "tools"; non-empty package name and description override; the README is consulted only while the description is empty; the git URL is normalised |
| CliSubmit.Merge | cli-submit.js:316 | `Object.assign`: the merged keys are both key sets; every manual key keeps its manual value, every other detected key its detected value |
| CliSubmit.MergeIdentities | cli-submit.js:316 | merging no manual values keeps the detected ones, merging over nothing keeps the manual ones, and merging the same manual values twice is merging once |
| CliSubmit.RequireTitleAndDescription | cli-submit.js:320-324 | submission proceeds iff title and description are both truthy, with the data unchanged |
| CliSubmit.PrepareAsWritten | cli-submit.js:314-324 | as written: a TypeError "Assignment to constant variable." iff detection runs; otherwise the manual values alone are checked |
| CliSubmit.PrepareSubmission | cli-submit.js:314-324 | as intended: never crashes; a submission has truthy title and description, keeps every manual value, and keeps every other detected value when detection runs; it is refused iff the data it would send lacks either |
| CliSubmit.PrepareSubmissionKeys | cli-submit.js:314-324 | a submission carries exactly the manual keys plus, when detection runs, the detected ones, and no other key |
| CliSubmit.PrepareAgreesWithoutDetection | cli-submit.js:314-324 | when detection does not run, the code as written and as intended behave the same |
| CliSubmit.AutoSubmitCrashes | cli-submit.js:275-317 | `submit --auto` crashes as written, and as intended submits exactly the detected project |
| CliSubmit.ManualTitleOverrides | cli-submit.js:314-316 | `submit --auto --title T` submits the detected project with its title replaced by T |
| CliSession.LoadConfig | cli-submit.js:20-29 | the parsed object when the file exists and parses, `{}` otherwise |
| CliSession.Cli.constructor | cli-submit.js:16-18 | the session starts as the loaded config |
| CliSession.Cli.SignIn | cli-submit.js:48-62 | a non-ok reply (or none) leaves the config unchanged; an ok reply stores its token and user; the result is true iff the reply is ok and carries a user |
| CliSession.Cli.Login | cli-submit.js:40-64 | sends `{email, password}`; the config and the result follow the reply as in `SignIn` |
| CliSession.Cli.Register | cli-submit.js:66-95 | sends username, email, password and the optional GitHub name; the config and the result follow the reply as in `SignIn` |
| CliSession.Cli.Logout | cli-submit.js:335-339 | the config becomes exactly `{}`, which is not logged in |
| CliSession.Cli.Whoami | cli-submit.js:341-347 | reports a user iff `config.user` is set, with its username and email |
| CliSession.Cli.SubmitProject | cli-submit.js:97-127 | nothing is sent iff the token or the user is missing; otherwise the sent data is the given data with `creator_name` replaced by the session's username, and the result is whether the reply was ok |
| CliMain.Run | cli-submit.js:246-354 | help for no or an unknown command; a usage error with the config untouched for too few login or register arguments; login and register send their request and store the session as `SignIn` says; submit parses the options, detects iff `RunsDetection`, applies the intended merge and sends only from a logged-in session; detect returns the detection; logout empties the config; whoami reports the session |

## Left out

- Express wiring is not modelled, because it is framework plumbing: helmet, CORS, body parsers, static files, the rate limiter, the `/`, `/api` and `/health` routes, the error and 404 handlers, `listen` and shutdown.
- bcrypt and JWT internals are not modelled, because they are foreign crypto libraries. They are the function parameters `hash`, `checkPassword`, `sign` and `verify`, and token expiry is part of `verify`.
- SQLite's execution of SQL is not modelled: LIKE matching, GROUP BY, COUNT and the meaning of an ORDER BY over an arbitrary interpolated column. Only the text and the parameters of the list query are modelled.
- The whitespace layout of the list query is not kept. Its line breaks and indentation are single spaces in the model, and no `?` is lost or added by that.
- The votes table is not modelled, because it is schema only and voting was removed. The `votes` and `featured` columns of `projects` are kept with their defaults 0 and false, which no modelled route changes.
- SQLite's storage of a text id for `:id` is not modelled. Project and comment ids are integers.
- `parseInt` of `limit` and `offset` is not modelled, because its NaN cases belong to the JavaScript runtime. Both are integers in the model.
- Callbacks and `await` are not modelled as such. Each handler runs as straight-line steps.
- A bcrypt failure in register (the outer 500 "Server error") is not modelled, because `hash` is total.
- ServerStore.SortByCreatedAt: comments with equal timestamps keep the table order here. SQLite leaves that order unspecified.
- Files, the network and the console are not modelled: `fetch`, the config write (whose failure only logs), `process.cwd`, console text and the help text. Their contents are inputs, and what is printed is an outcome value.
- `JSON.parse` is not modelled. package.json and the config file arrive parsed, or as "does not parse". A config file that parses to something other than an object, and keys of it other than `token` and `user`, are not modelled.
- The regular-expression engine is not modelled. `/url = (.+)/` is the rest of the line after the first `url = ` that is followed by a character other than a line terminator.
- UTF-16 is not modelled. A Dafny `char` is a Unicode scalar value, so a character outside the Basic Multilingual Plane counts once here where JavaScript counts two code units, and a `substring(0, 200)` that cuts through a surrogate pair is not represented.
- Request bodies and query strings are not modelled beyond "absent or a string". JSON numbers, arrays and objects in a body, and repeated query keys (which Express delivers as arrays), are left out. For example, a comment body with `content: 5` makes `content.trim` throw, and the error handler answers 500 "Something went wrong!"; the model has no such input.
- CliDetect.NormaliseUrl: its own contract does not say that an SSH URL comes out with the HTTPS prefix. The lemmas NormaliseSshRemote and NormaliseHttpsRemote state the rewriting for the two remote forms.
- CliMain.Run follows the intended merge. The crash of the code as written is modelled by CliSubmit.PrepareAsWritten and shown by CliSubmit.AutoSubmitCrashes.

## Findings

| source | as written | input that shows it | evidently intended | confidence | as-written member | corrected member |
|---|---|---|---|---|---|---|
| cli-submit.js:317 | `projectData = detected` assigns to the `const projectData` declared at line 275, so every run that detects throws "Assignment to constant variable." and ends in the top-level catch with exit code 1 | `claude-submit submit --auto` (or `submit` with no value flag) | the merged object, with the manual values over the detected ones, is checked for a title and a description and then submitted | not executed | CliSubmit.PrepareAsWritten, CliSubmit.AutoSubmitCrashes | CliSubmit.PrepareSubmission |
