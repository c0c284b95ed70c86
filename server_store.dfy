/** The server's three live tables (users, projects, comments) held in
    memory, and the route handlers that read and write them: register,
    login, profile, project creation, comment creation and project detail.
    SQLite's AUTOINCREMENT is an id counter per table; CURRENT_TIMESTAMP is
    the `now` argument; any engine failure other than a UNIQUE violation is
    the `dbError` argument. bcrypt is `hash` / `checkPassword`, JWT signing
    is `sign`, verification is `verify`. */
module ServerStore {
  import opened Js
  import opened Strings
  import opened ServerAuth

  datatype UserRow = UserRow(id: int, username: string, email: string, passwordHash: string,
                             githubUsername: Option<string>, createdAt: int)

  datatype ProjectRow = ProjectRow(id: int, creatorName: string, title: string, description: string,
                                   githubUrl: Option<string>, demoUrl: Option<string>,
                                   tags: Option<string>, category: Option<string>,
                                   createdAt: int, updatedAt: int, votes: int, featured: bool)

  datatype CommentRow = CommentRow(id: int, userId: int, projectId: int, content: string, createdAt: int)

  /** Request bodies: each field is absent or a string. */
  datatype RegisterBody = RegisterBody(username: Option<string>, email: Option<string>,
                                       password: Option<string>, githubUsername: Option<string>)
  datatype LoginBody = LoginBody(email: Option<string>, password: Option<string>)
  datatype ProjectBody = ProjectBody(title: Option<string>, description: Option<string>,
                                     githubUrl: Option<string>, demoUrl: Option<string>,
                                     tags: Option<string>, category: Option<string>,
                                     creatorName: Option<string>)

  datatype PublicUser = PublicUser(id: int, username: string, email: string, githubUsername: Option<string>)

  /** A comment as the detail route returns it: the row joined with its
      author's username. */
  datatype CommentView = CommentView(id: int, userId: int, projectId: int, content: string,
                                     createdAt: int, username: string)

  datatype Body =
    | Error(error: string)
    | Session(message: string, token: string, user: PublicUser)
    | ProfileRecord(user: PublicUser, createdAt: int)
    | ProjectCreated(projectId: int)
    | CommentAdded(commentId: int)
    | ProjectWithComments(project: ProjectRow, comments: seq<CommentView>)

  datatype Response = Response(status: int, body: Body)

  /** The `!username || !email || !password` test of register. */
  predicate RegisterFieldsPresent(b: RegisterBody) {
    Present(b.username) && Present(b.email) && Present(b.password)
  }

  /** The `!email || !password` test of login. */
  predicate LoginFieldsPresent(b: LoginBody) {
    Present(b.email) && Present(b.password)
  }

  /** The `!title || !description || !creator_name` test of project creation. */
  predicate ProjectFieldsPresent(b: ProjectBody) {
    Present(b.title) && Present(b.description) && Present(b.creatorName)
  }

  /** `!content || content.trim().length === 0` rejects; otherwise the text
      stored is the trimmed content. */
  function CommentContent(content: Option<string>): Option<string>
  {
    if !Present(content) || |Trim(content.value)| == 0 then None else Some(Trim(content.value))
  }

  /** A comment is refused exactly when it is absent or all whitespace, and
      the stored text neither starts nor ends with whitespace. */
  lemma CommentContentSpec(content: Option<string>)
    ensures CommentContent(content).None? <==>
              content.None? || forall i :: 0 <= i < |content.value| ==> IsWhitespace(content.value[i])
    ensures CommentContent(content).Some? ==>
              var stored := CommentContent(content).value;
              && stored == Trim(content.value) && stored != ""
              && !IsWhitespace(stored[0]) && !IsWhitespace(stored[|stored| - 1])
  {
    if content.Some? {
      TrimSpec(content.value);
    }
  }

  /** The first row satisfying `matches`, as `db.get` returns it. */
  function FirstMatch<T>(rows: seq<T>, matches: T -> bool): (r: Option<T>)
    ensures r.None? <==> forall i :: 0 <= i < |rows| ==> !matches(rows[i])
    ensures r.Some? ==> r.value in rows && matches(r.value)
  {
    if rows == [] then None
    else if matches(rows[0]) then Some(rows[0])
    else FirstMatch(rows[1..], matches)
  }

  function Public(u: UserRow): PublicUser {
    PublicUser(u.id, u.username, u.email, u.githubUsername)
  }

  /** Comments are listed oldest first. */
  predicate SortedByCreatedAt(s: seq<CommentView>) {
    forall i, j :: 0 <= i < j < |s| ==> s[i].createdAt <= s[j].createdAt
  }

  /** A bound below every element of `s` and below `c` is below every
      element of any rearrangement of them. */
  lemma BoundBelowAll(bound: int, r: seq<CommentView>, s: seq<CommentView>, c: CommentView)
    requires multiset(r) == multiset(s) + multiset{c}
    requires forall k :: 0 <= k < |s| ==> bound <= s[k].createdAt
    requires bound <= c.createdAt
    ensures forall k :: 0 <= k < |r| ==> bound <= r[k].createdAt
  {
    forall k | 0 <= k < |r| ensures bound <= r[k].createdAt {
      assert r[k] in multiset(s) + multiset{c};
      if r[k] != c {
        assert r[k] in s;
      }
    }
  }

  /** Inserts `c` before the first element that is not older than it. */
  function InsertByCreatedAt(c: CommentView, s: seq<CommentView>): (r: seq<CommentView>)
    requires SortedByCreatedAt(s)
    ensures SortedByCreatedAt(r)
    ensures multiset(r) == multiset(s) + multiset{c}
  {
    if s == [] then [c]
    else if c.createdAt <= s[0].createdAt then [c] + s
    else
      var tail := InsertByCreatedAt(c, s[1..]);
      assert s == [s[0]] + s[1..];
      BoundBelowAll(s[0].createdAt, tail, s[1..], c);
      [s[0]] + tail
  }

  /** The `ORDER BY c.created_at ASC` of the detail query: a sort by
      creation time that keeps the table order among equal timestamps. */
  function SortByCreatedAt(s: seq<CommentView>): (r: seq<CommentView>)
    ensures SortedByCreatedAt(r)
    ensures multiset(r) == multiset(s)
  {
    if s == [] then []
    else
      assert s == [s[0]] + s[1..];
      InsertByCreatedAt(s[0], SortByCreatedAt(s[1..]))
  }

  /** The author row `JOIN users u ON c.user_id = u.id` pairs with a
      comment written by `userId`. */
  function AuthorOf(users: seq<UserRow>, userId: int): Option<UserRow> {
    FirstMatch(users, (u: UserRow) => u.id == userId)
  }

  /** A comment row as the join lists it: with its author's username. */
  function View(c: CommentRow, author: UserRow): CommentView {
    CommentView(c.id, c.userId, c.projectId, c.content, c.createdAt, author.username)
  }

  /** The comment belongs to the project and its author row exists. */
  predicate Listed(users: seq<UserRow>, projectId: int, c: CommentRow) {
    c.projectId == projectId && AuthorOf(users, c.userId).Some?
  }

  /** `FROM comments c JOIN users u ON c.user_id = u.id WHERE c.project_id = ?`:
      exactly the project's comments whose author row exists, each with
      that author's username. */
  function CommentsOf(rows: seq<CommentRow>, users: seq<UserRow>, projectId: int): (r: seq<CommentView>)
    ensures forall v :: v in r ==>
              exists c :: c in rows && Listed(users, projectId, c) && v == View(c, AuthorOf(users, c.userId).value)
    ensures forall c :: c in rows && Listed(users, projectId, c) ==> View(c, AuthorOf(users, c.userId).value) in r
  {
    if rows == [] then []
    else
      var c := rows[0];
      var tail := CommentsOf(rows[1..], users, projectId);
      assert forall d :: d in rows[1..] ==> d in rows;
      assert forall d :: d in rows ==> d == c || d in rows[1..];
      if Listed(users, projectId, c) then [View(c, AuthorOf(users, c.userId).value)] + tail else tail
  }

  predicate RowIdsIncreasing(rows: seq<CommentRow>) {
    forall i, j :: 0 <= i < j < |rows| ==> rows[i].id < rows[j].id
  }

  predicate ViewIdsIncreasing(s: seq<CommentView>) {
    forall i, j :: 0 <= i < j < |s| ==> s[i].id < s[j].id
  }

  /** The join lists only ids of the rows it reads. */
  lemma {:induction false} CommentsAbove(rows: seq<CommentRow>, users: seq<UserRow>, projectId: int, bound: int)
    requires forall k :: 0 <= k < |rows| ==> bound < rows[k].id
    ensures forall v :: v in CommentsOf(rows, users, projectId) ==> bound < v.id
  {
    if rows != [] {
      CommentsAbove(rows[1..], users, projectId, bound);
    }
  }

  /** A comment placed before comments of larger, increasing ids keeps the
      ids increasing. */
  lemma ConsIncreasing(v: CommentView, tail: seq<CommentView>)
    requires ViewIdsIncreasing(tail)
    requires forall w :: w in tail ==> v.id < w.id
    ensures ViewIdsIncreasing([v] + tail)
  {
    var r := [v] + tail;
    forall i, j | 0 <= i < j < |r| ensures r[i].id < r[j].id {
      assert r[j] == tail[j - 1] && r[j] in tail;
      if i > 0 {
        assert r[i] == tail[i - 1];
      }
    }
  }

  /** Rows in increasing id order give comments in increasing id order:
      the join lists each comment row once. */
  lemma {:induction false} CommentsOfIncreasing(rows: seq<CommentRow>, users: seq<UserRow>, projectId: int)
    requires RowIdsIncreasing(rows)
    ensures ViewIdsIncreasing(CommentsOf(rows, users, projectId))
  {
    if rows != [] {
      var c := rows[0];
      var tail := CommentsOf(rows[1..], users, projectId);
      CommentsOfIncreasing(rows[1..], users, projectId);
      if Listed(users, projectId, c) {
        assert forall k :: 0 <= k < |rows[1..]| ==> rows[1..][k] == rows[k + 1];
        CommentsAbove(rows[1..], users, projectId, c.id);
        assert CommentsOf(rows, users, projectId) == [View(c, AuthorOf(users, c.userId).value)] + tail;
        ConsIncreasing(View(c, AuthorOf(users, c.userId).value), tail);
      } else {
        assert CommentsOf(rows, users, projectId) == tail;
      }
    }
  }

  /** The join over a table in id order lists no comment twice. */
  lemma CommentsListedOnce(rows: seq<CommentRow>, users: seq<UserRow>, projectId: int)
    requires RowIdsIncreasing(rows)
    ensures forall v :: multiset(CommentsOf(rows, users, projectId))[v] <= 1
  {
    CommentsOfIncreasing(rows, users, projectId);
    IncreasingIdsOnce(CommentsOf(rows, users, projectId));
  }

  /** Comments with strictly increasing ids hold each comment at most once. */
  lemma {:induction false} IncreasingIdsOnce(s: seq<CommentView>)
    requires ViewIdsIncreasing(s)
    ensures forall v :: multiset(s)[v] <= 1
  {
    if s != [] {
      IncreasingIdsOnce(s[1..]);
      assert s == [s[0]] + s[1..];
      assert s[0] !in s[1..];
    }
  }

  class Store {
    var users: seq<UserRow>
    var projects: seq<ProjectRow>
    var comments: seq<CommentRow>
    var nextUserId: int
    var nextProjectId: int
    var nextCommentId: int

    /** Ids are assigned in increasing order below the counters, and the
        UNIQUE columns `username` and `email` hold no duplicates. */
    ghost predicate Valid()
      reads this
    {
      && 1 <= nextUserId && 1 <= nextProjectId && 1 <= nextCommentId
      && (forall i :: 0 <= i < |users| ==> 1 <= users[i].id < nextUserId)
      && (forall i, j :: 0 <= i < j < |users| ==> users[i].id < users[j].id)
      && (forall i, j :: 0 <= i < j < |users| ==>
            users[i].username != users[j].username && users[i].email != users[j].email)
      && (forall i :: 0 <= i < |projects| ==> 1 <= projects[i].id < nextProjectId)
      && (forall i, j :: 0 <= i < j < |projects| ==> projects[i].id < projects[j].id)
      && (forall i :: 0 <= i < |comments| ==> 1 <= comments[i].id < nextCommentId)
      && (forall i, j :: 0 <= i < j < |comments| ==> comments[i].id < comments[j].id)
    }

    constructor ()
      ensures Valid()
      ensures users == [] && projects == [] && comments == []
    {
      users, projects, comments := [], [], [];
      nextUserId, nextProjectId, nextCommentId := 1, 1, 1;
    }

    /** The insert would violate `username UNIQUE` or `email UNIQUE`. */
    predicate Taken(username: string, email: string)
      reads this
    {
      exists i :: 0 <= i < |users| && (users[i].username == username || users[i].email == email)
    }

    /** POST /api/auth/register. */
    method Register(body: RegisterBody, hash: string -> string, sign: Claims -> string,
                    dbError: bool, now: int) returns (res: Response)
      requires Valid()
      modifies this
      ensures Valid()
      ensures projects == old(projects) && comments == old(comments)
      ensures nextProjectId == old(nextProjectId) && nextCommentId == old(nextCommentId)
      ensures !RegisterFieldsPresent(body) ==>
                && res == Response(400, Error("Username, email, and password are required"))
                && users == old(users) && nextUserId == old(nextUserId)
      ensures RegisterFieldsPresent(body) && old(Taken(body.username.value, body.email.value)) ==>
                && res == Response(400, Error("Username or email already exists"))
                && users == old(users) && nextUserId == old(nextUserId)
      ensures RegisterFieldsPresent(body) && !old(Taken(body.username.value, body.email.value)) && dbError ==>
                && res == Response(500, Error("Failed to create user"))
                && users == old(users) && nextUserId == old(nextUserId)
      ensures RegisterFieldsPresent(body) && !old(Taken(body.username.value, body.email.value)) && !dbError ==>
                var id := old(nextUserId);
                var (name, email) := (body.username.value, body.email.value);
                && users == old(users) + [UserRow(id, name, email, hash(body.password.value),
                                                  if Present(body.githubUsername) then body.githubUsername else None, now)]
                && nextUserId == id + 1
                && res == Response(201, Session("User created successfully", sign(Claims(id, name)),
                                                PublicUser(id, name, email, body.githubUsername)))
    {
      if !RegisterFieldsPresent(body) {
        return Response(400, Error("Username, email, and password are required"));
      }
      var name, email, password := body.username.value, body.email.value, body.password.value;
      var passwordHash := hash(password);
      if Taken(name, email) {
        return Response(400, Error("Username or email already exists"));
      }
      if dbError {
        return Response(500, Error("Failed to create user"));
      }
      var id := nextUserId;
      var github := if Present(body.githubUsername) then body.githubUsername else None;
      users := users + [UserRow(id, name, email, passwordHash, github, now)];
      nextUserId := nextUserId + 1;
      res := Response(201, Session("User created successfully", sign(Claims(id, name)),
                                   PublicUser(id, name, email, body.githubUsername)));
    }

    /** POST /api/auth/login. An unknown email and a wrong password give the
        same 401; a token is issued for the one user with that email. */
    function Login(body: LoginBody, checkPassword: (string, string) -> bool,
                   sign: Claims -> string, dbError: bool): (res: Response)
      reads this
      requires Valid()
      ensures res.status == 400 <==> !LoginFieldsPresent(body)
      ensures res.status == 500 <==> LoginFieldsPresent(body) && dbError
      ensures res.status == 200 <==>
                && LoginFieldsPresent(body) && !dbError
                && exists i :: 0 <= i < |users| && users[i].email == body.email.value
                                 && checkPassword(body.password.value, users[i].passwordHash)
      ensures res.status == 401 ==> res.body == Error("Invalid credentials")
      ensures res.status in {200, 400, 401, 500}
      ensures res.status == 200 ==>
                forall i :: 0 <= i < |users| && users[i].email == body.email.value ==>
                  res.body == Session("Login successful", sign(Claims(users[i].id, users[i].username)),
                                      Public(users[i]))
    {
      if !LoginFieldsPresent(body) then Response(400, Error("Email and password are required"))
      else if dbError then Response(500, Error("Database error"))
      else
        var email := body.email.value;
        match FirstMatch(users, (u: UserRow) => u.email == email)
        case None => Response(401, Error("Invalid credentials"))
        case Some(u) =>
          assert forall i :: 0 <= i < |users| && users[i].email == email ==> users[i] == u;
          if !checkPassword(body.password.value, u.passwordHash) then Response(401, Error("Invalid credentials"))
          else Response(200, Session("Login successful", sign(Claims(u.id, u.username)), Public(u)))
    }

    /** GET /api/auth/profile: the gate, then the user the token names. */
    function Profile(authorization: Option<string>, verify: string -> Option<Claims>,
                     dbError: bool): (res: Response)
      reads this
      requires Valid()
      ensures Authenticate(authorization, verify).Rejected? ==>
                var r := Authenticate(authorization, verify); res == Response(r.status, Error(r.error))
      ensures res.status == 500 <==> Authenticate(authorization, verify).Authenticated? && dbError
      ensures res.status == 500 ==> res.body == Error("Database error")
      ensures Authenticate(authorization, verify).Authenticated? && !dbError ==>
                var id := Authenticate(authorization, verify).user.id;
                && res.status in {200, 404}
                && (res.status == 404 <==> forall i :: 0 <= i < |users| ==> users[i].id != id)
                && (res.status == 404 ==> res.body == Error("User not found"))
                && (forall i :: 0 <= i < |users| && users[i].id == id ==>
                      res.status == 200 && res.body == ProfileRecord(Public(users[i]), users[i].createdAt))
    {
      match Authenticate(authorization, verify)
      case Rejected(status, error) => Response(status, Error(error))
      case Authenticated(claims) =>
        if dbError then Response(500, Error("Database error"))
        else
          match FirstMatch(users, (u: UserRow) => u.id == claims.id)
          case None => Response(404, Error("User not found"))
          case Some(u) =>
            assert forall i :: 0 <= i < |users| && users[i].id == claims.id ==> users[i] == u;
            Response(200, ProfileRecord(Public(u), u.createdAt))
    }

    /** POST /api/projects (no authentication). */
    method CreateProject(body: ProjectBody, dbError: bool, now: int) returns (res: Response)
      requires Valid()
      modifies this
      ensures Valid()
      ensures users == old(users) && comments == old(comments)
      ensures nextUserId == old(nextUserId) && nextCommentId == old(nextCommentId)
      ensures !ProjectFieldsPresent(body) ==>
                && res == Response(400, Error("Title, description, and creator name are required"))
                && projects == old(projects) && nextProjectId == old(nextProjectId)
      ensures ProjectFieldsPresent(body) && dbError ==>
                && res == Response(500, Error("Failed to create project"))
                && projects == old(projects) && nextProjectId == old(nextProjectId)
      ensures ProjectFieldsPresent(body) && !dbError ==>
                var id := old(nextProjectId);
                && projects == old(projects) + [ProjectRow(id, body.creatorName.value, body.title.value,
                                                           body.description.value, body.githubUrl, body.demoUrl,
                                                           body.tags, body.category, now, now, 0, false)]
                && nextProjectId == id + 1
                && res == Response(201, ProjectCreated(id))
    {
      if !ProjectFieldsPresent(body) {
        return Response(400, Error("Title, description, and creator name are required"));
      }
      if dbError {
        return Response(500, Error("Failed to create project"));
      }
      var id := nextProjectId;
      projects := projects + [ProjectRow(id, body.creatorName.value, body.title.value, body.description.value,
                                         body.githubUrl, body.demoUrl, body.tags, body.category, now, now, 0, false)];
      nextProjectId := nextProjectId + 1;
      res := Response(201, ProjectCreated(id));
    }

    /** The handler of POST /api/projects/:id/comments, run once the gate
        has set `req.user`: the content check, then the insert of the
        trimmed text under the token's user id. The project id is not
        checked (SQLite leaves foreign keys unenforced unless told
        otherwise). */
    method AddComment(user: Claims, projectId: int, content: Option<string>, dbError: bool, now: int)
      returns (res: Response)
      requires Valid()
      modifies this
      ensures Valid()
      ensures users == old(users) && projects == old(projects)
      ensures nextUserId == old(nextUserId) && nextProjectId == old(nextProjectId)
      ensures CommentContent(content).None? ==>
                res == Response(400, Error("Comment content is required")) && comments == old(comments)
                && nextCommentId == old(nextCommentId)
      ensures CommentContent(content).Some? && dbError ==>
                res == Response(500, Error("Failed to add comment")) && comments == old(comments)
                && nextCommentId == old(nextCommentId)
      ensures CommentContent(content).Some? && !dbError ==>
                var id := old(nextCommentId);
                && comments == old(comments) + [CommentRow(id, user.id, projectId, CommentContent(content).value, now)]
                && nextCommentId == id + 1
                && res == Response(201, CommentAdded(id))
    {
      var text := CommentContent(content);
      if text.None? {
        return Response(400, Error("Comment content is required"));
      }
      if dbError {
        return Response(500, Error("Failed to add comment"));
      }
      var id := nextCommentId;
      comments, nextCommentId := comments + [CommentRow(id, user.id, projectId, text.value, now)], id + 1;
      res := Response(201, CommentAdded(id));
    }

    /** POST /api/projects/:id/comments as routed: `authenticateToken`
        first, and the handler only when it calls `next`. */
    method PostComment(authorization: Option<string>, verify: string -> Option<Claims>,
                       projectId: int, content: Option<string>, dbError: bool, now: int)
      returns (res: Response)
      requires Valid()
      modifies this
      ensures Valid()
      ensures users == old(users) && projects == old(projects)
      ensures nextUserId == old(nextUserId) && nextProjectId == old(nextProjectId)
      ensures Authenticate(authorization, verify).Rejected? ==>
                var r := Authenticate(authorization, verify);
                && res == Response(r.status, Error(r.error))
                && comments == old(comments) && nextCommentId == old(nextCommentId)
      ensures Authenticate(authorization, verify).Authenticated? && CommentContent(content).None? ==>
                && res == Response(400, Error("Comment content is required"))
                && comments == old(comments) && nextCommentId == old(nextCommentId)
      ensures Authenticate(authorization, verify).Authenticated? && CommentContent(content).Some? && dbError ==>
                && res == Response(500, Error("Failed to add comment"))
                && comments == old(comments) && nextCommentId == old(nextCommentId)
      ensures Authenticate(authorization, verify).Authenticated? && CommentContent(content).Some? && !dbError ==>
                var id := old(nextCommentId);
                var user := Authenticate(authorization, verify).user;
                && comments == old(comments) + [CommentRow(id, user.id, projectId, Trim(content.value), now)]
                && nextCommentId == id + 1
                && res == Response(201, CommentAdded(id))
    {
      var auth := Authenticate(authorization, verify);
      if auth.Rejected? {
        return Response(auth.status, Error(auth.error));
      }
      res := AddComment(auth.user, projectId, content, dbError, now);
    }

    /** GET /api/projects/:id: 404 for an unknown id; otherwise the project
        with its comments, oldest first. */
    function ProjectDetail(projectId: int, dbError: bool): (res: Response)
      reads this
      requires Valid()
      ensures res.status in {200, 404, 500}
      ensures res.status == 500 <==> dbError
      ensures res.status == 500 ==> res.body == Error("Database error")
      ensures !dbError ==> (res.status == 404 <==> forall i :: 0 <= i < |projects| ==> projects[i].id != projectId)
      ensures !dbError && (exists i :: 0 <= i < |projects| && projects[i].id == projectId) ==> res.status == 200
      ensures res.status == 404 ==> res.body == Error("Project not found")
      ensures res.status == 200 ==>
                && res.body.ProjectWithComments?
                && res.body.project in projects && res.body.project.id == projectId
                && SortedByCreatedAt(res.body.comments)
                && multiset(res.body.comments) == multiset(CommentsOf(comments, users, projectId))
                && forall v :: multiset(res.body.comments)[v] <= 1
    {
      if dbError then Response(500, Error("Database error"))
      else
        match FirstMatch(projects, (p: ProjectRow) => p.id == projectId)
        case None => Response(404, Error("Project not found"))
        case Some(p) =>
          CommentsListedOnce(comments, users, projectId);
          Response(200, ProjectWithComments(p, SortByCreatedAt(CommentsOf(comments, users, projectId))))
    }
  }

  /** Every stored comment of an existing project whose author row exists
      is in the project's detail, with that author's username. */
  lemma DetailListsComment(store: Store, projectId: int, c: CommentRow, author: nat)
    requires store.Valid()
    requires exists i :: 0 <= i < |store.projects| && store.projects[i].id == projectId
    requires c in store.comments && c.projectId == projectId
    requires author < |store.users| && store.users[author].id == c.userId
    ensures store.ProjectDetail(projectId, false).status == 200
    ensures View(c, store.users[author]) in store.ProjectDetail(projectId, false).body.comments
  {
    var users := store.users;
    var u := AuthorOf(users, c.userId);
    assert u.Some? && u.value in users && u.value.id == c.userId;
    assert u.value == users[author];
    var listed := CommentsOf(store.comments, users, projectId);
    assert View(c, users[author]) in listed;
    assert View(c, users[author]) in multiset(listed);
  }

  /** Registering the same email twice leaves exactly one user row: the
      first call answers 201, the second 400. */
  method RegisterSameEmailTwice(hash: string -> string, sign: Claims -> string, now: int)
    returns (first: int, second: int, rows: nat)
    ensures first == 201 && second == 400 && rows == 1
  {
    var store := new Store();
    var r1 := store.Register(RegisterBody(Some("ada"), Some("ada@example.com"), Some("pw1"), None),
                             hash, sign, false, now);
    assert store.users[0].email == "ada@example.com";
    var r2 := store.Register(RegisterBody(Some("lovelace"), Some("ada@example.com"), Some("pw2"), None),
                             hash, sign, false, now);
    first, second, rows := r1.status, r2.status, |store.users|;
  }
}
