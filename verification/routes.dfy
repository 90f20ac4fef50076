/** The server's routing (main.go): the API route table under `/api/v1`, the static assets, and
    the fallback that serves the single-page app for every other GET outside `/api/`, with gin's
    trailing-slash redirect in between. A request URL is split into its path and its query; the
    query is read like Go's `url.Query`, percent-decoding included. */
module Routes {
  import opened Wrappers
  import opened Text
  import opened Seqs
  import ApiClient
  import MigrationHandler

  datatype Method = Get | Head | Post | OtherMethod(name: string)

  /** The registered API endpoints, with the `:taskId` path parameter where there is one. */
  datatype Endpoint =
    | Health
    | Scan
    | FolderDetails
    | Discover
    | ZimaosTest
    | CreateMigration
    | MigrationStatus(taskId: string)
    | ListMigrations
    | PauseMigration(taskId: string)
    | ResumeMigration(taskId: string)
    | CancelMigration(taskId: string)

  /** Where a request ends: an API handler, the static asset handler, a redirect to the same path
      with its trailing slash removed or added, the app's `index.html` (status 200) or the plain
      404. */
  datatype Routed = Api(endpoint: Endpoint) | Asset | Redirect(code: int, location: string) | IndexPage | NotFound

  const ApiPrefix: string := "/api/v1/"

  /** The route table, matched on the `/`-separated segments after `/api/v1/`. A path
      parameter matches one segment. gin's tree walk takes an empty segment for it when more of
      the path follows, as for the controls (`/migration//cancel`). As the last segment it
      takes only a non-empty one, because `/migration/` stops at the parameter's parent node. */
  function MatchApi(m: Method, path: string): (r: Option<Endpoint>)
    ensures r.Some? ==> StartsWith(path, ApiPrefix)
  {
    if !StartsWith(path, ApiPrefix) then None
    else RouteSegments(m, Split(path[|ApiPrefix|..], '/'))
  }

  /** The table itself, on the segments after the prefix. */
  function RouteSegments(m: Method, rest: seq<string>): Option<Endpoint> {
    if m == Get && rest == ["health"] then Some(Health)
    else if m == Get && rest == ["scan"] then Some(Scan)
    else if m == Post && rest == ["folder", "details"] then Some(FolderDetails)
    else if m == Get && rest == ["discover"] then Some(Discover)
    else if m == Post && rest == ["zimaos", "test"] then Some(ZimaosTest)
    else if m == Post && rest == ["migration"] then Some(CreateMigration)
    else if m == Get && |rest| == 2 && rest[0] == "migration" && rest[1] != "" then Some(MigrationStatus(rest[1]))
    else if m == Get && rest == ["migrations"] then Some(ListMigrations)
    else if m == Post && |rest| == 3 && rest[0] == "migration" && rest[2] == "pause" then
      Some(PauseMigration(rest[1]))
    else if m == Post && |rest| == 3 && rest[0] == "migration" && rest[2] == "resume" then
      Some(ResumeMigration(rest[1]))
    else if m == Post && |rest| == 3 && rest[0] == "migration" && rest[2] == "cancel" then
      Some(CancelMigration(rest[1]))
    else None
  }

  /** A GET or HEAD under `/assets/`, which the static handler answers when the assets were
      embedded. */
  predicate AssetPath(m: Method, path: string, assetsPresent: bool) {
    assetsPresent && (m == Get || m == Head) && StartsWith(path, "/assets/")
  }

  /** Some registered route of the method answers the path. */
  predicate Registered(m: Method, path: string, assetsPresent: bool) {
    MatchApi(m, path).Some? || AssetPath(m, path, assetsPresent)
  }

  /** The path gin's trailing-slash redirect tries: without its final slash, or with one added. */
  function SlashTwin(path: string): (r: string)
    ensures |path| > 1 && path[|path| - 1] == '/' ==> r + "/" == path
    ensures !(|path| > 1 && path[|path| - 1] == '/') ==> r == path + "/"
  {
    if |path| > 1 && path[|path| - 1] == '/' then path[..|path| - 1] else path + "/"
  }

  /** The node of the GET and POST route trees whose child is the `:taskId` parameter. */
  const ParamParent: string := "/api/v1/migration/"

  /** The path is `/api/v1/migration/`, then a slash-free (possibly empty) task id, then `/`. */
  predicate AfterTaskId(path: string) {
    |path| > |ParamParent| && path[..|ParamParent|] == ParamParent && path[|path| - 1] == '/' &&
    '/' !in path[|ParamParent|..|path| - 1]
  }

  /** The redirects gin's tree walk recommends whether or not the twin has a route: a `/` left
      over on the parameter's parent node, or right after the parameter. In the GET tree the
      parameter is a leaf, and in the POST tree it is followed by a static `/` node. Either way
      the walk ends on a node that answers "try without the slash". */
  predicate LooseSlashHint(m: Method, path: string) {
    (m == Get || m == Post) && (path == ParamParent || AfterTaskId(path))
  }

  /** gin's trailing-slash recommendation for a path no route answers: the twin has a route of
      the same method, or one of the loose cases above. */
  predicate SlashHint(m: Method, path: string, assetsPresent: bool) {
    Registered(m, SlashTwin(path), assetsPresent) || LooseSlashHint(m, path)
  }

  /** The router: API routes first, then the assets (when they were embedded). When neither
      matches and gin's tree walk recommends the path's trailing-slash twin, gin redirects there
      (301 for a GET, 307 otherwise; never for "/"). The twin need not have a route of its own.
      Otherwise the fallback serves `index.html` exactly for GETs whose path is not under
      `/api/`. */
  function Route(m: Method, path: string, assetsPresent: bool): (r: Routed)
    ensures r.Api? <==> MatchApi(m, path).Some?
    ensures r.Api? ==> StartsWith(path, ApiPrefix)
    ensures r.Asset? <==> MatchApi(m, path).None? && AssetPath(m, path, assetsPresent)
    ensures r.Redirect? <==> !Registered(m, path, assetsPresent) && path != "/" &&
                             SlashHint(m, path, assetsPresent)
    ensures r.Redirect? ==> r.location == SlashTwin(path) && r.code == (if m == Get then 301 else 307)
    ensures r.IndexPage? ==> m == Get && !StartsWith(path, "/api/")
    ensures !Registered(m, path, assetsPresent) && !r.Redirect? ==>
              (r.IndexPage? <==> m == Get && !StartsWith(path, "/api/")) && (r.NotFound? <==> !r.IndexPage?)
  {
    match MatchApi(m, path)
    case Some(e) => Api(e)
    case None =>
      if AssetPath(m, path, assetsPresent) then Asset
      else if path != "/" && SlashHint(m, path, assetsPresent) then
        Redirect(if m == Get then 301 else 307, SlashTwin(path))
      else if m == Get && !StartsWith(path, "/api/") then IndexPage
      else NotFound
  }

  /** Following a redirect reaches an API handler or the assets exactly when the twin has a
      route. Otherwise it was a loose case under `/api/v1/migration/`, and the twin is not found
      or is redirected once more. It is never the app page. */
  lemma RedirectLands(m: Method, path: string, assetsPresent: bool)
    requires Route(m, path, assetsPresent).Redirect?
    ensures var next := Route(m, Route(m, path, assetsPresent).location, assetsPresent);
      (next.Api? || next.Asset?) <==> Registered(m, SlashTwin(path), assetsPresent)
    ensures var next := Route(m, Route(m, path, assetsPresent).location, assetsPresent);
      !Registered(m, SlashTwin(path), assetsPresent) ==>
        LooseSlashHint(m, path) && (next.NotFound? || next.Redirect?)
  {
    if !Registered(m, SlashTwin(path), assetsPresent) {
      assert LooseSlashHint(m, path);
      assert |path| >= |ParamParent| && path[..|ParamParent|] == ParamParent;
      assert path[|path| - 1] == '/' by {
        if path == ParamParent {
          assert path[|path| - 1] == ParamParent[17];
        }
      }
      var twin := SlashTwin(path);
      assert twin == path[..|path| - 1];
      assert twin[..5] == path[..5] == ParamParent[..5] == "/api/";
    }
  }

  /** GET `/api/v1/migration/` is redirected, 301, to `/api/v1/migration`, which has no GET
      route and is not found. */
  lemma StatusParentRedirectsNowhere(assetsPresent: bool)
    ensures Route(Get, "/api/v1/migration/", assetsPresent) == Redirect(301, "/api/v1/migration")
    ensures Route(Get, "/api/v1/migration", assetsPresent) == NotFound
  {
    var path := "/api/v1/migration/";
    assert path == ParamParent;
    MigrationSegments();
    assert SlashTwin(path) == "/api/v1/migration";
    var bare := "/api/v1/migration";
    assert StartsWith(bare, "/api/");
    assert SlashTwin(bare) == path;
    assert !AfterTaskId(bare);
  }

  /** The segments after the prefix of `/api/v1/migration` and of `/api/v1/migration/`. */
  lemma MigrationSegments()
    ensures Split("/api/v1/migration"[|ApiPrefix|..], '/') == ["migration"]
    ensures Split("/api/v1/migration/"[|ApiPrefix|..], '/') == ["migration", ""]
    ensures StartsWith("/api/v1/migration", ApiPrefix) && StartsWith("/api/v1/migration/", ApiPrefix)
  {
    assert "/api/v1/migration"[|ApiPrefix|..] == "migration";
    assert '/' !in "migration";
    assert "/api/v1/migration/"[|ApiPrefix|..] == "migration" + ['/'] + "";
    SplitAppend("migration", '/', "");
  }

  /** POST `/api/v1/migration/<id>/` is redirected, 307, to `/api/v1/migration/<id>`, which has
      no POST route and is not found. */
  lemma ControlParentRedirectsNowhere(taskId: string, assetsPresent: bool)
    requires '/' !in taskId && taskId != ""
    ensures Route(Post, ParamParent + taskId + "/", assetsPresent) == Redirect(307, ParamParent + taskId)
    ensures Route(Post, ParamParent + taskId, assetsPresent) == NotFound
  {
    TaskIdSegments(taskId);
    TaskSlashRedirects(taskId, assetsPresent);
    TaskPathNotFound(taskId, assetsPresent);
  }

  lemma TaskSlashRedirects(taskId: string, assetsPresent: bool)
    requires '/' !in taskId
    requires Split((ParamParent + taskId)[|ApiPrefix|..], '/') == ["migration", taskId]
    requires Split((ParamParent + taskId + "/")[|ApiPrefix|..], '/') == ["migration", taskId, ""]
    ensures Route(Post, ParamParent + taskId + "/", assetsPresent) == Redirect(307, ParamParent + taskId)
  {
    var path := ParamParent + taskId + "/";
    var bare := ParamParent + taskId;
    assert path[..|ParamParent|] == ParamParent && path[|ParamParent|..|path| - 1] == taskId;
    assert AfterTaskId(path);
    assert SlashTwin(path) == bare;
    var rest: seq<string> := ["migration", taskId, ""];
    assert RouteSegments(Post, rest).None?;
    assert MatchApi(Post, path).None?;
  }

  lemma TaskPathNotFound(taskId: string, assetsPresent: bool)
    requires '/' !in taskId && taskId != ""
    requires Split((ParamParent + taskId)[|ApiPrefix|..], '/') == ["migration", taskId]
    requires Split((ParamParent + taskId + "/")[|ApiPrefix|..], '/') == ["migration", taskId, ""]
    ensures Route(Post, ParamParent + taskId, assetsPresent) == NotFound
  {
    var path := ParamParent + taskId + "/";
    var bare := ParamParent + taskId;
    assert bare[..|ApiPrefix|] == ApiPrefix;
    assert SlashTwin(bare) == path;
    assert RouteSegments(Post, ["migration", taskId]).None?;
    assert MatchApi(Post, bare).None?;
    assert RouteSegments(Post, ["migration", taskId, ""]).None?;
    assert path[..|ApiPrefix|] == ApiPrefix;
    assert MatchApi(Post, path).None?;
    assert bare[|bare| - 1] == taskId[|taskId| - 1];
    assert !LooseSlashHint(Post, bare);
    assert bare[..5] == "/api/";
  }

  /** The segments after the prefix of `/api/v1/migration/<id>` and of `/api/v1/migration/<id>/`. */
  lemma TaskIdSegments(taskId: string)
    requires '/' !in taskId
    ensures StartsWith(ParamParent + taskId, ApiPrefix) && StartsWith(ParamParent + taskId + "/", ApiPrefix)
    ensures Split((ParamParent + taskId)[|ApiPrefix|..], '/') == ["migration", taskId]
    ensures Split((ParamParent + taskId + "/")[|ApiPrefix|..], '/') == ["migration", taskId, ""]
  {
    AfterPrefix(taskId);
    AfterPrefix(taskId + "/");
    assert ParamParent + taskId + "/" == ParamParent + (taskId + "/");
    var two: seq<string> := ["migration", taskId];
    var three: seq<string> := ["migration", taskId, ""];
    assert two[1..] == [taskId] && three[1..] == [taskId, ""] && three[1..][1..] == [""];
    assert JoinSlash(two) == "migration" + "/" + taskId;
    assert JoinSlash(three[1..][1..]) == "";
    assert JoinSlash(three[1..]) == taskId + "/";
    assert JoinSlash(three) == "migration" + "/" + (taskId + "/");
    assert (ParamParent + (taskId + "/"))[|ApiPrefix|..] == JoinSlash(three);
    assert (ParamParent + taskId)[|ApiPrefix|..] == JoinSlash(two);
    assert '/' !in "migration" && '/' !in "";
    SplitJoin(two);
    SplitJoin(three);
  }

  /** What follows `/api/v1/` in `/api/v1/migration/` followed by `tail`. */
  lemma AfterPrefix(tail: string)
    ensures StartsWith(ParamParent + tail, ApiPrefix)
    ensures (ParamParent + tail)[|ApiPrefix|..] == "migration" + ['/'] + tail
  {
    assert (ParamParent + tail)[..|ApiPrefix|] == ParamParent[..|ApiPrefix|] == ApiPrefix;
  }

  /** The list path with a trailing slash is redirected to the list path. */
  lemma ListTrailingSlashRedirects(assetsPresent: bool)
    ensures Route(Get, "/api/v1/migrations/", assetsPresent) == Redirect(301, "/api/v1/migrations")
  {
    var path := "/api/v1/migrations/";
    assert StartsWith(path, ApiPrefix);
    assert path[|ApiPrefix|..] == "migrations" + ['/'] + "";
    SplitAppend("migrations", '/', "");
    var rest: seq<string> := ["migrations", ""];
    assert Split(path[|ApiPrefix|..], '/') == rest;
    assert rest != ["health"] && rest != ["scan"] && rest != ["discover"] && rest != ["migrations"];
    assert rest[1] == "";
    assert MatchApi(Get, path).None?;
    assert SlashTwin(path) == "/api/v1/migrations";
    ListPathRoutes(assetsPresent);
  }

  /** Nothing under `/api/` is ever answered with the app page, and nothing but a GET is. */
  lemma ApiNeverFallsBackToApp(m: Method, path: string, assetsPresent: bool)
    ensures StartsWith(path, "/api/") ==> Route(m, path, assetsPresent) != IndexPage
    ensures m != Get ==> Route(m, path, assetsPresent) != IndexPage
  {
  }

  /** `/`-separated segments joined back together. */
  function JoinSlash(segs: seq<string>): (s: string)
    requires |segs| >= 1
  {
    if |segs| == 1 then segs[0] else segs[0] + "/" + JoinSlash(segs[1..])
  }

  /** Splitting undoes joining when no segment holds a slash. */
  lemma {:induction false} SplitJoin(segs: seq<string>)
    requires |segs| >= 1 && forall i :: 0 <= i < |segs| ==> '/' !in segs[i]
    ensures Split(JoinSlash(segs), '/') == segs
  {
    if |segs| > 1 {
      SplitJoin(segs[1..]);
      SplitAppend(segs[0], '/', JoinSlash(segs[1..]));
      assert segs[0] + "/" + JoinSlash(segs[1..]) == segs[0] + ['/'] + JoinSlash(segs[1..]);
      assert segs == [segs[0]] + segs[1..];
    } else {
      assert '/' !in segs[0];
    }
  }

  /** The status URL of a task is the API prefix followed by two segments. */
  lemma StatusUrlSegments(taskId: string)
    requires '/' !in taskId
    ensures var url := ApiClient.RequestUrl(ApiClient.StatusPath(taskId));
      StartsWith(url, ApiPrefix) && Split(url[|ApiPrefix|..], '/') == ["migration", taskId]
  {
    var url := ApiClient.RequestUrl(ApiClient.StatusPath(taskId));
    var segs := ["migration", taskId];
    assert url == ApiPrefix + ("migration" + "/" + taskId);
    assert url[|ApiPrefix|..] == "migration" + "/" + taskId;
    assert segs[1..] == [taskId];
    assert JoinSlash(segs) == "migration" + "/" + taskId;
    SplitJoin(segs);
  }

  /** A control URL of a task is the API prefix followed by three segments. */
  lemma ControlUrlSegments(taskId: string, c: ApiClient.Control)
    requires '/' !in taskId
    ensures var url := ApiClient.RequestUrl(ApiClient.ControlPath(taskId, c));
      StartsWith(url, ApiPrefix) && Split(url[|ApiPrefix|..], '/') == ["migration", taskId, ApiClient.ControlName(c)]
  {
    var name := ApiClient.ControlName(c);
    var url := ApiClient.RequestUrl(ApiClient.ControlPath(taskId, c));
    var segs := ["migration", taskId, name];
    assert url == ApiPrefix + ("migration" + "/" + (taskId + "/" + name));
    assert url[|ApiPrefix|..] == "migration" + "/" + (taskId + "/" + name);
    assert segs[1..] == [taskId, name] && segs[1..][1..] == [name];
    assert JoinSlash(segs[1..]) == taskId + "/" + name;
    assert JoinSlash(segs) == "migration" + "/" + (taskId + "/" + name);
    assert '/' !in name;
    SplitJoin(segs);
  }

  /** The table entries for a task's status and controls. */
  lemma TaskSegmentsRoute(taskId: string, c: Option<ApiClient.Control>)
    requires c.None? ==> taskId != ""
    ensures c.None? ==> RouteSegments(Get, ["migration", taskId]) == Some(MigrationStatus(taskId))
    ensures c.Some? ==>
      RouteSegments(Post, ["migration", taskId, ApiClient.ControlName(c.value)]) ==
        Some(match c.value
             case Pause => PauseMigration(taskId)
             case Resume => ResumeMigration(taskId)
             case Cancel => CancelMigration(taskId))
  {
    var h: seq<string> := ["migration", taskId];
    assert h != ["health"] && h != ["scan"] && h != ["discover"] && h != ["migrations"];
    if c.Some? {
      var n := ApiClient.ControlName(c.value);
      var p: seq<string> := ["migration", taskId, n];
      assert p != ["folder", "details"] && p != ["zimaos", "test"] && p != ["migration"];
    }
  }

  /** The status path the browser uses for a task reaches the status handler with the same id,
      as long as the id is a non-empty single segment. */
  lemma ClientStatusPathRoutes(taskId: string, assetsPresent: bool)
    requires taskId != "" && '/' !in taskId
    ensures Route(Get, ApiClient.RequestUrl(ApiClient.StatusPath(taskId)), assetsPresent) == Api(MigrationStatus(taskId))
  {
    var url := ApiClient.RequestUrl(ApiClient.StatusPath(taskId));
    StatusUrlSegments(taskId);
    TaskSegmentsRoute(taskId, None);
    RouteOfApi(Get, url, assetsPresent);
  }

  /** Likewise the pause, resume and cancel paths reach their handlers with the same id, an empty
      one included. */
  lemma ClientControlPathRoutes(taskId: string, c: ApiClient.Control, assetsPresent: bool)
    requires '/' !in taskId
    ensures Route(Post, ApiClient.RequestUrl(ApiClient.ControlPath(taskId, c)), assetsPresent) ==
            Api(match c
                case Pause => PauseMigration(taskId)
                case Resume => ResumeMigration(taskId)
                case Cancel => CancelMigration(taskId))
  {
    var url := ApiClient.RequestUrl(ApiClient.ControlPath(taskId, c));
    ControlUrlSegments(taskId, c);
    TaskSegmentsRoute(taskId, Some(c));
    RouteOfApi(Post, url, assetsPresent);
  }

  lemma RouteOfApi(m: Method, path: string, assetsPresent: bool)
    requires MatchApi(m, path).Some?
    ensures Route(m, path, assetsPresent) == Api(MatchApi(m, path).value)
  {
  }

  /** The status handler is never handed an empty task id, so its emptiness check is never
      reached. */
  lemma RoutedStatusIdNonEmpty(m: Method, path: string, assetsPresent: bool)
    ensures var r := Route(m, path, assetsPresent);
      r.Api? && r.endpoint.MigrationStatus? ==> r.endpoint.taskId != ""
  {
  }

  /** A control path with an empty id segment reaches its handler with the empty id. For cancel
      this is the handler's "Task ID is required" check. */
  lemma EmptyControlIdRouted(c: ApiClient.Control, assetsPresent: bool)
    ensures Route(Post, ApiClient.RequestUrl(ApiClient.ControlPath("", c)), assetsPresent) ==
            Api(match c
                case Pause => PauseMigration("")
                case Resume => ResumeMigration("")
                case Cancel => CancelMigration(""))
  {
    ClientControlPathRoutes("", c, assetsPresent);
  }


  /** A URL split at its first `?` into the path and the raw query. */
  function SplitUrl(url: string): (r: (string, string))
    ensures '?' !in url ==> r == (url, "")
    ensures '?' in url ==> '?' !in r.0 && url == r.0 + "?" + r.1
  {
    if '?' in url then
      var i := IndexOf(url, '?');
      assert url == url[..i] + "?" + url[i + 1..];
      (url[..i], url[i + 1..])
    else (url, "")
  }

  /** A request URL routed by its path. A redirect's location is the request URL with the path
      replaced by its twin: gin writes the location from the whole URL, so the query, and a bare
      trailing `?`, are kept. */
  function RouteRequest(m: Method, url: string, assetsPresent: bool): (r: Routed)
    ensures var path := SplitUrl(url).0;
      !Route(m, path, assetsPresent).Redirect? ==> r == Route(m, path, assetsPresent)
    ensures var path := SplitUrl(url).0;
      r.Redirect? <==> Route(m, path, assetsPresent).Redirect?
    ensures var path := SplitUrl(url).0;
      r.Redirect? ==> r.code == Route(m, path, assetsPresent).code && |path| <= |url| &&
                      r.location == SlashTwin(path) + url[|path|..]
  {
    var path := SplitUrl(url).0;
    match Route(m, path, assetsPresent)
    case Redirect(code, location) => Redirect(code, location + url[|path|..])
    case other => other
  }

  /** The path before the first `?` is recovered from the path and its query. */
  lemma SplitUrlOf(path: string, query: string)
    requires '?' !in path
    ensures SplitUrl(path + "?" + query) == (path, query)
  {
    var url := path + "?" + query;
    assert url[|path|] == '?';
    var i := IndexOf(url, '?');
    assert forall j :: 0 <= j < |path| ==> url[j] == path[j];
    assert forall j :: 0 <= j < i ==> url[..i][j] == url[j];
    assert i == |path|;
    assert url[..i] == path;
    assert url[i + 1..] == query;
  }

  /** A redirected request keeps its query: the location is the twin, `?`, and the same query. */
  lemma RedirectKeepsQuery(m: Method, path: string, query: string, assetsPresent: bool)
    requires '?' !in path && Route(m, path, assetsPresent).Redirect?
    ensures RouteRequest(m, path + "?" + query, assetsPresent) ==
            Redirect(Route(m, path, assetsPresent).code, SlashTwin(path) + "?" + query)
  {
    SplitUrlOf(path, query);
    var url := path + "?" + query;
    assert url[|path|..] == "?" + query;
  }

  /** The key of a query piece: the text before its first `=`. */
  function PieceKey(piece: string): string {
    if '=' in piece then piece[..IndexOf(piece, '=')] else piece
  }

  /** The value of a query piece: the text after its first `=`, "" when there is none. */
  function PieceValue(piece: string): string {
    if '=' in piece then piece[IndexOf(piece, '=') + 1..] else ""
  }

  predicate IsHex(c: char) {
    '0' <= c <= '9' || 'a' <= c <= 'f' || 'A' <= c <= 'F'
  }

  function HexValue(c: char): (v: nat)
    requires IsHex(c)
    ensures v < 16
  {
    if '0' <= c <= '9' then c as int - '0' as int
    else if 'a' <= c <= 'f' then c as int - 'a' as int + 10
    else c as int - 'A' as int + 10
  }

  /** Go's `url.QueryUnescape`: `+` is a space, `%` and two hex digits is the byte they name, and
      a `%` not followed by two hex digits makes the whole text an error (None). A decoded byte is
      the character with that code. */
  function Unescape(s: string): (r: Option<string>)
    ensures r.Some? ==> |r.value| <= |s|
    ensures '%' !in s && '+' !in s ==> r == Some(s)
    decreases |s|
  {
    if |s| == 0 then Some("")
    else if s[0] == '%' then
      if |s| >= 3 && IsHex(s[1]) && IsHex(s[2]) then
        match Unescape(s[3..])
        case Some(t) => Some([(16 * HexValue(s[1]) + HexValue(s[2])) as char] + t)
        case None => None
      else None
    else
      match Unescape(s[1..])
      case Some(t) =>
        assert '%' !in s && '+' !in s ==> s == [s[0]] + s[1..];
        Some([if s[0] == '+' then ' ' else s[0]] + t)
      case None => None
  }

  /** The upper-case hex digit of `d`. */
  function HexDigit(d: nat): (c: char)
    requires d < 16
    ensures IsHex(c) && HexValue(c) == d
  {
    "0123456789ABCDEF"[d]
  }

  /** Every character written as `%` and its two hex digits, as `url.QueryEscape` writes a byte it
      does not keep. */
  function PercentEncode(s: string): (r: string)
    requires forall i :: 0 <= i < |s| ==> s[i] as int < 0x100
    ensures |r| == 3 * |s|
  {
    if |s| == 0 then ""
    else ['%', HexDigit(s[0] as int / 16), HexDigit(s[0] as int % 16)] + PercentEncode(s[1..])
  }

  /** Percent-encoded text unescapes back to itself. */
  lemma {:induction false} UnescapePercentEncode(s: string)
    requires forall i :: 0 <= i < |s| ==> s[i] as int < 0x100
    ensures Unescape(PercentEncode(s)) == Some(s)
  {
    if |s| > 0 {
      var x := s[0] as int;
      var rest := PercentEncode(s[1..]);
      assert PercentEncode(s) == ['%', HexDigit(x / 16), HexDigit(x % 16)] + rest;
      UnescapePercentEncode(s[1..]);
      UnescapeEscaped(x, rest);
      assert s == [x as char] + s[1..];
    }
  }

  /** One escaped byte in front of text that unescapes. */
  lemma UnescapeEscaped(x: nat, rest: string)
    requires x < 0x100 && Unescape(rest).Some?
    ensures Unescape(['%', HexDigit(x / 16), HexDigit(x % 16)] + rest) == Some([x as char] + Unescape(rest).value)
  {
    var e := ['%', HexDigit(x / 16), HexDigit(x % 16)] + rest;
    assert e[0] == '%' && e[1] == HexDigit(x / 16) && e[2] == HexDigit(x % 16);
    assert e[3..] == rest;
    assert 16 * (x / 16) + x % 16 == x;
  }

  /** What gin's query map holds for a piece, or None when `url.ParseQuery` skips it: an empty
      piece, one holding `;`, or one whose key or value does not unescape. */
  function PieceEntry(piece: string): (r: Option<(string, string)>)
    ensures r.None? <==> piece == "" || ';' in piece || Unescape(PieceKey(piece)).None? ||
                         Unescape(PieceValue(piece)).None?
    ensures r.Some? ==> Unescape(PieceKey(piece)) == Some(r.value.0) && Unescape(PieceValue(piece)) == Some(r.value.1)
  {
    if piece == "" || ';' in piece then None
    else
      match (Unescape(PieceKey(piece)), Unescape(PieceValue(piece)))
      case (Some(k), Some(v)) => Some((k, v))
      case _ => None
  }

  /** What `url.ParseQuery` keeps of each piece, in order. */
  function Entries(pieces: seq<string>): (es: seq<Option<(string, string)>>)
    ensures |es| == |pieces| && forall j :: 0 <= j < |pieces| ==> es[j] == PieceEntry(pieces[j])
  {
    Map(pieces, PieceEntry)
  }

  /** A kept piece whose unescaped key is `key`. */
  predicate HasKey(e: Option<(string, string)>, key: string) {
    e.Some? && e.value.0 == key
  }

  /** The value of the first kept piece whose key is `key`. */
  function FirstValue(entries: seq<Option<(string, string)>>, key: string): (r: Option<string>)
    ensures r.Some? <==> exists j :: 0 <= j < |entries| && HasKey(entries[j], key)
    ensures r.Some? ==> exists k :: 0 <= k < |entries| && HasKey(entries[k], key) && r.value == entries[k].value.1 &&
                          forall j :: 0 <= j < k ==> !HasKey(entries[j], key)
  {
    match FirstIndex(entries, (e: Option<(string, string)>) => HasKey(e, key))
    case Some(k) => Some(entries[k].value.1)
    case None => None
  }

  /** What gin's query map is built from: the kept entries of the query's `&`-separated pieces. */
  function QueryEntries(query: string): (es: seq<Option<(string, string)>>)
    ensures |es| == |Split(query, '&')|
  {
    Entries(Split(query, '&'))
  }

  /** The first value of `key` in the query, as gin's `GetQuery` reads it: the query is cut at
      every `&`, and of the pieces `url.ParseQuery` keeps the first one with that key wins. */
  function QueryParam(query: string, key: string): (r: Option<string>)
    ensures r.Some? <==> exists j :: 0 <= j < |QueryEntries(query)| && HasKey(QueryEntries(query)[j], key)
    ensures r.Some? ==> exists k :: 0 <= k < |QueryEntries(query)| && HasKey(QueryEntries(query)[k], key) &&
                          r.value == QueryEntries(query)[k].value.1 &&
                          forall j :: 0 <= j < k ==> !HasKey(QueryEntries(query)[j], key)
  {
    FirstValue(QueryEntries(query), key)
  }

  /** `key=value` read back, when the key holds no `=`. */
  lemma PieceParts(key: string, value: string)
    requires '=' !in key
    ensures PieceKey(key + "=" + value) == key && PieceValue(key + "=" + value) == value
  {
    var p := key + "=" + value;
    assert p[|key|] == '=';
    var i := IndexOf(p, '=');
    assert forall j :: 0 <= j < |key| ==> p[j] == key[j];
    assert i == |key|;
    assert p[..i] == key;
    assert p[i + 1..] == value;
  }

  /** `key=value` is kept with the key as written and the value unescaped, when the key holds
      nothing that unescaping or the piece filter would touch. */
  lemma PieceEntryOf(key: string, value: string, decoded: string)
    requires '=' !in key && ';' !in key && '%' !in key && '+' !in key && ';' !in value
    requires Unescape(value) == Some(decoded)
    ensures PieceEntry(key + "=" + value) == Some((key, decoded))
  {
    var piece := key + "=" + value;
    PieceParts(key, value);
    assert ';' !in "=" + value;
    assert ';' !in piece;
    assert Unescape(key) == Some(key);
  }

  /** A query of one piece answers for that piece's key. */
  lemma SinglePiece(piece: string, key: string)
    requires '&' !in piece && HasKey(PieceEntry(piece), key)
    ensures QueryParam(piece, key) == Some(PieceEntry(piece).value.1)
  {
    assert Split(piece, '&') == [piece];
    assert QueryEntries(piece) == [PieceEntry(piece)];
    FirstValueAtHead(QueryEntries(piece), key);
  }

  /** `%35` unescapes to "5". */
  lemma UnescapeFive()
    ensures Unescape("%35") == Some("5")
  {
    var e := "%35";
    assert e[0] == '%' && e[1] == '3' && e[2] == '5' && e[3..] == "";
    assert Unescape(e[3..]) == Some("");
    assert IsHex('3') && IsHex('5') && HexValue('3') == 3 && HexValue('5') == 5;
    var c := (16 * HexValue('3') + HexValue('5')) as char;
    assert c == '5';
    assert Unescape(e) == Some([c] + "");
    assert [c] + "" == "5";
  }

  /** The digit "5" reads as 5. */
  lemma AtoiFive()
    ensures Atoi("5") == Some(5)
  {
    assert IsDigits("5") && DigitsValue("5") == 10 * DigitsValue("") + 5;
  }

  /** `limit=%35` is kept as the entry ("limit", "5"). */
  lemma EscapedLimitEntry()
    ensures '&' !in "limit=%35" && PieceEntry("limit=%35") == Some(("limit", "5"))
  {
    UnescapeFive();
    PieceEntryOf("limit", "%35", "5");
    assert "limit=%35" == "limit" + "=" + "%35";
  }

  /** A percent-escaped limit is decoded before it is read: `limit=%35` asks for 5. */
  lemma EscapedLimitIsDecoded()
    ensures QueryParam("limit=%35", "limit") == Some("5")
    ensures MigrationHandler.NormalizeLimit(QueryParam("limit=%35", "limit")) == 5
  {
    EscapedLimitEntry();
    SinglePiece("limit=%35", "limit");
    AtoiFive();
  }

  /** The list URL the browser builds is the list path and a two-piece query. */
  lemma ListUrlParts(l: string, o: string)
    requires '?' !in l && '?' !in o
    ensures SplitUrl(ApiClient.RequestUrl("/migrations?limit=" + l + "&offset=" + o)) ==
            ("/api/v1/migrations", "limit=" + l + "&offset=" + o)
  {
    var query := "limit=" + l + "&offset=" + o;
    var url := ApiClient.RequestUrl("/migrations?limit=" + l + "&offset=" + o);
    assert url == "/api/v1/migrations" + "?" + query;
    assert url[18] == '?';
    assert forall j :: 0 <= j < 18 ==> url[j] != '?';
    assert IndexOf(url, '?') == 18;
    assert url[..18] == "/api/v1/migrations" && url[19..] == query;
  }

  /** That query cuts into its two pieces. */
  lemma ListQuerySplit(l: string, o: string)
    requires '&' !in l && '&' !in o
    ensures Split("limit=" + l + "&offset=" + o, '&') == ["limit=" + l, "offset=" + o]
  {
    var a := "limit=" + l;
    var b := "offset=" + o;
    assert "limit=" + l + "&offset=" + o == a + ['&'] + b;
    SplitAppend(a, '&', b);
    assert '&' !in b;
  }

  /** A parameter `key=v` whose value holds nothing to unescape is kept as written. */
  lemma PlainEntry(key: string, v: string)
    requires key == "limit" || key == "offset"
    requires '&' !in v && ';' !in v && '%' !in v && '+' !in v
    ensures PieceEntry(key + "=" + v) == Some((key, v))
  {
    assert '=' !in key && ';' !in key && '%' !in key && '+' !in key;
    assert Unescape(v) == Some(v);
    PieceEntryOf(key, v, v);
  }

  /** `key=v` holds no `&` when neither the key nor `v` does. */
  lemma NoAmpersand(key: string, v: string)
    requires '&' !in key && '&' !in v
    ensures '&' !in key + "=" + v
  {
    var p := key + "=" + v;
    forall i | 0 <= i < |p|
      ensures p[i] != '&'
    {
      if i < |key| {
        assert p[i] == key[i];
      } else if i > |key| {
        assert p[i] == v[i - |key| - 1];
      }
    }
  }

  /** The list query regrouped as its two `key=value` pieces. */
  lemma ListQueryShape(l: string, o: string)
    ensures "limit=" + l + "&offset=" + o == ("limit" + "=" + l) + "&" + ("offset" + "=" + o)
  {
    assert "limit=" == "limit" + "=";
    assert "&offset=" == "&" + ("offset" + "=");
  }

  /** Each parameter of that query is read back as written. */
  lemma ListQueryParams(l: string, o: string)
    requires '&' !in l && '&' !in o && ';' !in l && ';' !in o && '%' !in l && '%' !in o && '+' !in l && '+' !in o
    ensures QueryParam("limit=" + l + "&offset=" + o, "limit") == Some(l)
    ensures QueryParam("limit=" + l + "&offset=" + o, "offset") == Some(o)
  {
    PlainEntry("limit", l);
    PlainEntry("offset", o);
    NoAmpersand("limit", l);
    NoAmpersand("offset", o);
    ListQueryShape(l, o);
    TwoPieces("limit" + "=" + l, "offset" + "=" + o, "limit", "offset");
  }

  /** The first entry answers for its own key. */
  lemma FirstValueAtHead(es: seq<Option<(string, string)>>, key: string)
    requires |es| > 0 && HasKey(es[0], key)
    ensures FirstValue(es, key) == Some(es[0].value.1)
  {
    var r := FirstValue(es, key);
    var k :| 0 <= k < |es| && HasKey(es[k], key) && r.value == es[k].value.1 &&
             forall j :: 0 <= j < k ==> !HasKey(es[j], key);
    assert k == 0;
  }

  /** The second entry answers for its key when the first does not hold it. */
  lemma FirstValueAtSecond(es: seq<Option<(string, string)>>, key: string)
    requires |es| > 1 && !HasKey(es[0], key) && HasKey(es[1], key)
    ensures FirstValue(es, key) == Some(es[1].value.1)
  {
    var r := FirstValue(es, key);
    var k :| 0 <= k < |es| && HasKey(es[k], key) && r.value == es[k].value.1 &&
             forall j :: 0 <= j < k ==> !HasKey(es[j], key);
    assert k != 0;
  }

  /** Two `&`-free pieces joined by `&` are the query's two entries. */
  lemma TwoPieceEntries(a: string, b: string)
    requires '&' !in a && '&' !in b
    ensures QueryEntries(a + "&" + b) == [PieceEntry(a), PieceEntry(b)]
  {
    assert a + "&" + b == a + ['&'] + b;
    SplitAppend(a, '&', b);
    assert Split(b, '&') == [b];
  }

  /** Two pieces with distinct keys are each found by their own key. */
  lemma TwoPieces(a: string, b: string, ka: string, kb: string)
    requires '&' !in a && '&' !in b
    requires HasKey(PieceEntry(a), ka) && HasKey(PieceEntry(b), kb) && ka != kb
    ensures QueryParam(a + "&" + b, ka) == Some(PieceEntry(a).value.1)
    ensures QueryParam(a + "&" + b, kb) == Some(PieceEntry(b).value.1)
  {
    TwoPieceEntries(a, b);
    var es := QueryEntries(a + "&" + b);
    FirstValueAtHead(es, ka);
    FirstValueAtSecond(es, kb);
  }

  /** The list path reaches the list handler. */
  lemma ListPathRoutes(assetsPresent: bool)
    ensures Route(Get, "/api/v1/migrations", assetsPresent) == Api(ListMigrations)
  {
    var path := "/api/v1/migrations";
    assert StartsWith(path, ApiPrefix);
    assert path[|ApiPrefix|..] == "migrations";
    assert '/' !in "migrations";
    var rest: seq<string> := ["migrations"];
    assert Split("migrations", '/') == rest;
    assert rest != ["health"] && rest != ["scan"] && rest != ["discover"] && rest != ["migration"];
    assert RouteSegments(Get, rest) == Some(ListMigrations);
    RouteOfApi(Get, path, assetsPresent);
  }

  /** The list request the browser sends is routed to the list handler, which reads back the
      limit and offset it was given whenever they are ones it accepts as they are. */
  lemma ListQueryRoundTrip(limit: int, offset: int, assetsPresent: bool)
    requires 0 < limit <= MaxInt64 && 0 <= offset <= MaxInt64
    ensures var (path, query) := SplitUrl(ApiClient.RequestUrl(ApiClient.ListMigrationsPath(Some(limit), Some(offset))));
      Route(Get, path, assetsPresent) == Api(ListMigrations) &&
      MigrationHandler.NormalizeLimit(QueryParam(query, "limit")) == limit &&
      MigrationHandler.NormalizeOffset(QueryParam(query, "offset")) == offset
  {
    var l := IntToString(limit);
    var o := IntToString(offset);
    assert ApiClient.ListMigrationsPath(Some(limit), Some(offset)) == "/migrations?limit=" + l + "&offset=" + o;
    ListUrlParts(l, o);
    assert ';' !in l && ';' !in o && '%' !in l && '%' !in o && '+' !in l && '+' !in o;
    ListQueryParams(l, o);
    ListPathRoutes(assetsPresent);
    AtoiIntToString(limit);
    AtoiIntToString(offset);
  }
}
