/**
 * The webhook's event filter and pull-request payload parser: a header
 * comparison, and a chain of tolerant `dict.get` lookups that builds a
 * fixed seven-field record.
 */
module WebhookHandler {
  import opened Wrappers
  import opened JsonTree

  const EventHeader := "X-GitHub-Event"

  /** `is_pull_request_event(headers)`, headers being an exact-key map. */
  function IsPullRequestEvent(headers: map<string, string>): (r: bool)
    ensures r <==> EventHeader in headers && headers[EventHeader] == "pull_request"
  {
    Get(headers, EventHeader) == Some("pull_request")
  }

  /**
   * The `pr_details` dict. Each field but `action` holds the looked-up value,
   * `None` standing for a missing key (Python's `None`, emitted as JSON null).
   */
  datatype PullRequestDetails = PullRequestDetails(
    action: string,
    prId: Option<Json>,
    title: Option<Json>,
    author: Option<Json>,
    diffUrl: Option<Json>,
    repoName: Option<Json>,
    branch: Option<Json>)

  /**
   * What `parse_pull_request_payload` does with a payload: returns `None`
   * (Ignored), returns the record (Parsed), or raises because `.get` was
   * called on a present sub-record that is not an object (Failed, naming
   * the path of that sub-record).
   */
  datatype ParseResult =
    | Ignored
    | Parsed(details: PullRequestDetails)
    | Failed(path: seq<string>)

  /** The actions the parser accepts. */
  predicate AcceptedAction(action: Option<Json>)
    ensures AcceptedAction(action) <==>
              action.Some? && action.value.Str? && action.value.s in {"opened", "synchronize"}
  {
    action == Some(Str("opened")) || action == Some(Str("synchronize"))
  }

  /** `d.get(key, {})` followed by a `.get`: a missing key gives `{}`, a non-object fails. */
  function SubRecord(d: map<string, Json>, key: string): (r: Result<map<string, Json>, Json>)
    ensures key !in d ==> r == Ok(map[])
    ensures r.Ok? <==> Usable(d, [key])
    ensures r.Ok? && key in d ==> Obj(r.value) == d[key]
    ensures r.Err? ==> LookupPath(Obj(d), [key]) == Some(r.error)
  {
    assert LookupPath(Obj(d), [key]) == if key in d then LookupPath(d[key], []) else None;
    if key !in d then Ok(map[])
    else match d[key]
      case Obj(f) => Ok(f)
      case v => Err(v)
  }

  /** `parse_pull_request_payload(payload)`, the payload being a JSON object. */
  function ParsePullRequestPayload(payload: map<string, Json>): (r: ParseResult)
    ensures r.Ignored? <==> !AcceptedAction(Get(payload, "action"))
    ensures r.Parsed? ==> Get(payload, "action") == Some(Str(r.details.action))
  {
    var action := Get(payload, "action");
    if !AcceptedAction(action) then Ignored
    else
      var name := action.value.s;
      // The dict literal is evaluated key by key, so the sub-records are
      // first used in this order: pull_request, its user, repository, its head.
      match SubRecord(payload, "pull_request")
      case Err(_) => Failed(["pull_request"])
      case Ok(pr) =>
        match SubRecord(pr, "user")
        case Err(_) => Failed(["pull_request", "user"])
        case Ok(user) =>
          match SubRecord(payload, "repository")
          case Err(_) => Failed(["repository"])
          case Ok(repository) =>
            match SubRecord(pr, "head")
            case Err(_) => Failed(["pull_request", "head"])
            case Ok(head) =>
              Parsed(PullRequestDetails(
                action := name,
                prId := Get(pr, "id"),
                title := Get(pr, "title"),
                author := Get(user, "login"),
                diffUrl := Get(pr, "diff_url"),
                repoName := Get(repository, "full_name"),
                branch := Get(head, "ref")))
  }

  /** The sub-records the parser calls `.get` on, in the order it first does so. */
  const SubRecordPaths: seq<seq<string>> :=
    [["pull_request"], ["pull_request", "user"], ["repository"], ["pull_request", "head"]]

  /** A sub-record the parser can call `.get` on: absent (defaulted to `{}`) or an object. */
  predicate Usable(payload: map<string, Json>, path: seq<string>)
  {
    match LookupPath(Obj(payload), path)
    case None => true
    case Some(v) => v.Obj?
  }

  predicate AllSubRecordsUsable(payload: map<string, Json>)
  {
    forall k :: 0 <= k < |SubRecordPaths| ==> Usable(payload, SubRecordPaths[k])
  }

  lemma AllSubRecordsUsableUnfolded(payload: map<string, Json>)
    ensures AllSubRecordsUsable(payload) <==>
              && Usable(payload, ["pull_request"])
              && Usable(payload, ["pull_request", "user"])
              && Usable(payload, ["repository"])
              && Usable(payload, ["pull_request", "head"])
  {
    assert SubRecordPaths[0] == ["pull_request"];
    assert SubRecordPaths[1] == ["pull_request", "user"];
    assert SubRecordPaths[2] == ["repository"];
    assert SubRecordPaths[3] == ["pull_request", "head"];
  }

  /** The keys of the dict the parser returns. */
  const DetailKeys: set<string> :=
    {"action", "pr_id", "title", "author", "diff_url", "repo_name", "branch"}

  function OrNull(v: Option<Json>): Json
  {
    match v
    case Some(j) => j
    case None => Null
  }

  /** The record as the JSON object Flask would serialise. */
  function DetailsToJson(d: PullRequestDetails): (j: Json)
    ensures j.Obj? && j.fields.Keys == DetailKeys
    ensures j.fields["action"] == Str(d.action)
    ensures j.fields["pr_id"] == OrNull(d.prId) && j.fields["title"] == OrNull(d.title)
    ensures j.fields["author"] == OrNull(d.author) && j.fields["diff_url"] == OrNull(d.diffUrl)
    ensures j.fields["repo_name"] == OrNull(d.repoName) && j.fields["branch"] == OrNull(d.branch)
  {
    Obj(map[
      "action" := Str(d.action),
      "pr_id" := OrNull(d.prId),
      "title" := OrNull(d.title),
      "author" := OrNull(d.author),
      "diff_url" := OrNull(d.diffUrl),
      "repo_name" := OrNull(d.repoName),
      "branch" := OrNull(d.branch)])
  }

  lemma NestedSubRecordUsable(d: map<string, Json>, key: string, inner: string)
    requires SubRecord(d, key).Ok?
    ensures SubRecord(SubRecord(d, key).value, inner).Ok? <==> Usable(d, [key, inner])
  {
    var r := SubRecord(d, key).value;
    if key in d {
      assert LookupPath(Obj(d), [key, inner]) == LookupPath(Obj(r), [inner]);
    } else {
      assert LookupPath(Obj(d), [key, inner]) == None;
    }
  }

  /** A leaf under a usable sub-record: what `.get` returns is what the path lookup finds. */
  lemma LeafFollowsPath(d: map<string, Json>, key: string, leaf: string)
    requires SubRecord(d, key).Ok?
    ensures Get(SubRecord(d, key).value, leaf) == LookupPath(Obj(d), [key, leaf])
  {
    var r := SubRecord(d, key).value;
    if key in d {
      assert LookupPath(Obj(d), [key, leaf]) == LookupPath(Obj(r), [leaf]);
      if leaf in r {
        assert LookupPath(Obj(r), [leaf]) == LookupPath(r[leaf], []);
      }
    } else {
      assert LookupPath(Obj(d), [key, leaf]) == None;
    }
  }

  lemma NestedLeafFollowsPath(d: map<string, Json>, key: string, inner: string, leaf: string)
    requires SubRecord(d, key).Ok? && SubRecord(SubRecord(d, key).value, inner).Ok?
    ensures Get(SubRecord(SubRecord(d, key).value, inner).value, leaf)
              == LookupPath(Obj(d), [key, inner, leaf])
  {
    var r := SubRecord(d, key).value;
    if key in d {
      assert LookupPath(Obj(d), [key, inner, leaf]) == LookupPath(Obj(r), [inner, leaf]);
      LeafFollowsPath(r, inner, leaf);
    } else {
      assert LookupPath(Obj(d), [key, inner, leaf]) == None;
      assert LookupPath(Obj(r), [inner, leaf]) == None;
    }
  }

  /**
   * Parsing yields a record exactly when the action is accepted and every
   * sub-record that is present is an object.
   */
  lemma ParsedIff(payload: map<string, Json>)
    ensures ParsePullRequestPayload(payload).Parsed? <==>
              AcceptedAction(Get(payload, "action")) && AllSubRecordsUsable(payload)
  {
    AllSubRecordsUsableUnfolded(payload);
    if AcceptedAction(Get(payload, "action")) {
      if SubRecord(payload, "pull_request").Ok? {
        NestedSubRecordUsable(payload, "pull_request", "user");
        NestedSubRecordUsable(payload, "pull_request", "head");
      }
    }
  }

  /**
   * Parsing fails exactly at the first sub-record, in evaluation order,
   * that is present but not an object.
   */
  lemma FailedAtFirstUnusable(payload: map<string, Json>)
    requires ParsePullRequestPayload(payload).Failed?
    ensures AcceptedAction(Get(payload, "action"))
    ensures exists k :: 0 <= k < |SubRecordPaths|
              && ParsePullRequestPayload(payload).path == SubRecordPaths[k]
              && !Usable(payload, SubRecordPaths[k])
              && forall j :: 0 <= j < k ==> Usable(payload, SubRecordPaths[j])
  {
    var r := ParsePullRequestPayload(payload);
    assert SubRecordPaths[0] == ["pull_request"];
    assert SubRecordPaths[1] == ["pull_request", "user"];
    assert SubRecordPaths[2] == ["repository"];
    assert SubRecordPaths[3] == ["pull_request", "head"];
    if SubRecord(payload, "pull_request").Err? {
      assert r.path == SubRecordPaths[0];
    } else {
      NestedSubRecordUsable(payload, "pull_request", "user");
      NestedSubRecordUsable(payload, "pull_request", "head");
      var pr := SubRecord(payload, "pull_request").value;
      if SubRecord(pr, "user").Err? {
        assert r.path == SubRecordPaths[1];
      } else if SubRecord(payload, "repository").Err? {
        assert r.path == SubRecordPaths[2];
      } else {
        assert r.path == SubRecordPaths[3];
      }
    }
  }

  /**
   * Each field of a parsed record is the value at its path in the payload:
   * `pr_id` is `pull_request.id` (not `number`), `author` is
   * `pull_request.user.login`, `branch` is `pull_request.head.ref`,
   * `repo_name` is `repository.full_name`, and `diff_url` is copied as it is.
   */
  lemma ParsedFieldsFollowPaths(payload: map<string, Json>)
    requires ParsePullRequestPayload(payload).Parsed?
    ensures var d := ParsePullRequestPayload(payload).details;
            && d.prId == LookupPath(Obj(payload), ["pull_request", "id"])
            && d.title == LookupPath(Obj(payload), ["pull_request", "title"])
            && d.author == LookupPath(Obj(payload), ["pull_request", "user", "login"])
            && d.diffUrl == LookupPath(Obj(payload), ["pull_request", "diff_url"])
            && d.repoName == LookupPath(Obj(payload), ["repository", "full_name"])
            && d.branch == LookupPath(Obj(payload), ["pull_request", "head", "ref"])
  {
    LeafFollowsPath(payload, "pull_request", "id");
    LeafFollowsPath(payload, "pull_request", "title");
    LeafFollowsPath(payload, "pull_request", "diff_url");
    LeafFollowsPath(payload, "repository", "full_name");
    NestedLeafFollowsPath(payload, "pull_request", "user", "login");
    NestedLeafFollowsPath(payload, "pull_request", "head", "ref");
  }

  /** Without a `pull_request` sub-record every field drawn from it is `None`; nothing fails. */
  lemma MissingPullRequestGivesNone(payload: map<string, Json>)
    requires AcceptedAction(Get(payload, "action"))
    requires "pull_request" !in payload
    requires Usable(payload, ["repository"])
    ensures ParsePullRequestPayload(payload).Parsed?
    ensures var d := ParsePullRequestPayload(payload).details;
            d.prId == d.title == d.author == d.diffUrl == d.branch == None
  {
  }

  /** A non-GitHub `diff_url` is copied unchecked, and `number` does not stand in for `id`. */
  lemma ExampleUncheckedDiffUrl()
    ensures ParsePullRequestPayload(map[
              "action" := Str("opened"),
              "pull_request" := Obj(map["number" := Int(7), "diff_url" := Str("http://evil.example/x")])])
            == Parsed(PullRequestDetails("opened", None, None, None, Some(Str("http://evil.example/x")), None, None))
  {
  }

  /** A `pull_request` that is JSON null makes the first `.get` fail. */
  lemma ExampleNullPullRequest()
    ensures ParsePullRequestPayload(map["action" := Str("synchronize"), "pull_request" := Null])
            == Failed(["pull_request"])
  {
  }
}
