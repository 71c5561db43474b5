/**
 * The `receiver` endpoint without its HTTP and database plumbing: an
 * event-type tag and a decoded body go in; out comes either a rejection,
 * a crash on a malformed body, or the document that is inserted before
 * "Event received" is answered.
 */
module Receiver {
  import opened Wrappers
  import opened Decimal
  import opened Text
  import opened Timestamp
  import opened Payload

  /** The normalised action kinds. */
  datatype Action = Push | PullRequest | Merge

  /** The `action` string stored in a record. */
  function ActionTag(a: Action): (tag: string)
    ensures tag in {"PUSH", "PULL_REQUEST", "MERGE"}
  {
    match a
    case Push => "PUSH"
    case PullRequest => "PULL_REQUEST"
    case Merge => "MERGE"
  }

  /** The canonical event record. */
  datatype EventRecord = EventRecord(
    requestId: string,
    author: string,
    action: Action,
    fromBranch: string,
    toBranch: string,
    timestamp: string)

  /** What is passed to `insert_one`: a record, or the empty dict `{}`. */
  datatype Document = EmptyDocument | Record(event: EventRecord)

  /** What one request comes to. */
  datatype Outcome =
    | Rejected(status: nat, key: string, message: string)  // jsonify({key: message}), status; nothing inserted
    | Stored(document: Document)                           // insert_one(document), then 200 "Event received"
    | Malformed                                            // an exception escapes: missing key, wrong type, bad date

  const InvalidPayload: Outcome := Rejected(400, "error", "Invalid JSON payload")
  const UnsupportedEventType: Outcome := Rejected(400, "message", "Unsupported event type")

  /** The HTTP status of the reply; an escaping exception is a server error. */
  function Status(o: Outcome): nat {
    match o
    case Rejected(status, _, _) => status
    case Stored(_) => 200
    case Malformed => 500
  }

  /** The document the request inserts, if any. */
  function Inserted(o: Outcome): Option<Document> {
    if o.Stored? then Some(o.document) else None
  }

  /**
   * The push record, read in the source's order; `None` where the source
   * raises. The commit id and pusher name are copied, both branch fields
   * hold the `/`-free last segment of the ref, and the commit time is
   * parsed and formatted.
   */
  function PushRecord(p: Json, isoParse: string -> Option<DateTime>): (r: Option<EventRecord>)
    ensures r.Some? ==>
      var raw, ref := TextAt(p, ["head_commit", "timestamp"]), TextAt(p, ["ref"]);
      raw.Some? && isoParse(raw.value).Some? && ref.Some? &&
      TextAt(p, ["head_commit", "id"]) == Some(r.value.requestId) &&
      TextAt(p, ["pusher", "name"]) == Some(r.value.author) &&
      r.value.action == Push &&
      r.value.fromBranch == LastSegment(ref.value) && r.value.toBranch == r.value.fromBranch &&
      '/' !in r.value.fromBranch &&
      r.value.timestamp == FormatTimestamp(isoParse(raw.value).value)
  {
    var raw :- TextAt(p, ["head_commit", "timestamp"]);
    var dt :- isoParse(raw);
    var id :- TextAt(p, ["head_commit", "id"]);
    var name :- TextAt(p, ["pusher", "name"]);
    var ref :- TextAt(p, ["ref"]);
    Some(EventRecord(id, name, Push, LastSegment(ref), LastSegment(ref), FormatTimestamp(dt)))
  }

  /**
   * The fields a pull-request record takes from `pull_request`: `str(id)`,
   * the author's login and the head and base branch names, with the given
   * action and timestamp.
   */
  function PullRequestRecord(p: Json, action: Action, timestamp: string): (r: Option<EventRecord>)
    ensures r.Some? ==>
      Lookup(p, ["pull_request", "id"]).Some? &&
      PyStr(Lookup(p, ["pull_request", "id"]).value) == Some(r.value.requestId) &&
      TextAt(p, ["pull_request", "user", "login"]) == Some(r.value.author) &&
      TextAt(p, ["pull_request", "head", "ref"]) == Some(r.value.fromBranch) &&
      TextAt(p, ["pull_request", "base", "ref"]) == Some(r.value.toBranch) &&
      r.value.action == action && r.value.timestamp == timestamp
  {
    var id :- Lookup(p, ["pull_request", "id"]);
    var requestId :- PyStr(id);
    var login :- TextAt(p, ["pull_request", "user", "login"]);
    var head :- TextAt(p, ["pull_request", "head", "ref"]);
    var base :- TextAt(p, ["pull_request", "base", "ref"]);
    Some(EventRecord(requestId, login, action, head, base, timestamp))
  }

  /**
   * The pull-request document: opened, closed and merged, or any other
   * action, which leaves `event_data` as the empty dict.
   */
  function PullRequestDocument(p: Json, isoParse: string -> Option<DateTime>, now: DateTime): (r: Option<Document>)
    ensures r.Some? ==> Lookup(p, ["action"]).Some?
    ensures r.Some? && r.value.Record? ==> r.value.event.action != Push
  {
    var action :- Lookup(p, ["action"]);
    if action == JString("opened") then
      var raw :- TextAt(p, ["pull_request", "created_at"]);
      var dt :- isoParse(raw);
      var record :- PullRequestRecord(p, PullRequest, FormatTimestamp(dt));
      Some(Record(record))
    else if action == JString("closed") then
      var merged :- Lookup(p, ["pull_request", "merged"]);
      if Truthy(merged) then
        var record :- PullRequestRecord(p, Merge, FormatTimestamp(now));
        Some(Record(record))
      else Some(EmptyDocument)
    else Some(EmptyDocument)
  }

  /**
   * `receiver()`: `eventType` is the X-GitHub-Event header (`None` when
   * absent), `body` the decoded JSON body (`None` when there is none),
   * `isoParse` stands for `dateutil.parser.isoparse` and `now` for
   * `datetime.now()`.
   */
  function Receive(eventType: Option<string>, body: Option<Json>,
                   isoParse: string -> Option<DateTime>, now: DateTime): (o: Outcome)
    ensures Inserted(o).Some? <==> Status(o) == 200
    ensures o.Rejected? ==> o == InvalidPayload || o == UnsupportedEventType
    ensures Status(o) in {200, 400, 500}
  {
    if body.None? || !Truthy(body.value) then InvalidPayload
    else if eventType == Some("push") then
      match PushRecord(body.value, isoParse)
      case Some(record) => Stored(Record(record))
      case None => Malformed
    else if eventType == Some("pull_request") then
      match PullRequestDocument(body.value, isoParse, now)
      case Some(document) => Stored(document)
      case None => Malformed
    else UnsupportedEventType
  }

  // ---------------------------------------------------------------------
  // Properties

  /** A stored pull-request record comes from `PullRequestRecord`, with the creation time or `now`. */
  lemma PullRequestDocumentSource(p: Json, isoParse: string -> Option<DateTime>, now: DateTime)
    ensures var d := PullRequestDocument(p, isoParse, now);
      d.Some? && d.value.Record? ==>
        Lookup(p, ["action"]).Some? &&
        (d.value.event.action == Merge ==>
           Lookup(p, ["action"]) == Some(JString("closed")) &&
           Lookup(p, ["pull_request", "merged"]).Some? && Truthy(Lookup(p, ["pull_request", "merged"]).value) &&
           Some(d.value.event) == PullRequestRecord(p, Merge, FormatTimestamp(now))) &&
        (d.value.event.action != Merge ==>
           Lookup(p, ["action"]) == Some(JString("opened")) && d.value.event.action == PullRequest) &&
        PullRequestRecord(p, d.value.event.action, d.value.event.timestamp) == Some(d.value.event)
  {
  }

  /** An absent or false body is rejected first, whatever the event type. */
  lemma InvalidPayloadFirst(eventType: Option<string>, body: Option<Json>,
                            isoParse: string -> Option<DateTime>, now: DateTime)
    ensures Receive(eventType, body, isoParse, now) == InvalidPayload
            <==> body.None? || !Truthy(body.value)
  {
  }

  /** Any event type but push and pull_request is rejected, once the body is non-empty. */
  lemma UnsupportedEventTypeRejected(eventType: Option<string>, body: Option<Json>,
                                     isoParse: string -> Option<DateTime>, now: DateTime)
    ensures Receive(eventType, body, isoParse, now) == UnsupportedEventType
            <==> body.Some? && Truthy(body.value) &&
                 eventType != Some("push") && eventType != Some("pull_request")
  {
  }

  /**
   * A non-empty push is stored exactly when its commit time, commit id,
   * pusher name and ref are strings and the time parses; the record takes
   * them as follows. Otherwise the request fails as malformed.
   */
  lemma PushNormalized(p: Json, isoParse: string -> Option<DateTime>, now: DateTime)
    requires Truthy(p)
    ensures var o := Receive(Some("push"), Some(p), isoParse, now);
      var raw := TextAt(p, ["head_commit", "timestamp"]);
      var id, name, ref := TextAt(p, ["head_commit", "id"]), TextAt(p, ["pusher", "name"]), TextAt(p, ["ref"]);
      var complete := raw.Some? && isoParse(raw.value).Some? && id.Some? && name.Some? && ref.Some?;
      (complete ==> o == Stored(Record(EventRecord(id.value, name.value, Push,
                                                   LastSegment(ref.value), LastSegment(ref.value),
                                                   FormatTimestamp(isoParse(raw.value).value))))) &&
      (!complete ==> o == Malformed)
  {
  }

  /**
   * A stored push names one branch twice: the last `/`-separated segment
   * of its ref, which has no `/`, ends the ref, and is the whole ref or
   * follows a `/` in it.
   */
  lemma PushBranch(p: Json, isoParse: string -> Option<DateTime>, now: DateTime)
    ensures var o := Receive(Some("push"), Some(p), isoParse, now);
      o.Stored? ==>
        o.document.Record? && TextAt(p, ["ref"]).Some? &&
        var e, ref := o.document.event, TextAt(p, ["ref"]).value;
        e.action == Push && e.fromBranch == e.toBranch && LongestPlainSuffix(e.fromBranch, ref)
  {
    var o := Receive(Some("push"), Some(p), isoParse, now);
    if o.Stored? {
      var r := PushRecord(p, isoParse);
      assert r.Some? && o == Stored(Record(r.value));
      var ref := TextAt(p, ["ref"]).value;
      assert r.value.fromBranch == LastSegment(ref) == r.value.toBranch;
      LastSegmentIsSuffix(ref);
    }
  }

  /**
   * An opened pull request is stored exactly when its fields are there;
   * the record is PULL_REQUEST, with `str(id)`, the author's login, head
   * and base branches and the formatted creation time.
   */
  lemma PullRequestOpenedNormalized(p: Json, isoParse: string -> Option<DateTime>, now: DateTime)
    requires Lookup(p, ["action"]) == Some(JString("opened"))
    ensures var o := Receive(Some("pull_request"), Some(p), isoParse, now);
      var raw, id := TextAt(p, ["pull_request", "created_at"]), Lookup(p, ["pull_request", "id"]);
      var login := TextAt(p, ["pull_request", "user", "login"]);
      var head, base := TextAt(p, ["pull_request", "head", "ref"]), TextAt(p, ["pull_request", "base", "ref"]);
      var complete := raw.Some? && isoParse(raw.value).Some? && id.Some? && PyStr(id.value).Some? &&
                      login.Some? && head.Some? && base.Some?;
      (complete ==> o == Stored(Record(EventRecord(PyStr(id.value).value, login.value, PullRequest,
                                                   head.value, base.value,
                                                   FormatTimestamp(isoParse(raw.value).value))))) &&
      (!complete ==> o == Malformed)
  {
    LookupMakesTruthy(p, ["action"]);
  }

  /** A pull-request id that is a JSON integer is stored as its decimal string, which reads back as the id. */
  lemma PullRequestIdIsDecimal(p: Json, isoParse: string -> Option<DateTime>, now: DateTime)
    requires Lookup(p, ["pull_request", "id"]).Some? && Lookup(p, ["pull_request", "id"]).value.JInt?
    ensures var o := Receive(Some("pull_request"), Some(p), isoParse, now);
      var n := Lookup(p, ["pull_request", "id"]).value.i;
      o.Stored? && o.document.Record? ==>
        o.document.event.requestId == IntToString(n) && ParseInt(o.document.event.requestId) == Some(n)
  {
    PullRequestDocumentSource(p, isoParse, now);
    IntRoundTrips(Lookup(p, ["pull_request", "id"]).value.i, "");
  }

  /**
   * A closed pull request whose `merged` is true is stored exactly when its
   * fields are there; the record is MERGE, with `str(id)`, the author's
   * login, head and base branches and `now` formatted. Otherwise it is
   * malformed.
   */
  lemma PullRequestMergedNormalized(p: Json, isoParse: string -> Option<DateTime>, now: DateTime)
    requires Lookup(p, ["action"]) == Some(JString("closed"))
    requires Lookup(p, ["pull_request", "merged"]).Some? && Truthy(Lookup(p, ["pull_request", "merged"]).value)
    ensures var o := Receive(Some("pull_request"), Some(p), isoParse, now);
      var id := Lookup(p, ["pull_request", "id"]);
      var login := TextAt(p, ["pull_request", "user", "login"]);
      var head, base := TextAt(p, ["pull_request", "head", "ref"]), TextAt(p, ["pull_request", "base", "ref"]);
      var complete := id.Some? && PyStr(id.value).Some? && login.Some? && head.Some? && base.Some?;
      (complete ==> o == Stored(Record(EventRecord(PyStr(id.value).value, login.value, Merge,
                                                   head.value, base.value, FormatTimestamp(now))))) &&
      (!complete ==> o == Malformed)
  {
    LookupMakesTruthy(p, ["action"]);
  }

  /**
   * A merge is stamped with the time of ingestion: its timestamp is `now`
   * formatted, and no timestamp in the payload is parsed for it.
   */
  lemma MergeStampedWithNow(p: Json, isoParse: string -> Option<DateTime>,
                            otherParse: string -> Option<DateTime>, now: DateTime)
    ensures var o := Receive(Some("pull_request"), Some(p), isoParse, now);
      o.Stored? && o.document.Record? && o.document.event.action == Merge ==>
        o.document.event.timestamp == FormatTimestamp(now) &&
        Lookup(p, ["action"]) == Some(JString("closed")) &&
        Lookup(p, ["pull_request", "merged"]).Some? && Truthy(Lookup(p, ["pull_request", "merged"]).value) &&
        Receive(Some("pull_request"), Some(p), otherParse, now) == o
  {
    PullRequestDocumentSource(p, isoParse, now);
  }

  /**
   * The empty dict is inserted exactly for a pull request whose action is
   * neither "opened" nor "closed" with a true `merged`, and is answered 200
   * like any other stored event.
   */
  lemma EmptyDocumentStored(eventType: Option<string>, body: Option<Json>,
                            isoParse: string -> Option<DateTime>, now: DateTime)
    ensures var o := Receive(eventType, body, isoParse, now);
      (o == Stored(EmptyDocument) <==>
        eventType == Some("pull_request") && body.Some? && Lookup(body.value, ["action"]).Some? &&
        var action := Lookup(body.value, ["action"]).value;
        action != JString("opened") &&
        (action == JString("closed") ==>
           Lookup(body.value, ["pull_request", "merged"]).Some? &&
           !Truthy(Lookup(body.value, ["pull_request", "merged"]).value))) &&
      (o == Stored(EmptyDocument) ==> Status(o) == 200)
  {
    if body.Some? && Lookup(body.value, ["action"]).Some? {
      LookupMakesTruthy(body.value, ["action"]);
    }
  }

  /** Push events make PUSH records; pull-request events make PULL_REQUEST and MERGE records. */
  lemma ActionFollowsEventType(eventType: Option<string>, body: Option<Json>,
                               isoParse: string -> Option<DateTime>, now: DateTime)
    ensures var o := Receive(eventType, body, isoParse, now);
      o.Stored? && o.document.Record? ==>
        (o.document.event.action == Push <==> eventType == Some("push")) &&
        (o.document.event.action != Push <==> eventType == Some("pull_request"))
  {
  }

  /** A push of `refs/heads/main` by alice, commit `abc123`, with its time parsed as 2024-03-05 10:15 UTC. */
  lemma PushExample(isoParse: string -> Option<DateTime>, now: DateTime)
    requires isoParse("2024-03-05T10:15:00Z") == Some(Instant(2024, 3, 5, 10, 15, 0, Some(0)))
    ensures var body := JObject(map[
              "head_commit" := JObject(map["id" := JString("abc123"), "timestamp" := JString("2024-03-05T10:15:00Z")]),
              "pusher" := JObject(map["name" := JString("alice")]),
              "ref" := JString("refs/heads/main")]);
      Receive(Some("push"), Some(body), isoParse, now) ==
        Stored(Record(EventRecord("abc123", "alice", Push, "main", "main",
                                  FormatTimestamp(Instant(2024, 3, 5, 10, 15, 0, Some(0))))))
  {
    var raw, ref := "2024-03-05T10:15:00Z", "refs/heads/main";
    var commit := JObject(map["id" := JString("abc123"), "timestamp" := JString(raw)]);
    var pusher := JObject(map["name" := JString("alice")]);
    var body := JObject(map["head_commit" := commit, "pusher" := pusher, "ref" := JString(ref)]);
    assert Lookup(commit, ["timestamp"]) == Some(JString(raw)) by {
      assert ["timestamp"][1..] == [];
    }
    assert Lookup(commit, ["id"]) == Some(JString("abc123")) by {
      assert ["id"][1..] == [];
    }
    assert Lookup(pusher, ["name"]) == Some(JString("alice")) by {
      assert ["name"][1..] == [];
    }
    assert TextAt(body, ["head_commit", "timestamp"]) == Some(raw) by {
      assert ["head_commit", "timestamp"][1..] == ["timestamp"];
    }
    assert TextAt(body, ["head_commit", "id"]) == Some("abc123") by {
      assert ["head_commit", "id"][1..] == ["id"];
    }
    assert TextAt(body, ["pusher", "name"]) == Some("alice") by {
      assert ["pusher", "name"][1..] == ["name"];
    }
    assert TextAt(body, ["ref"]) == Some(ref) by {
      assert ["ref"][1..] == [];
    }
    assert LastSegment(ref) == "main" by {
      assert ref == Join(["refs", "heads", "main"], '/');
      SplitJoin(["refs", "heads", "main"], '/');
    }
    assert Truthy(body) by {
      assert "ref" in body.fields;
    }
    PushNormalized(body, isoParse, now);
  }
}
