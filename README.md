# Webhook normalizer

A Dafny model of the webhook receiver in `app/webhook/routes.py`. The receiver
takes a source-control webhook delivery and turns it into a canonical event
record, or rejects it. The source has three parts, and this model covers all three:

- `format_date_suffix`: a day number followed by `st`, `nd`, `rd` or `th`.
- `format_timestamp`: the display string
  `"<day><suffix> <FullMonth> <YYYY> - <hh>:<mm> <AM|PM> UTC"`, which the source
  builds by splicing the day into a `strftime` format.
- The decision logic of `receiver`. It takes the `X-GitHub-Event` tag and the
  decoded JSON body. It produces one of three things:
  - a 400 rejection (`Invalid JSON payload`, `Unsupported event type`);
  - the document handed to `insert_one`, followed by 200 `Event received`;
  - an escaping exception, for a body that lacks a field the code indexes.

The model is pure. The source mutates nothing of its own. Its one side effect
is the insert, which the model returns as a value (`Outcome.Stored(document)`).

Files:

- `wrappers.dfy`: an `Option` type that works with `:-`.
- `decimal.dfy`: Python's `str(int)` and `ParseInt`, a reader for exactly the
  strings `str(int)` writes. The two are proved inverse in both directions.
  Also two-digit zero padding.
- `text.dfy`: `str.split` on a single character, `join`, and the branch name
  `ref.split('/')[-1]`. Split and join are proved inverse. The branch name is
  proved to be the longest `/`-free suffix of the ref.
- `timestamp.dfy`:
  - `datetime` values as a subset type;
  - `format_date_suffix`;
  - the `strftime` directives the source uses (`%B`, `%Y`, `%I`, `%M`, `%p`,
    plus `%%`);
  - `format_timestamp`;
  - a parser for the display form. It proves that the display form keeps day,
    month, year, hour and minute. It also proves that seconds and the UTC
    offset have no effect on the output.
- `payload.dfy`: a JSON value, Python truth testing, nested key lookup that
  fails where Python raises, and `str()` of JSON scalars.
- `receiver.dfy`: the action kinds, the record, the inserted document, the
  outcome, `Receive`, and lemmas for each of its branches.

Things the code does, and the model reproduces, that a reader may not expect:

- For a `pull_request` whose action is neither `opened` nor `closed` with a
  true `merged`, the empty dict is still inserted, and 200 is returned. So
  not every stored document is a complete record. The model follows the code:
  it does not turn this case into an explicit rejection.
- Some malformed bodies are not answered with a 400. This happens when an
  indexed key is missing, when a value on a key path is not an object, when
  `ref` or a timestamp is not a string, or when a timestamp does not parse.
  The exception escapes from the request handler. The model calls this
  `Malformed`, which is status 500 with nothing inserted.
- `format_date_suffix` applies the 11–13 rule to the whole number, not to its
  last two digits. So 111 becomes `111st`, where English would say `111th`. No
  day of a month reaches 100, so displayed dates are unaffected.
  `DaySuffixIsEnglishOrdinal` states exactly where the two rules differ.
- No timezone conversion is done. An aware timestamp with offset +05:30 shows
  its local wall-clock time followed by `UTC`. The merge timestamp comes from
  `datetime.now()`. That is the server's local time, although the comment
  calls it UTC. The model formats whatever the `now` parameter holds.

## Model

| member | source | states |
|---|---|---|
| `Timestamp.FormatDateSuffix` | app/webhook/routes.py:13-22 | the result is the decimal rendering of the day followed by exactly one of `st`, `nd`, `rd`, `th` |
| `Timestamp.DaySuffixIsEnglishOrdinal` | app/webhook/routes.py:13-22 | the suffix agrees with the English ordinal rule (decided by the last two digits) exactly when the number is not of the form 100k+11 to 100k+13 with k >= 1, so it agrees for every day of a month |
| `Timestamp.DaySuffixExamples` | app/webhook/routes.py:13-22 | 1st, 2nd, 3rd, 4th |
| `Timestamp.TwoDigitSuffixExamples` | app/webhook/routes.py:13-22 | 11th, 12th, 13th, against 21st and 24th |
| `Timestamp.MonthNumber` | app/webhook/routes.py:27 | a recognised month name is the `%B` name of a month 1..12 |
| `Timestamp.MonthName` | app/webhook/routes.py:27 | `%B` writes a word of at least three letters with no space and no `%` |
| `Timestamp.Meridiem` | app/webhook/routes.py:27 | `%p` writes `AM` exactly for the hours before noon and `PM` otherwise |
| `Timestamp.Directive` | app/webhook/routes.py:27 | each of `%B`, `%Y`, `%I`, `%M` and `%p` expands to at least two characters and leaves no `%` behind |
| `Timestamp.Strftime` | app/webhook/routes.py:27 | `strftime` expands each directive and copies other characters; its properties are stated by `StrftimeLiteral`, `StrftimeAppend` and `StrftimeWallClock` |
| `Timestamp.MonthNameRoundTrip` | app/webhook/routes.py:27 | every month's full English name is recognised as that month |
| `Timestamp.Hour12` | app/webhook/routes.py:27 | `%I` is in 1..12 and equal to the hour modulo 12 |
| `Timestamp.StrftimeAppend` | app/webhook/routes.py:27 | `strftime` of a concatenation is the concatenation of the parts when the first part does not end inside a directive |
| `Timestamp.StrftimeLiteral` | app/webhook/routes.py:26-27 | text without `%`, such as the spliced-in day suffix, is copied unchanged by `strftime` |
| `Timestamp.StrftimeTail` | app/webhook/routes.py:27 | `" %B %Y - %I:%M %p UTC"` expands to month name, year, " - ", padded 12-hour hour, ":", padded minute, AM/PM and " UTC" |
| `Timestamp.TimestampLayout` | app/webhook/routes.py:26-27 | `strftime` of the day and suffix spliced before `" %B %Y - %I:%M %p UTC"` is seven tokens joined by single spaces: day with suffix, full month, year, `-`, `hh:mm`, `AM`/`PM`, `UTC` |
| `Timestamp.FormatTimestamp` | app/webhook/routes.py:25-27 | the display form of a time is the seven tokens of `DisplayTokens` joined by single spaces |
| `Timestamp.SplitDisplay` | app/webhook/routes.py:25-27 | no token of the display form contains a space, so splitting it on spaces gives back the seven tokens |
| `Timestamp.OrdinalDayRoundTrip` | app/webhook/routes.py:13-22 | a day followed by its suffix reads back as the day |
| `Timestamp.ClockRoundTrip` | app/webhook/routes.py:27 | `%I:%M` with `%p` reads back as the 24-hour hour and the minute, so AM is written for exactly the hours before 12 |
| `Timestamp.DisplayRoundTrip` | app/webhook/routes.py:25-27 | parsing the display form gives back day, month, year, hour and minute |
| `Timestamp.DisplayDeterminesWallClock` | app/webhook/routes.py:25-27 | two times display alike if and only if their date, hour and minute agree: the UTC offset is not applied and seconds are dropped |
| `Timestamp.StrftimeWallClock` | app/webhook/routes.py:27 | `strftime` output depends only on the date, hour and minute |
| `Timestamp.TimestampExample` | app/webhook/routes.py:25-27 | 2024-03-05 10:15 UTC displays as `5th March 2024 - 10:15 AM UTC`, token by token and as one string |
| `Decimal.NatToString` | app/webhook/routes.py:13-22 | a natural number renders as a non-empty digit string with no leading zero |
| `Decimal.IntToString` | app/webhook/routes.py:58 | `str(i)` is the canonical decimal digits of i's value, with a leading `-` exactly when i is negative |
| `Decimal.Pad2` | app/webhook/routes.py:27 | a two-digit field is exactly two digits denoting the number |
| `Decimal.NatRoundTrips` | app/webhook/routes.py:13-22 | decimal rendering and parsing of naturals are inverse in both directions |
| `Decimal.IntRoundTrips` | app/webhook/routes.py:58 | `str()` of an integer parses back to it, and every string that parses is the rendering of its value |
| `Decimal.IntToStringInjective` | app/webhook/routes.py:58 | distinct pull-request ids give distinct request ids |
| `Text.Split` | app/webhook/routes.py:47 | `split('/')` gives at least one part, and no part contains the separator |
| `Text.LastSegment` | app/webhook/routes.py:47-48 | `ref.split('/')[-1]` contains no `/` |
| `Text.JoinSplit` | app/webhook/routes.py:47 | joining the parts of a split gives back the string |
| `Text.SplitJoin` | app/webhook/routes.py:47 | splitting a join of separator-free parts gives back the parts |
| `Text.LastSegmentIsSuffix` | app/webhook/routes.py:47-48 | `ref.split('/')[-1]` is the longest `/`-free suffix of the ref: it has no `/`, ends the ref, and is the whole ref or follows a `/` in it |
| `Text.LastSegmentOfPlainName` | app/webhook/routes.py:47-48 | a ref without `/` is its own branch name |
| `Payload.Lookup` | app/webhook/routes.py:41-47 | the empty path gives the value itself; a lookup that succeeds went through an object holding the first key |
| `Payload.LookupAppend` | app/webhook/routes.py:41-47 | indexing along a longer path is indexing along its first part, then along the rest from the value found |
| `Payload.LookupStep` | app/webhook/routes.py:41-47 | a key path succeeds exactly when each key in turn is a field of the object reached so far, and yields that field's value |
| `Payload.Truthy` | app/webhook/routes.py:34 | Python truth testing: `None`, `False`, `0`, `""`, `[]` and `{}` are false |
| `Payload.PyStr` | app/webhook/routes.py:58 | `str()` of an integer reads back as that integer; a string is kept as it is; exactly arrays and objects are not rendered |
| `Payload.LookupMakesTruthy` | app/webhook/routes.py:34 | a body from which any field can be read passes the `if not payload` test |
| `Receiver.ActionTag` | app/webhook/routes.py:46 | the stored action is one of `PUSH`, `PULL_REQUEST`, `MERGE` |
| `Receiver.Receive` | app/webhook/routes.py:30-82 | a document is inserted if and only if the answer is 200; the only rejections are `Invalid JSON payload` and `Unsupported event type`; the status is 200, 400 or 500 |
| `Receiver.PushRecord` | app/webhook/routes.py:39-50 | a push record copies the commit id and pusher name, puts the `/`-free last segment of the ref in both branch fields, and holds the formatted commit time |
| `Receiver.PullRequestRecord` | app/webhook/routes.py:57-74 | a pull-request record holds `str(pull_request.id)`, the author's login, the head and base refs, and the given action and timestamp |
| `Receiver.PullRequestDocument` | app/webhook/routes.py:52-75 | a pull-request document is made only when `action` can be read, and it never holds a PUSH record |
| `Receiver.InvalidPayloadFirst` | app/webhook/routes.py:32-35 | the result is 400 `Invalid JSON payload` if and only if the body is absent or false, whatever the event type |
| `Receiver.UnsupportedEventTypeRejected` | app/webhook/routes.py:39-78 | the result is 400 `Unsupported event type` if and only if the body is non-empty and the tag is neither `push` nor `pull_request` |
| `Receiver.PushNormalized` | app/webhook/routes.py:39-50 | a push with commit time, commit id, pusher name and ref becomes a PUSH record: id, author, the branch twice, and the formatted commit time; a push missing any of them is malformed |
| `Receiver.PushBranch` | app/webhook/routes.py:47-48 | a stored push has from_branch equal to to_branch, and that branch is the longest `/`-free suffix of its ref |
| `Receiver.PullRequestOpenedNormalized` | app/webhook/routes.py:54-64 | an opened pull request with all fields becomes a PULL_REQUEST record: `str(id)`, the author's login, the head branch, the base branch and the formatted creation time; otherwise it is malformed |
| `Receiver.PullRequestIdIsDecimal` | app/webhook/routes.py:58 | a stored pull-request record with an integer id has the id's decimal string as its request id, and that string parses back to the id |
| `Receiver.PullRequestDocumentSource` | app/webhook/routes.py:52-75 | a stored MERGE record comes only from action `closed` with a true `merged` and is stamped with `now`; any other stored pull-request record comes from action `opened` |
| `Receiver.PullRequestMergedNormalized` | app/webhook/routes.py:66-75 | a closed pull request with a true `merged` and all fields becomes a MERGE record: `str(id)`, the author's login, the head branch, the base branch and `now` formatted; otherwise it is malformed |
| `Receiver.MergeStampedWithNow` | app/webhook/routes.py:66-75 | a stored MERGE record has `now` formatted as its timestamp, and does not depend on how payload timestamps parse |
| `Receiver.EmptyDocumentStored` | app/webhook/routes.py:37-82 | the empty dict is inserted, and answered 200, exactly for a pull request whose action is neither `opened` nor `closed` with a true `merged` |
| `Receiver.ActionFollowsEventType` | app/webhook/routes.py:39-75 | PUSH records come only from push events; PULL_REQUEST and MERGE records come only from pull-request events |
| `Receiver.PushExample` | app/webhook/routes.py:39-50 | the push delivery for `refs/heads/main` by alice, commit `abc123`, stores `abc123`, `alice`, PUSH, `main`, `main` and the formatted time |

## Left out

- HTTP plumbing is left out: the Flask blueprint, routing, CORS, `jsonify`, and reading the header and body from `request`. The tag and the decoded body are inputs, and the reply is an `Outcome`. Flask's own errors for a body that is not JSON are not modelled. "No body" is the input `None`.
- MongoDB is left out. The `db_connect` handle is not modelled. `insert_one` becomes the returned `Stored(document)`. A storage failure is not modelled either.
- `get_events` (app/webhook/routes.py:85-90) is left out. It is a read through the storage library: `find().sort('timestamp', -1).limit(10)`, plus the `_id` conversion.
- `dateutil.parser.isoparse` is a foreign library. It becomes the parameter `isoParse`. The parameter returns `None` for a string on which `isoparse` raises, and the model then answers `Malformed`.
- `datetime.now()` reads the wall clock. It becomes the parameter `now`.
- Escaping exceptions are modelled as one `Malformed` outcome. The model does not say which exception was raised, or what Flask's 500 page contains.
- Receiver.PushRecord and Receiver.PullRequestRecord need JSON strings for commit id, commit time, pusher name, login and branch refs. Any other JSON type is treated as `Malformed`. The source would store such a value unchanged. For `ref` or a timestamp, the source would raise instead.
- Payload.PyStr does not render arrays or objects. `str()` of those yields Python's repr. The model treats such a pull-request id as `Malformed`.
- JSON numbers with a fraction or an exponent are not modelled. Numbers are integers.
- `DateTime` accepts only years 1000..9999, because `%Y` writes four digits there. Python's `datetime` also allows years 1..999, which the model does not.
- Microseconds are not modelled. The UTC offset is kept in whole minutes.
- `%B` and `%p` use the English locale. Other locales are not modelled.
- `strftime` directives other than `%B`, `%Y`, `%I`, `%M`, `%p` and `%%` are not expanded. The source does not use any others.
