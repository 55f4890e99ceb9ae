/**
 * The `/api/posts/{subreddit}` endpoint of api_server.py: query validation of
 * `limit`, the record built for each fetched submission, optional AI
 * enrichment through `process_post_batch`, the response envelope, and the
 * translation of Reddit's API errors into HTTP statuses.
 *
 * What Reddit answers is a parameter (`Upstream`); so are the model's replies
 * and the `fetched_at` timestamp, which the server reads from the clock.
 */
module ApiServer {
  import opened PyText
  import opened PyData
  import opened AiServices
  import RedditFetcher

  const RedditBase: string := "https://www.reddit.com"
  const DeletedAuthor: string := "[deleted]"

  /** Thumbnail values Reddit uses for "no image". */
  const NoThumbnail: seq<string> := ["self", "default", "nsfw"]

  /** Sub-error types reported as a missing subreddit, and as rate limiting. */
  const MissingTypes: seq<string> := ["SUBREDDIT_NOEXIST", "SUBREDDIT_NOTALLOWED"]
  const RateTypes: seq<string> := ["RATELIMIT", "QUOTA_FILLED"]

  /** The bounds FastAPI enforces on the `limit` query parameter, and its default. */
  const MinLimit: int := 1
  const MaxLimit: int := 25
  const DefaultLimit: int := 5

  // ------------------------------------------------------------- records

  /** The fields of an asyncpraw submission the endpoint reads. A missing author is `None`. */
  datatype Submission = Submission(
    id: string, title: string, author: Option<string>, score: int, createdUtc: real,
    url: string, permalink: string, isSelf: bool, selftext: string, thumbnail: string,
    numComments: int)

  /** The keys of a formatted post record. */
  const RecordKeys: set<string> := {"id", "title", "author", "score", "created_utc", "url",
                                    "permalink", "is_self", "selftext", "thumbnail", "num_comments"}

  predicate IsStr(v: Value) { v.Str? }
  predicate IsStrOrNull(v: Value) { v.Str? || v.Null? }

  /** A record has the shape of the `RedditPost` response schema (with `tldr` optional). */
  predicate Conforms(r: map<string, Value>) {
    RecordKeys <= r.Keys &&
    IsStr(r["id"]) && IsStr(r["title"]) && IsStr(r["author"]) && r["score"].Int? &&
    r["created_utc"].Float? && IsStr(r["url"]) && IsStr(r["permalink"]) && r["is_self"].Bool? &&
    IsStrOrNull(r["selftext"]) && IsStrOrNull(r["thumbnail"]) && r["num_comments"].Int? &&
    ("tldr" in r ==> IsStrOrNull(r["tldr"]))
  }

  /** The record `get_posts` builds for one submission. */
  function FormatPost(p: Submission): (r: map<string, Value>)
    ensures r.Keys == RecordKeys && Conforms(r) && !AlreadyProcessed(r)
  {
    var author := if p.author.Some? then p.author.value else DeletedAuthor;
    map["id" := Str(p.id), "title" := Str(p.title), "author" := Str(author),
        "score" := Int(p.score), "created_utc" := Float(p.createdUtc), "url" := Str(p.url),
        "permalink" := Str(RedditBase + p.permalink), "is_self" := Bool(p.isSelf),
        "selftext" := (if p.isSelf then Str(p.selftext) else Null),
        "thumbnail" := (if p.thumbnail !in NoThumbnail then Str(p.thumbnail) else Null),
        "num_comments" := Int(p.numComments)]
  }

  /**
   * The fields of a formatted record: the submission's own values, "[deleted]"
   * for a missing author, an absolute permalink on reddit.com, a selftext only
   * for self posts, and no thumbnail for Reddit's placeholder values.
   */
  lemma FormatPostFields(p: Submission)
    ensures var r := FormatPost(p);
      r["id"] == Str(p.id) && r["title"] == Str(p.title) && r["url"] == Str(p.url) &&
      r["score"] == Int(p.score) && r["num_comments"] == Int(p.numComments) &&
      r["created_utc"] == Float(p.createdUtc) && r["is_self"] == Bool(p.isSelf)
    ensures p.author.None? ==> FormatPost(p)["author"] == Str(DeletedAuthor)
    ensures p.author.Some? ==> FormatPost(p)["author"] == Str(p.author.value)
    ensures var link := FormatPost(p)["permalink"].s;
      StartsWith(link, RedditBase) && link[|RedditBase|..] == p.permalink
    ensures FormatPost(p)["selftext"].Null? <==> !p.isSelf
    ensures p.isSelf ==> FormatPost(p)["selftext"] == Str(p.selftext)
    ensures FormatPost(p)["thumbnail"].Null? <==> p.thumbnail in NoThumbnail
    ensures p.thumbnail !in NoThumbnail ==> FormatPost(p)["thumbnail"] == Str(p.thumbnail)
  {
    var link := RedditBase + p.permalink;
    assert link[..|RedditBase|] == RedditBase && link[|RedditBase|..] == p.permalink;
  }

  /** A formatted record never makes `generate_tldr` raise: its text to analyse is always a str. */
  lemma FormattedNeverRaises(p: Submission, model: Model)
    ensures TextToAnalyze(FormatPost(p)).Str?
    ensures !Raises(FormatPost(p), Tldrs(model))
  {
    RaisesOnNonStrText(FormatPost(p), model);
  }

  /**
   * Enrichment keeps a record in the response schema, and its summary is that
   * of the post's own text: the selftext of a self post that has one, the title
   * otherwise.
   */
  lemma EnrichedRecord(p: Submission, model: Model)
    ensures !Raises(FormatPost(p), Tldrs(model))
    ensures Conforms(Enriched(FormatPost(p), Tldrs(model)))
    ensures Enriched(FormatPost(p), Tldrs(model))["tldr"] ==
              Str(GenerateTldr(Str(p.title), Str(if p.isSelf && p.selftext != [] then p.selftext else p.title), model).text)
  {
    FormattedNeverRaises(p, model);
    EnrichKeepsSchema(FormatPost(p), Tldrs(model));
    FormatPostFields(p);
    EnrichedFields(FormatPost(p), Tldrs(model));
  }

  /** Enriching a record in the schema keeps it there, with the same id and a str summary. */
  lemma EnrichKeepsSchema(r: map<string, Value>, summarise: Summariser)
    requires Conforms(r) && !AlreadyProcessed(r) && !Raises(r, summarise)
    ensures var e := Enriched(r, summarise);
      Conforms(e) && "tldr" in e && e["tldr"].Str? && e["id"] == r["id"]
  {
    EnrichedFields(r, summarise);
    var e := Enriched(r, summarise);
    forall k | k in RecordKeys ensures k in e && e[k] == r[k] {
    }
  }

  // -------------------------------------------------------------- errors

  /** One entry of `RedditAPIException.items`. */
  datatype SubError = SubError(errorType: string, message: string)

  /** Why the endpoint fails (the `detail` texts are not modelled). */
  datatype Cause = NoPosts | OtherError

  datatype Failure =
    | InvalidLimit                 // rejected by query validation
    | SubredditMissing             // "does not exist or is private"
    | RateLimited(wait: nat)       // "Try again in {wait} seconds."
    | RedditApiError               // "Reddit API error: ..."
    | FetchFailed(cause: Cause)    // "Failed to fetch posts: ..."

  function Status(f: Failure): (code: int)
    ensures code in {404, 422, 429, 500}
  {
    match f
    case InvalidLimit => 422
    case SubredditMissing => 404
    case RateLimited(_) => 429
    case RedditApiError => 500
    case FetchFailed(_) => 500
  }

  /** A sub-error the handler reacts to; any other is skipped. */
  predicate Known(e: SubError) {
    e.errorType in MissingTypes || e.errorType in RateTypes
  }

  /** The HTTP error for a sub-error the handler reacts to. */
  function FailureFor(e: SubError): (f: Failure)
    requires Known(e)
    ensures Status(f) == 404 <==> e.errorType in MissingTypes
    ensures Status(f) == 429 <==> e.errorType in RateTypes
    ensures f.RateLimited? ==> f.wait == RedditFetcher.ExtractWaitTime(e.message)
  {
    if e.errorType in MissingTypes then SubredditMissing
    else RateLimited(RedditFetcher.ExtractWaitTime(e.message))
  }

  /** The `except RedditAPIException` handler: the first known sub-error decides, otherwise 500. */
  function MapApiException(items: seq<SubError>): (f: Failure)
    ensures f == SubredditMissing || f.RateLimited? || f == RedditApiError
  {
    if items == [] then RedditApiError
    else if Known(items[0]) then FailureFor(items[0])
    else MapApiException(items[1..])
  }

  /** The index of the first known sub-error, if any: an independent description of the scan. */
  predicate FirstKnownAt(items: seq<SubError>, i: int) {
    0 <= i < |items| && Known(items[i]) && forall j :: 0 <= j < i ==> !Known(items[j])
  }

  /** The handler answers for the first known sub-error. */
  lemma {:induction false} MapApiExceptionFirstKnown(items: seq<SubError>, i: int)
    requires FirstKnownAt(items, i)
    ensures MapApiException(items) == FailureFor(items[i])
  {
    if i > 0 {
      assert !Known(items[0]);
      assert FirstKnownAt(items[1..], i - 1) by {
        forall j | 0 <= j < i - 1 ensures !Known(items[1..][j]) {
          assert items[1..][j] == items[j + 1];
        }
      }
      MapApiExceptionFirstKnown(items[1..], i - 1);
    }
  }

  /** Without a known sub-error the answer is the generic Reddit API error. */
  lemma {:induction false} MapApiExceptionNoneKnown(items: seq<SubError>)
    requires forall j :: 0 <= j < |items| ==> !Known(items[j])
    ensures MapApiException(items) == RedditApiError
  {
    if items != [] {
      assert forall j :: 0 <= j < |items[1..]| ==> !Known(items[1..][j]) by {
        forall j | 0 <= j < |items[1..]| ensures !Known(items[1..][j]) {
          assert items[1..][j] == items[j + 1];
        }
      }
      MapApiExceptionNoneKnown(items[1..]);
    }
  }

  /** 404 exactly when the first known sub-error names a missing or private subreddit. */
  lemma MissingIffFirstKnownMissing(items: seq<SubError>)
    ensures MapApiException(items) == SubredditMissing <==>
              exists i :: FirstKnownAt(items, i) && items[i].errorType in MissingTypes
  {
    FirstKnownCases(items);
  }

  /** 429 exactly when the first known sub-error is a rate limit, waiting what its message says. */
  lemma RateLimitedIffFirstKnownRate(items: seq<SubError>)
    ensures MapApiException(items).RateLimited? <==>
              exists i :: FirstKnownAt(items, i) && items[i].errorType !in MissingTypes
    ensures forall i :: FirstKnownAt(items, i) && items[i].errorType !in MissingTypes ==>
              MapApiException(items) == RateLimited(RedditFetcher.ExtractWaitTime(items[i].message))
  {
    FirstKnownCases(items);
    forall i | FirstKnownAt(items, i) {
      MapApiExceptionFirstKnown(items, i);
    }
  }

  /** 500 exactly when no sub-error is known. */
  lemma GenericIffNoneKnown(items: seq<SubError>)
    ensures MapApiException(items) == RedditApiError <==> forall j :: 0 <= j < |items| ==> !Known(items[j])
  {
    FirstKnownCases(items);
  }

  /** Either some sub-error is the first known one, and decides, or none is known. */
  lemma FirstKnownCases(items: seq<SubError>)
    ensures (exists i :: FirstKnownAt(items, i)) || (forall j :: 0 <= j < |items| ==> !Known(items[j]))
    ensures forall i :: FirstKnownAt(items, i) ==> MapApiException(items) == FailureFor(items[i])
    ensures (forall j :: 0 <= j < |items| ==> !Known(items[j])) ==> MapApiException(items) == RedditApiError
  {
    forall i | FirstKnownAt(items, i) ensures MapApiException(items) == FailureFor(items[i]) {
      MapApiExceptionFirstKnown(items, i);
    }
    if forall j :: 0 <= j < |items| ==> !Known(items[j]) {
      MapApiExceptionNoneKnown(items);
    } else {
      var k :| 0 <= k < |items| && Known(items[k]);
      var i := FirstKnownBefore(items, k);
      assert FirstKnownAt(items, i);
    }
  }

  lemma {:induction false} FirstKnownBefore(items: seq<SubError>, k: int) returns (i: int)
    requires 0 <= k < |items| && Known(items[k])
    ensures i <= k && FirstKnownAt(items, i)
    decreases k
  {
    if forall j :: 0 <= j < k ==> !Known(items[j]) {
      i := k;
    } else {
      var k' :| 0 <= k' < k && Known(items[k']);
      i := FirstKnownBefore(items, k');
    }
  }

  /** The handler's loop over `api_exception.items`, leaving at the first known sub-error. */
  method ApiExceptionStatus(items: seq<SubError>) returns (f: Failure)
    ensures f == MapApiException(items)
  {
    var i := 0;
    while i < |items|
      invariant 0 <= i <= |items|
      invariant MapApiException(items[i..]) == MapApiException(items)
    {
      var e := items[i];
      if e.errorType in MissingTypes {
        return SubredditMissing;
      } else if e.errorType in RateTypes {
        var wait := RedditFetcher.ExtractWaitTime(e.message);
        return RateLimited(wait);
      }
      assert items[i..][1..] == items[i + 1..];
      i := i + 1;
    }
    return RedditApiError;
  }

  // ------------------------------------------------------------ endpoint

  /** The `limit` query parameter is accepted between 1 and 25. */
  predicate ValidLimit(limit: int) {
    MinLimit <= limit <= MaxLimit
  }

  /** The default `limit` of 5 is within the bounds. */
  lemma DefaultLimitValid()
    ensures ValidLimit(DefaultLimit)
  {
  }

  /** What the Reddit calls of `get_posts` produce: the listing, or an exception on the way. */
  datatype Upstream =
    | Listed(submissions: seq<Submission>)
    | ApiException(items: seq<SubError>)
    | OtherException

  /** The `PostsResponse` envelope. */
  datatype PostsResponse = PostsResponse(
    subreddit: string, posts: seq<map<string, Value>>, count: int, fetchedAt: string, aiEnhanced: bool)

  datatype Response = Ok(body: PostsResponse) | Error(failure: Failure)

  /** The records of a listing, in fetch order. */
  function FormatAll(subs: seq<Submission>): (records: seq<map<string, Value>>)
    ensures |records| == |subs|
    ensures forall i :: 0 <= i < |subs| ==> records[i] == FormatPost(subs[i])
  {
    seq(|subs|, i requires 0 <= i < |subs| => FormatPost(subs[i]))
  }

  /** The records after `process_post_batch`, each dict being distinct and none raising. */
  function EnrichAll(records: seq<map<string, Value>>, summarise: Summariser): (enriched: seq<map<string, Value>>)
    requires forall i :: 0 <= i < |records| ==> !Raises(records[i], summarise)
    ensures |enriched| == |records|
    ensures forall i :: 0 <= i < |records| ==> enriched[i] == Enriched(records[i], summarise)
  {
    seq(|records|, i requires 0 <= i < |records| => Enriched(records[i], summarise))
  }

  /**
   * `get_posts(subreddit, limit, use_ai)` as a function of what Reddit answers.
   * An empty listing raises a 404 inside the `try`, which the generic
   * `except Exception` turns into a 500.
   */
  function GetPostsSpec(subreddit: string, limit: int, useAi: bool, upstream: Upstream,
                        model: Model, fetchedAt: string): (r: Response)
    ensures r.Ok? ==> upstream.Listed? && 0 < r.body.count == |r.body.posts| == |upstream.submissions|
    ensures r.Ok? ==> r.body.subreddit == subreddit && r.body.fetchedAt == fetchedAt && r.body.aiEnhanced == useAi
    ensures r.Error? ==> Status(r.failure) in {404, 422, 429, 500}
    ensures r.Error? && Status(r.failure) == 422 <==> !ValidLimit(limit)
  {
    if !ValidLimit(limit) then Error(InvalidLimit)
    else match upstream
      case ApiException(items) => Error(MapApiException(items))
      case OtherException => Error(FetchFailed(OtherError))
      case Listed(subs) =>
        if subs == [] then Error(FetchFailed(NoPosts))
        else
          var records := Records(subs, useAi, model);
          Ok(PostsResponse(subreddit, records, |records|, fetchedAt, useAi))
  }

  /** No formatted record makes `generate_tldr` raise. */
  lemma FormattedNoneRaise(subs: seq<Submission>, model: Model)
    ensures forall i :: 0 <= i < |subs| ==> !Raises(FormatAll(subs)[i], Tldrs(model))
  {
    forall i | 0 <= i < |subs| ensures !Raises(FormatAll(subs)[i], Tldrs(model)) {
      FormattedNeverRaises(subs[i], model);
    }
  }

  /** The records of a successful response: the formatted posts, enriched when AI is on. */
  function Records(subs: seq<Submission>, useAi: bool, model: Model): (records: seq<map<string, Value>>)
    ensures |records| == |subs|
  {
    if useAi then
      FormattedNoneRaise(subs, model);
      EnrichAll(FormatAll(subs), Tldrs(model))
    else
      FormatAll(subs)
  }

  /** A `limit` outside 1..25 is rejected with 422, and nothing else gives 422. */
  lemma InvalidLimitIff(subreddit: string, limit: int, useAi: bool, upstream: Upstream, model: Model, fetchedAt: string)
    ensures GetPostsSpec(subreddit, limit, useAi, upstream, model, fetchedAt) == Error(InvalidLimit) <==> !ValidLimit(limit)
  {
  }

  /** The endpoint succeeds exactly when the limit is valid and Reddit listed at least one post. */
  lemma SucceedsIff(subreddit: string, limit: int, useAi: bool, upstream: Upstream, model: Model, fetchedAt: string)
    ensures GetPostsSpec(subreddit, limit, useAi, upstream, model, fetchedAt).Ok? <==>
              ValidLimit(limit) && upstream.Listed? && upstream.submissions != []
  {
  }

  /** An empty listing never succeeds: it surfaces as 500, not 404. */
  lemma EmptyListingIs500(subreddit: string, limit: int, useAi: bool, model: Model, fetchedAt: string)
    requires ValidLimit(limit)
    ensures GetPostsSpec(subreddit, limit, useAi, Listed([]), model, fetchedAt) == Error(FetchFailed(NoPosts))
    ensures Status(GetPostsSpec(subreddit, limit, useAi, Listed([]), model, fetchedAt).failure) == 500
  {
  }

  /** A Reddit API exception answers 404, 429 or 500, never 422 or success. */
  lemma ApiExceptionStatuses(subreddit: string, limit: int, useAi: bool, items: seq<SubError>, model: Model, fetchedAt: string)
    requires ValidLimit(limit)
    ensures GetPostsSpec(subreddit, limit, useAi, ApiException(items), model, fetchedAt).Error?
    ensures Status(GetPostsSpec(subreddit, limit, useAi, ApiException(items), model, fetchedAt).failure) in {404, 429, 500}
  {
  }

  /**
   * A successful response: one record per fetched post, in fetch order, each in
   * the response schema; `count` is their number and `ai_enhanced` is `use_ai`.
   * Without AI the records are the formatted posts; with it each has a summary.
   */
  lemma SuccessfulEnvelope(subreddit: string, limit: int, useAi: bool, upstream: Upstream, model: Model, fetchedAt: string)
    requires GetPostsSpec(subreddit, limit, useAi, upstream, model, fetchedAt).Ok?
    ensures var body := GetPostsSpec(subreddit, limit, useAi, upstream, model, fetchedAt).body;
      body.subreddit == subreddit && body.fetchedAt == fetchedAt && body.aiEnhanced == useAi &&
      body.count == |body.posts| == |upstream.submissions| &&
      (forall i :: 0 <= i < |body.posts| ==> Conforms(body.posts[i]) && body.posts[i]["id"] == Str(upstream.submissions[i].id)) &&
      (!useAi ==> forall i :: 0 <= i < |body.posts| ==> body.posts[i] == FormatPost(upstream.submissions[i])) &&
      (useAi ==> forall i :: 0 <= i < |body.posts| ==> "tldr" in body.posts[i] && body.posts[i]["tldr"].Str?)
  {
    RecordsInSchema(upstream.submissions, useAi, model);
  }

  /** The records of a response are in the schema and in fetch order; with AI each has a summary. */
  lemma RecordsInSchema(subs: seq<Submission>, useAi: bool, model: Model)
    ensures forall i :: 0 <= i < |subs| ==>
      Conforms(Records(subs, useAi, model)[i]) && Records(subs, useAi, model)[i]["id"] == Str(subs[i].id)
    ensures !useAi ==> forall i :: 0 <= i < |subs| ==> Records(subs, useAi, model)[i] == FormatPost(subs[i])
    ensures useAi ==> forall i :: 0 <= i < |subs| ==>
      "tldr" in Records(subs, useAi, model)[i] && Records(subs, useAi, model)[i]["tldr"].Str?
  {
    var records := Records(subs, useAi, model);
    forall i | 0 <= i < |subs|
      ensures Conforms(records[i]) && records[i]["id"] == Str(subs[i].id)
      ensures useAi ==> "tldr" in records[i] && records[i]["tldr"].Str?
    {
      FormatPostFields(subs[i]);
      if useAi {
        FormattedNeverRaises(subs[i], model);
        EnrichKeepsSchema(FormatPost(subs[i]), Tldrs(model));
      }
    }
  }

  /** With AI, a link post (or a self post without text) is summarised from its title. */
  lemma TitleSummarised(subreddit: string, limit: int, upstream: Upstream, model: Model, fetchedAt: string, i: int)
    requires GetPostsSpec(subreddit, limit, true, upstream, model, fetchedAt).Ok?
    requires 0 <= i < |upstream.submissions|
    requires var p := upstream.submissions[i]; !p.isSelf || p.selftext == []
    ensures var p := upstream.submissions[i];
      GetPostsSpec(subreddit, limit, true, upstream, model, fetchedAt).body.posts[i]["tldr"] ==
        Str(GenerateTldr(Str(p.title), Str(p.title), model).text)
  {
    EnrichedRecord(upstream.submissions[i], model);
  }

  /** The loop building `formatted_posts`: one new dict per submission, in fetch order. */
  method FormatPosts(subs: seq<Submission>) returns (posts: seq<Dict>)
    ensures |posts| == |subs| && Distinct(posts)
    ensures forall j :: 0 <= j < |posts| ==> fresh(posts[j]) && posts[j].items == FormatPost(subs[j])
  {
    posts := [];
    for i := 0 to |subs|
      invariant |posts| == i && Distinct(posts)
      invariant forall j :: 0 <= j < i ==> fresh(posts[j]) && posts[j].items == FormatPost(subs[j])
    {
      var post := new Dict(FormatPost(subs[i]));
      posts := posts + [post];
    }
  }

  /** `process_post_batch` on the freshly formatted dicts: it never raises and enriches each one. */
  method EnrichPosts(posts: seq<Dict>, ghost subs: seq<Submission>, model: Model) returns (enhanced: seq<Dict>)
    requires Distinct(posts) && |posts| == |subs|
    requires forall j :: 0 <= j < |posts| ==> posts[j].items == FormatPost(subs[j])
    modifies set p | p in posts
    ensures enhanced == posts
    ensures Snapshot(posts) == Records(subs, true, model)
  {
    var summarise := Tldrs(model);
    ghost var formatted := Snapshot(posts);
    assert formatted == FormatAll(subs);
    FormattedNoneRaise(subs, model);
    var requests, raised;
    enhanced, requests, raised := ProcessPostBatch(posts, summarise);
    DistinctBatchEnrichesAll(posts, formatted, summarise, Snapshot(posts));
  }

  /** The records of the response: `formatted_posts`, passed through the batch when AI is on. */
  method BuildRecords(subs: seq<Submission>, useAi: bool, model: Model) returns (records: seq<map<string, Value>>)
    ensures records == Records(subs, useAi, model)
  {
    var posts := FormatPosts(subs);
    if useAi {
      posts := EnrichPosts(posts, subs, model);
    } else {
      assert Snapshot(posts) == FormatAll(subs);
    }
    records := Snapshot(posts);
  }

  /** `get_posts`: validate, fetch, format, optionally enrich, and wrap the records. */
  method GetPosts(subreddit: string, limit: int, useAi: bool, upstream: Upstream, model: Model, fetchedAt: string)
    returns (response: Response)
    ensures response == GetPostsSpec(subreddit, limit, useAi, upstream, model, fetchedAt)
  {
    if limit < MinLimit || limit > MaxLimit {
      return Error(InvalidLimit);
    }
    match upstream {
      case ApiException(items) =>
        var failure := ApiExceptionStatus(items);
        return Error(failure);
      case OtherException =>
        return Error(FetchFailed(OtherError));
      case Listed(subs) =>
        if |subs| == 0 {
          return Error(FetchFailed(NoPosts));
        }
        var records := BuildRecords(subs, useAi, model);
        return Ok(PostsResponse(subreddit, records, |records|, fetchedAt, useAi));
    }
  }
}
