# reddit-post-fetcher, modelled in Dafny

reddit-post-fetcher is a small service. It fetches the latest posts of a
subreddit, can add an AI-written "TL;DR" to each one, and serves them over an
HTTP API. This project models the parts of it that are logic rather than glue:

- **Wait time** (`RedditFetcher.ExtractWaitTime`, module file `redditfetcher.dfy`).
  This is `extract_wait_time`, which turns a Reddit rate-limit message such as
  "Try again in 9 minutes" into seconds:
  - the unit keywords are looked for in the lower-cased message, in the fixed
    order minute, second, hour;
  - the number is then scraped from the original message: the digits of the
    last whitespace-separated word before the first occurrence of the keyword;
  - when there is no such word, when it has no digit, or when no keyword is
    mentioned, the answer is 60.
- **Summaries** (`AiServices`, `aiservices.dfy`). `generate_tldr` is the pure
  function `GenerateTldr`. Its steps are:
  - it short-circuits on empty or whitespace text;
  - it truncates the text to 6000 characters plus "...";
  - it calls the model;
  - it strips the reply, removes one leading case-insensitive "tl;dr:" and
    strips again;
  - on any failure it answers "Unable to generate summary.".

  The model call is an abstract function `Model` from the prompt (title and
  truncated text) to a reply or a failure. `process_post_batch` is the
  imperative method `ProcessPostBatch`. It walks over a list of mutable dicts
  (`PyData.Dict`, a class whose `items` map is updated in place). It skips
  dicts already marked `ai_processed`, and sets `tldr` and `ai_processed` on
  the others. The same dict may appear twice in the list, and the
  specification accounts for that aliasing: each dict is handled at its first
  entry in the list.
- **Posts endpoint** (`ApiServer`, `apiserver.dfy`). This covers `get_posts`:
  - the `limit` bounds;
  - the per-post record (author fallback, permalink prefix, selftext gating,
    thumbnail sentinels);
  - the formatting loop and the optional AI enrichment over fresh dicts;
  - the `PostsResponse` envelope;
  - the mapping of Reddit API sub-errors to HTTP status codes.

  The method `GetPosts` is proved equal to the function `GetPostsSpec`, and the
  lemmas state what the endpoint promises about that function.
- **Python helpers** (`PyText` in `pytext.dfy`, `PyData` in `pydata.dfy`).
  These give small definitions of the Python behaviour the code relies on:
  - `str.isspace`, `str.isdigit`, `lower()`, `strip()`, `split()` and
    `split(sep)[0]`;
  - `int` of a digit string, `str` of a number;
  - truthiness, `or` on values, and `dict.get`.

  Some functions are definitions of these primitives and carry no promise
  beyond their definition:
  - `PyText.Lower` is `lower()`;
  - `PyData.Or` is `a or b`;
  - `PyData.Get` is `dict.get`.

  Likewise, `RedditFetcher.Scaled` is one branch's `int(...) * factor` with
  its fallback of 60. `ApiServer.FormatAll` and `ApiServer.EnrichAll` are the
  lists of formatted and enriched records. What the code promises about them
  is stated by the lemmas and methods listed below.

What Reddit answers to `get_posts` is the parameter `Upstream`: the listing, a
Reddit API exception with its sub-errors, or any other exception. This is
deliberately wider than what the repository's own calls produce:
- `fetch_latest_posts` (reddit_fetcher.py:206-222) catches the Reddit API
  exception and every other exception, and returns an empty list;
- `authenticate_reddit` and the credential loader end in `sys.exit`.

So, with the real fetcher, a missing or private subreddit or a rate limit
during the fetch reaches `get_posts` as an empty listing. That gives the
empty-listing 500 (`ApiServer.EmptyListingIs500`). The 404 and 429 answers of
the API-exception handler can then come only from a Reddit API exception
raised after the fetch, for example by `reddit.close()` or by the attribute
reads of the formatting loop. The model states what the handler does for any
such exception.

Two more things are parameters: the model's behaviour, and the `fetched_at`
string, which comes from the clock.

## Model

| member | source | states |
|---|---|---|
| RedditFetcher.NumberBefore | reddit_fetcher.py:157-170 | a number is scraped before a unit exactly when some word precedes the unit's first occurrence and the last such word holds a digit; otherwise Python raises (IndexError or ValueError) |
| RedditFetcher.ExtractWaitTime | reddit_fetcher.py:139-176 | a message whose lower-cased form mentions none of "minute", "second", "hour" waits the default of 60 seconds |
| RedditFetcher.WaitUnits | reddit_fetcher.py:155-172 | a message mentioning minutes always gets a whole number of minutes; one mentioning hours but not minutes or seconds gets whole hours or the default |
| RedditFetcher.WholeMinutes | reddit_fetcher.py:158-160 | the minute branch's answer is a multiple of 60 |
| RedditFetcher.WholeHours | reddit_fetcher.py:170-172 | the hour branch's answer is a multiple of 3600 unless it is the default |
| RedditFetcher.MinuteBranchDefault | reddit_fetcher.py:155-175 | once "minute" is mentioned, a failed scrape waits 60 and the later branches are not tried |
| RedditFetcher.NumberBeforeRendered | reddit_fetcher.py:156-159 | in "prefix N unit…" with no unit in the prefix, the number scraped is N, and the unit starts right after it |
| RedditFetcher.MinutesRendered | reddit_fetcher.py:155-160 | "prefix N minute…" waits N × 60 seconds, whatever follows (seconds or hours mentioned later included) |
| RedditFetcher.SecondsRendered | reddit_fetcher.py:161-166 | "prefix N second…" with no "minute" anywhere waits N seconds |
| RedditFetcher.HoursRendered | reddit_fetcher.py:167-172 | "prefix N hour…" with neither "minute" nor "second" waits N × 3600 seconds |
| RedditFetcher.MinuteWithoutNumber | reddit_fetcher.py:155-175 | when no digit precedes the first "minute" (including no word at all), the wait is 60 |
| RedditFetcher.SecondBranchDefault | reddit_fetcher.py:161-175 | a message mentioning seconds but not minutes whose scrape fails waits 60; the hour branch is not tried |
| RedditFetcher.HourBranchDefault | reddit_fetcher.py:167-175 | a message mentioning only hours whose scrape fails waits 60 |
| RedditFetcher.BlankBeforeMinuteDefault | reddit_fetcher.py:155-175 | only whitespace before the first "minute" (`split()[-1]` raises IndexError): the wait is 60 |
| RedditFetcher.UndigitedPrefixWaitsDefault | reddit_fetcher.py:155-175 | when the words before the first "minute" are those of a digit-free text, the wait is 60 |
| RedditFetcher.UndigitedWordWaitsDefault | reddit_fetcher.py:155-175 | when the last word before "minute" has no digit, the wait is 60 |
| RedditFetcher.CapitalisedMinutes | reddit_fetcher.py:155-158 | "prefix N Minutes" is detected in lower case but split in the original case, so it scrapes "Minutes" and waits 60 |
| RedditFetcher.TakeABreak | reddit_fetcher.py:155-160 | "Take a break for 9 minutes" waits 540 seconds |
| RedditFetcher.MinutesBeatSeconds | reddit_fetcher.py:155-161 | "Try again in 9 minutes and 30 seconds" is handled by the minute branch alone: 540 |
| RedditFetcher.TryAgainInFiveMinutes | reddit_fetcher.py:155-175 | "Try again in 5 Minutes" waits the default 60 |
| AiServices.Truncate | ai_services.py:44-46 | text of at most 6000 characters is sent unchanged; longer text becomes its first 6000 characters followed by "..." (6003 in all) |
| AiServices.Finish | ai_services.py:65-75 | a failed call gives "Unable to generate summary."; a reply gives a stripped summary, equal to the stripped reply when it does not start with "tl;dr:" in any case |
| AiServices.PrefixRemovedOnce | ai_services.py:65-71 | a reply starting with any spelling of "tl;dr:" gives the rest of the reply, stripped; only that one prefix is removed |
| AiServices.PaddedPrefixRemoved | ai_services.py:65-69 | the reply is stripped before the prefix test, so a reply with whitespace before any spelling of "tl;dr:" also loses the prefix and gives the rest, stripped |
| AiServices.StripPadLeft | ai_services.py:65 | whitespace in front of a reply does not change `strip()` of it |
| AiServices.FinishByStrip | ai_services.py:65-69 | the summary depends on the reply only through the reply stripped |
| AiServices.StripAfterHead | ai_services.py:65 | stripping a reply that starts with "tl;dr:" keeps the prefix in front |
| AiServices.GenerateTldr | ai_services.py:28-75 | falsy text gives "No content to summarize."; so does whitespace-only text; other text gives the finished reply to the prompt of the title and truncated text; a truthy non-str text raises before the `try` |
| AiServices.BlankTextSkipsModel | ai_services.py:40-42 | whitespace-only text gives the fixed answer whatever the model would say, so no call is made |
| AiServices.FailedCallFallsBack | ai_services.py:48-75 | any failure of the model call yields "Unable to generate summary." and nothing is raised |
| AiServices.ProcessedFlag | ai_services.py:92-105 | `AlreadyProcessed` is the skip test: a post without the flag is not processed; setting the flag makes a post processed exactly when the value is truthy, so `ai_processed = True` marks it processed |
| AiServices.TextToAnalyze | ai_services.py:97 | the text summarised is `selftext` when it is present and truthy, otherwise the title |
| AiServices.RaisesOnNonStrText | ai_services.py:97-101 | the batch's call raises exactly when the text to analyse is truthy but not a str |
| AiServices.Enriched | ai_services.py:91-105 | a processed post is left as it is; any other post comes out marked processed |
| AiServices.EnrichedFields | ai_services.py:101-105 | an unprocessed post gains exactly `tldr` (the summary of its title and text) and `ai_processed = True`; every other key keeps its value |
| AiServices.EnrichedIsIdempotent | ai_services.py:91-94 | running a post through the batch twice is the same as once |
| AiServices.StopFrom | ai_services.py:88-107 | the batch stops at the first dict, taken at its first entry, whose summary call raises; no dict before it raises |
| AiServices.Requests | ai_services.py:91-101 | the `generate_tldr` calls made on the first n entries, at most one per entry; `DistinctRequestCount` gives their number, one per unprocessed post |
| AiServices.FirstIndexIsFirst | ai_services.py:88-105 | no earlier entry of the list is the same dict as the one found first |
| AiServices.FirstIndexOfAlias | ai_services.py:88-105 | two entries are the same dict exactly when they share a first entry |
| AiServices.Visit | ai_services.py:91-107 | one loop step: a processed dict is skipped with no call; otherwise one call is made, and either it raises or the dict gains its summary wherever it appears in the list |
| AiServices.ProcessPostBatch | ai_services.py:78-109 | the batch raises exactly when some unprocessed dict's call raises. Otherwise it returns the same list, in the same order. The calls made are one per unprocessed dict, in list order. Every dict before the stopping point holds its enriched contents, and every later one is unchanged |
| AiServices.DistinctBatchEnrichesAll | ai_services.py:88-109 | on a list of distinct dicts none of which raises, every entry ends up as its enriched contents |
| AiServices.DistinctRequests | ai_services.py:91-101 | on distinct unprocessed dicts there is one summary call per post, in list order, on its own title and text |
| AiServices.DistinctRequestCount | ai_services.py:91-101 | on distinct dicts, for any mix of processed and unprocessed posts, exactly one summary call is made per unprocessed post |
| AiServices.ProcessedBatchIsNoOp | ai_services.py:91-94 | when every post is already processed, no call is made and no dict changes |
| ApiServer.FormatPost | api_server.py:221-244 | each record carries exactly the eleven keys of the response schema, with the schema's types, and is not marked processed |
| ApiServer.FormatPostFields | api_server.py:222-244 | the author is "[deleted]" when the post has none, else the author's name; the permalink is "https://www.reddit.com" followed by the raw permalink; `selftext` is None exactly when the post is not a self post; `thumbnail` is None exactly when it is "self", "default" or "nsfw", else copied; the other fields are copied |
| ApiServer.FormattedNeverRaises | api_server.py:237-253 | a formatted record always has str text to summarise, so enrichment cannot raise |
| ApiServer.EnrichedRecord | api_server.py:219-254 | an enriched record stays in the schema; its `tldr` is the summary of the title with the selftext of a self post, or the title when that is empty or absent |
| ApiServer.EnrichKeepsSchema | api_server.py:253 | enrichment keeps every schema field and adds a str `tldr` |
| ApiServer.Status | api_server.py:182-292 | every failure of the endpoint answers 404, 422, 429 or 500 |
| ApiServer.FailureFor | api_server.py:273-284 | a recognised sub-error answers 404 exactly when its type is SUBREDDIT_NOEXIST or SUBREDDIT_NOTALLOWED, and 429 exactly when it is RATELIMIT or QUOTA_FILLED; a 429 carries `extract_wait_time` of the sub-error's message |
| ApiServer.MapApiException | api_server.py:267-288 | an API exception maps to a missing subreddit, a rate limit or a generic Reddit API error |
| ApiServer.MapApiExceptionFirstKnown | api_server.py:268-284 | the mapping is decided by the first sub-error with a recognised type |
| ApiServer.MapApiExceptionNoneKnown | api_server.py:286-288 | with no recognised sub-error the answer is the generic 500 |
| ApiServer.MissingIffFirstKnownMissing | api_server.py:268-277 | the answer is 404 exactly when the first recognised sub-error is a missing or forbidden subreddit |
| ApiServer.RateLimitedIffFirstKnownRate | api_server.py:268-284 | the answer is 429 exactly when the first recognised sub-error is a rate limit, with the wait parsed from that sub-error's message |
| ApiServer.GenericIffNoneKnown | api_server.py:268-288 | the answer is the generic 500 exactly when no sub-error has a recognised type |
| ApiServer.FirstKnownCases | api_server.py:267-288 | either some sub-error is the first recognised one and decides the answer, or none is recognised and the answer is 500 |
| ApiServer.FirstKnownBefore | api_server.py:268-284 | any recognised sub-error has a first recognised one at or before it |
| ApiServer.ApiExceptionStatus | api_server.py:267-288 | the loop over the sub-errors, leaving at the first recognised type, computes the mapping |
| ApiServer.Records | api_server.py:219-254 | the response holds as many records as Reddit listed posts |
| ApiServer.GetPostsSpec | api_server.py:179-292 | `get_posts` as a function of what Reddit answers. A success comes from a non-empty listing; it echoes the subreddit and `fetched_at`, has `ai_enhanced == use_ai`, and has `count` equal to the number of records and of listed posts. A failure answers 404, 422, 429 or 500, and 422 exactly when `limit` is outside 1..25 |
| ApiServer.DefaultLimitValid | api_server.py:182 | the default `limit` of 5 lies within the bounds 1..25 |
| ApiServer.InvalidLimitIff | api_server.py:182 | the endpoint answers 422 exactly when `limit` is outside 1..25 |
| ApiServer.SucceedsIff | api_server.py:179-292 | the endpoint succeeds exactly when the limit is valid and Reddit listed at least one post |
| ApiServer.EmptyListingIs500 | api_server.py:214-292 | an empty listing never succeeds: the 404 raised inside the `try` is caught by the generic handler and surfaces as 500 |
| ApiServer.ApiExceptionStatuses | api_server.py:267-288 | a Reddit API exception answers 404, 429 or 500, never success or 422 |
| ApiServer.SuccessfulEnvelope | api_server.py:219-265 | a success echoes the subreddit and `fetched_at`; `ai_enhanced` equals `use_ai`; `count` is the number of records, one per fetched post in fetch order, each in the schema; without AI they are the formatted posts, with AI each has a str `tldr` |
| ApiServer.RecordsInSchema | api_server.py:219-254 | each record is in the response schema and keeps its post's id; with AI each has a summary |
| ApiServer.TitleSummarised | api_server.py:237-253 | with AI, a link post or a self post without text is summarised from its title |
| ApiServer.FormatPosts | api_server.py:219-245 | the formatting loop builds one new dict per fetched post, in fetch order, holding its record |
| ApiServer.EnrichPosts | api_server.py:247-254 | the AI branch returns the same list of dicts, now holding the enriched records |
| ApiServer.BuildRecords | api_server.py:219-254 | the records the endpoint sends are those of the specification, with or without AI |
| ApiServer.GetPosts | api_server.py:179-292 | the endpoint's answer is the specification's for every limit, AI flag and Reddit outcome |
| PyText.LowerFixes | reddit_fetcher.py:155 | `lower()` leaves no upper-case ASCII letter, is idempotent, and leaves a text without upper-case letters unchanged |
| PyText.Before | reddit_fetcher.py:156 | `s.split(sep)[0]` is the prefix of `s` up to the first occurrence of `sep`, or all of `s` |
| PyText.Words | reddit_fetcher.py:156 | `split()` gives non-empty words without whitespace |
| PyText.WordsAroundSpace | reddit_fetcher.py:156 | `split()` splits at every whitespace character |
| PyText.Strip | ai_services.py:41-65 | `strip()` gives a string with no whitespace at either end, no longer than its input |
| PyText.StripIdempotent | ai_services.py:65-71 | stripping twice is stripping once |
| PyText.StripEmptyIffAllSpace | ai_services.py:41 | `not text.strip()` holds exactly for whitespace-only text |
| PyText.StripOfPadded | ai_services.py:65 | stripping removes exactly the surrounding whitespace |
| PyText.Digits | reddit_fetcher.py:157 | the digit filter keeps only digits, all of them when the word is all digits, none when it has none |
| PyText.DigitsEmptyIff | reddit_fetcher.py:157 | the digit filter gives the empty string, on which `int` raises ValueError, exactly when the word has no digit |
| PyText.IntOfShow | reddit_fetcher.py:157 | `int(str(n)) == n` |

## Left out

- The FastAPI app, CORS and the request-timing middleware, which are framework plumbing with wall-clock floats.
- uvicorn startup, for the same reason.
- Loading credentials from `.env` or the environment, and the `sys.exit` paths: these are I/O and process control. `SystemExit` is not an `Exception`, so no handler of the model would see it anyway.
- `authenticate_reddit`, `fetch_latest_posts` and `search_subreddits` are network calls and are not modelled. `GetPostsSpec` takes its `Upstream` parameter in their place, and that parameter is wider than what they return: `fetch_latest_posts` turns every exception into an empty list. Of `search_subreddits`, only the `limit` bound of 1..25 (api_server.py:136-137) is shared, through `ValidLimit`.
- `ApiServer.GetPosts`: the model does not assume that Reddit returns at most `limit` posts. The `limit` is only forwarded to the listing call, which is not part of this model.
- The `AsyncLimiter` rate limiting, `async`/`await` and all concurrency. These concern time and scheduling.
- The OpenAI client, its parameters, the system prompt and the prompt's wording. The call is the abstract `Model` from (title, truncated text) to a reply or a failure, so a missing reply content and any exception both count as `Failed`.
- `AiServices.Tldrs`: the same prompt is assumed to get the same reply within one batch. A real model is not deterministic.
- `AiServices.ProcessPostBatch` runs over any `Summariser`. The endpoint instantiates it with `Tldrs(model)`.
- Logging, and the exact text of every error `detail`, including `str(e)`. Only the failure kind, its status code and the parsed wait are modelled.
- The CLI (`parse_arguments`, `print_post_details`, `main`) and the `enhance_post` endpoint, a thin wrapper around `generate_tldr`.
- `created_utc` is carried as an opaque `real`, with no float arithmetic. `fetched_at` comes from the clock, so it is a parameter.
- The pydantic `response_model` serialisation: dropping `ai_processed`, filling an absent `tldr` with None, and validating field types. The model instead proves that each record has the schema's keys and types.
- `PyText.Lower` maps only ASCII letters, while Python's `lower()` is Unicode-aware and can change the length. For the uses here (finding "minute", "second" and "hour", and the "tl;dr:" prefix) the two agree. The only non-ASCII characters that lower to ASCII are the Kelvin sign (to "k", in none of these words) and the dotted capital I (to "i" followed by a combining dot, so that this "i" is followed by the combining dot and never directly by another letter).
- `PyText.IsDigit` accepts only '0'..'9': Python's `str.isdigit` also accepts other Unicode digits, some of which `int` rejects. Those are not modelled.
- A `Dict` value holds strings, integers, booleans, None and opaque floats, which is all the records contain.
- `PyText.IntOfDigits` converts digit strings of any length. Since CPython 3.11 (and the 2022 security releases of 3.7 to 3.10), `int()` raises ValueError on a string of more than 4300 digits. At reddit_fetcher.py:173-175 such a word then gives 60, where the model answers the number times the unit. This interpreter-version limit is not modelled.
- `ApiServer.SubError`: the sub-error's message is a string. asyncpraw allows a `None` message. Then `extract_wait_time(None)` raises AttributeError at reddit_fetcher.py:155, inside the `except RedditAPIException` handler (api_server.py:280), which its sibling `except Exception` does not catch. The response is an unhandled 500 where the model answers 429. A missing message is not modelled.
