/**
 * ai_services.py: the TL;DR summariser around the language-model call, and
 * the batch step that attaches a summary to every post not yet processed.
 *
 * The model call is a parameter: a `Model` maps the request it is sent to
 * the reply, and `Failed` stands for every exception the client can raise
 * (including a reply without text content).
 */
module AiServices {
  import opened PyText
  import opened PyData

  const MaxChars: nat := 6000
  const Ellipsis: string := "..."
  const NoContent: string := "No content to summarize."
  const Unavailable: string := "Unable to generate summary."
  const TldrPrefix: string := "tl;dr:"

  /** What the model is asked about: the post title and the (truncated) text. */
  datatype Prompt = Prompt(title: Value, content: string)

  /** The model's answer: the reply text, or a failure of the call. */
  datatype Reply = Completed(content: string) | Failed

  type Model = Prompt -> Reply

  /**
   * The outcome of `generate_tldr`: the summary it returns, or the
   * AttributeError it raises (before its `try`) when handed a truthy non-str text.
   */
  datatype Tldr = Summary(text: string) | Raised

  // ------------------------------------------------------ generate_tldr

  /** Text longer than 6000 characters is cut to its first 6000 followed by "...". */
  function Truncate(text: string): (sent: string)
    ensures |sent| <= MaxChars + |Ellipsis|
    ensures |text| <= MaxChars ==> sent == text
    ensures |text| > MaxChars ==> |sent| == MaxChars + 3 && StartsWith(sent, text[..MaxChars]) && StartsWith(text, sent[..MaxChars])
    ensures |text| > MaxChars ==> sent[MaxChars..] == Ellipsis
  {
    if |text| > MaxChars then text[..MaxChars] + Ellipsis else text
  }

  /** The model's reply, stripped, with one leading case-insensitive "tl;dr:" removed and stripped again. */
  function Finish(reply: Reply): (summary: string)
    ensures reply.Failed? ==> summary == Unavailable
    ensures reply.Completed? ==> IsStripped(summary)
    ensures reply.Completed? && !StartsWith(Lower(Strip(reply.content)), TldrPrefix) ==> summary == Strip(reply.content)
  {
    match reply
    case Failed => Unavailable
    case Completed(content) =>
      var summary := Strip(content);
      if StartsWith(Lower(summary), TldrPrefix) then Strip(summary[6..]) else summary
  }

  /**
   * `generate_tldr(title, text)`, with the model call made through `model`.
   * Empty or blank text is answered without consulting the model; otherwise the
   * model sees the truncated text, and a failed call gives the fixed fallback.
   */
  function GenerateTldr(title: Value, text: Value, model: Model): (r: Tldr)
    ensures r.Raised? <==> Truthy(text) && !text.Str?
    ensures !Truthy(text) ==> r == Summary(NoContent)
    ensures text.Str? && AllSpace(text.s) ==> r == Summary(NoContent)
    ensures text.Str? && !AllSpace(text.s) ==> r == Summary(Finish(model(Prompt(title, Truncate(text.s)))))
  {
    if !Truthy(text) then Summary(NoContent)
    else if !text.Str? then Raised
    else if Strip(text.s) == [] then
      StripEmptyIffAllSpace(text.s);
      Summary(NoContent)
    else
      StripEmptyIffAllSpace(text.s);
      Summary(Finish(model(Prompt(title, Truncate(text.s)))))
  }

  /** Blank text gets the fixed answer whatever the model would say: no call is made. */
  lemma BlankTextSkipsModel(title: Value, text: string, m1: Model, m2: Model)
    requires AllSpace(text)
    ensures GenerateTldr(title, Str(text), m1) == GenerateTldr(title, Str(text), m2) == Summary(NoContent)
  {
  }

  /** `generate_tldr` never raises on a str: a failed model call gives the fixed fallback. */
  lemma FailedCallFallsBack(title: Value, text: string, model: Model)
    requires !AllSpace(text) && model(Prompt(title, Truncate(text))) == Failed
    ensures GenerateTldr(title, Str(text), model) == Summary(Unavailable)
  {
  }

  /**
   * Only one "tl;dr:" prefix is removed, in any letter case: a reply
   * `head + body` with `head` a spelling of "tl;dr:" is summarised as `body`
   * stripped, even when `body` itself starts with "tl;dr:".
   */
  lemma PrefixRemovedOnce(head: string, body: string)
    requires |head| == 6 && Lower(head) == TldrPrefix
    ensures Finish(Completed(head + body)) == Strip(body)
  {
    var a, b := StripParts(body);
    var kept := StripAfterHead(head, body, a, b);
    HeadLeads(head, kept);
    StripBehindHead(a, Strip(body));
  }

  /**
   * The reply is stripped before the prefix test, so leading whitespace does not
   * hide the prefix: `a + head + body` with `a` blank is summarised as `body` stripped.
   */
  lemma PaddedPrefixRemoved(a: string, head: string, body: string)
    requires AllSpace(a) && |head| == 6 && Lower(head) == TldrPrefix
    ensures Finish(Completed(a + (head + body))) == Strip(body)
  {
    StripPadLeft(a, head + body);
    FinishByStrip(a + (head + body), head + body);
    PrefixRemovedOnce(head, body);
  }

  /** Whitespace in front does not change what `strip()` gives. */
  lemma StripPadLeft(a: string, s: string)
    requires AllSpace(a)
    ensures Strip(a + s) == Strip(s)
  {
    var a1, b1 := StripParts(s);
    PaddedOnTheLeft(a, a1, Strip(s), b1);
  }

  /** A stripped text padded twice on the left strips back to itself. */
  lemma PaddedOnTheLeft(a: string, a1: string, r: string, b1: string)
    requires AllSpace(a) && AllSpace(a1) && AllSpace(b1) && IsStripped(r)
    ensures Strip(a + (a1 + r + b1)) == r
  {
    AllSpaceConcat(a, a1);
    assert a + (a1 + r + b1) == (a + a1) + r + b1;
    StripOfPadded(a + a1, r, b1);
  }

  /** The summary depends on the reply only through the reply stripped. */
  lemma FinishByStrip(m1: string, m2: string)
    requires Strip(m1) == Strip(m2)
    ensures Finish(Completed(m1)) == Finish(Completed(m2))
  {
  }

  /** A text starting with a spelling of "tl;dr:" starts with "tl;dr:" once lower-cased. */
  lemma HeadLeads(head: string, kept: string)
    requires |head| == 6 && Lower(head) == TldrPrefix
    requires |kept| >= 6 && kept[..6] == head
    ensures StartsWith(Lower(kept), TldrPrefix)
  {
    var l := Lower(kept);
    forall k | 0 <= k < 6 ensures l[k] == TldrPrefix[k] {
      assert kept[k] == head[k];
      assert Lower(head)[k] == LowerChar(head[k]);
    }
  }

  /** What follows the head once stripped: the stripped body, after its leading whitespace. */
  lemma StripBehindHead(a: string, r: string)
    requires AllSpace(a) && IsStripped(r)
    ensures Strip(if r == [] then [] else a + r) == r
  {
    if r != [] {
      assert a + r == a + r + [];
      StripOfPadded(a, r, []);
    }
  }

  /** A head that starts and ends without whitespace stays in front when stripping. */
  lemma StripAfterHead(head: string, body: string, a: string, b: string) returns (kept: string)
    requires |head| == 6 && Lower(head) == TldrPrefix
    requires body == a + Strip(body) + b && AllSpace(a) && AllSpace(b)
    ensures |kept| >= 6 && kept[..6] == head && kept[6..] == (if Strip(body) == [] then [] else a + Strip(body))
    ensures Strip(head + body) == kept
  {
    var r := Strip(body);
    HeadIsStripped(head);
    kept := StripBehindStripped(head, a, r, b);
  }

  /** Behind a stripped head, stripping keeps the inner padding and the text, or nothing when there is no text. */
  lemma StripBehindStripped(head: string, a: string, r: string, b: string) returns (kept: string)
    requires head != [] && IsStripped(head) && IsStripped(r) && AllSpace(a) && AllSpace(b)
    ensures kept == head + (if r == [] then [] else a + r)
    ensures Strip(head + (a + r + b)) == kept
  {
    if r == [] {
      kept := head;
      AllSpaceConcat(a, b);
      assert head + (a + r + b) == [] + head + (a + b);
      StripOfPadded([], head, a + b);
    } else {
      kept := head + (a + r);
      assert kept[0] == head[0] && kept[|kept| - 1] == r[|r| - 1];
      assert head + (a + r + b) == [] + kept + b;
      StripOfPadded([], kept, b);
    }
  }

  /** A spelling of "tl;dr:" has no whitespace at either end. */
  lemma HeadIsStripped(head: string)
    requires |head| == 6 && Lower(head) == TldrPrefix
    ensures IsStripped(head)
  {
    assert LowerChar(head[0]) == 't' && LowerChar(head[5]) == ':' by {
      assert Lower(head)[0] == LowerChar(head[0]) && Lower(head)[5] == LowerChar(head[5]);
    }
  }

  // ------------------------------------------------- process_post_batch

  /**
   * The summariser the batch calls for each post, on its title and its text.
   * The service uses `Tldrs(model)`; the batch is modelled for any summariser.
   */
  type Summariser = (Value, Value) -> Tldr

  /** `generate_tldr` with the model's replies fixed. */
  function Tldrs(model: Model): (summarise: Summariser)
    ensures forall title, text :: summarise(title, text) == GenerateTldr(title, text, model)
  {
    (title, text) => GenerateTldr(title, text, model)
  }

  /** `"ai_processed" in post and post["ai_processed"]`. */
  predicate AlreadyProcessed(post: map<string, Value>) {
    "ai_processed" in post && Truthy(post["ai_processed"])
  }

  /**
   * A post without the flag is not processed; setting the flag to a value makes
   * the post processed exactly when the value is truthy, `True` included.
   */
  lemma ProcessedFlag(post: map<string, Value>, v: Value)
    ensures "ai_processed" !in post ==> !AlreadyProcessed(post)
    ensures AlreadyProcessed(post["ai_processed" := v]) <==> Truthy(v)
    ensures AlreadyProcessed(post["ai_processed" := Bool(true)])
  {
  }

  /** `post.get("title", "")`. */
  function TitleOf(post: map<string, Value>): Value {
    Get(post, "title", Str(""))
  }

  /** `post.get("selftext", "") or post.get("title", "")`. */
  function TextToAnalyze(post: map<string, Value>): (text: Value)
    ensures "selftext" in post && Truthy(post["selftext"]) ==> text == post["selftext"]
    ensures !("selftext" in post && Truthy(post["selftext"])) ==> text == TitleOf(post)
  {
    Or(Get(post, "selftext", Str("")), TitleOf(post))
  }

  /** The `generate_tldr` call the batch makes for a post. */
  datatype Request = Request(title: Value, text: Value)

  function RequestFor(post: map<string, Value>): Request {
    Request(TitleOf(post), TextToAnalyze(post))
  }

  /** The batch stops with an exception at this post. */
  predicate Raises(post: map<string, Value>, summarise: Summariser) {
    !AlreadyProcessed(post) && summarise(TitleOf(post), TextToAnalyze(post)).Raised?
  }

  /**
   * With `generate_tldr` as the summariser, the batch raises exactly on a post
   * not yet processed whose text to analyse is truthy but not a str.
   */
  lemma RaisesOnNonStrText(post: map<string, Value>, model: Model)
    ensures Raises(post, Tldrs(model)) <==>
              !AlreadyProcessed(post) && Truthy(TextToAnalyze(post)) && !TextToAnalyze(post).Str?
  {
  }

  /** A post after the batch has seen it: untouched if processed, else with `tldr` and `ai_processed` set. */
  function Enriched(post: map<string, Value>, summarise: Summariser): (r: map<string, Value>)
    requires !Raises(post, summarise)
    ensures AlreadyProcessed(r)
    ensures AlreadyProcessed(post) ==> r == post
  {
    if AlreadyProcessed(post) then post
    else
      var tldr := summarise(TitleOf(post), TextToAnalyze(post));
      post["tldr" := Str(tldr.text)]["ai_processed" := Bool(true)]
  }

  /**
   * A post not yet processed gains exactly the keys `tldr` (the summary of its
   * text) and `ai_processed` (True); every other entry is kept.
   */
  lemma EnrichedFields(post: map<string, Value>, summarise: Summariser)
    requires !Raises(post, summarise) && !AlreadyProcessed(post)
    ensures Enriched(post, summarise).Keys == post.Keys + {"tldr", "ai_processed"}
    ensures Enriched(post, summarise)["ai_processed"] == Bool(true)
    ensures Enriched(post, summarise)["tldr"] == Str(summarise(TitleOf(post), TextToAnalyze(post)).text)
    ensures forall k :: k in post && k != "tldr" && k != "ai_processed" ==> k in Enriched(post, summarise) && Enriched(post, summarise)[k] == post[k]
  {
  }

  /** Posts that already went through the batch go through unchanged. */
  lemma EnrichedIsIdempotent(post: map<string, Value>, summarise: Summariser)
    requires !Raises(post, summarise)
    ensures !Raises(Enriched(post, summarise), summarise) && Enriched(Enriched(post, summarise), summarise) == Enriched(post, summarise)
  {
  }

  /** The contents of the dicts, in list order. */
  function Snapshot(posts: seq<Dict>): (contents: seq<map<string, Value>>)
    reads set p | p in posts
    ensures |contents| == |posts|
    ensures forall i :: 0 <= i < |posts| ==> contents[i] == posts[i].items
  {
    seq(|posts|, i reads set p | p in posts requires 0 <= i < |posts| => posts[i].items)
  }

  /** The index of the first entry of the list that is the same dict as `posts[i]`. */
  function FirstIndex(posts: seq<Dict>, i: int): (first: nat)
    requires 0 <= i < |posts|
    ensures first <= i && posts[first] == posts[i]
    ensures FirstIndexFrom(posts, first, 0) == first
  {
    var first := FirstIndexFrom(posts, i, 0);
    FirstIndexFromOfAlias(posts, i, first, 0);
    first
  }

  function FirstIndexFrom(posts: seq<Dict>, i: int, from: nat): (first: nat)
    requires from <= i < |posts|
    ensures from <= first <= i && posts[first] == posts[i]
    decreases i - from
  {
    if posts[from] == posts[i] then from else FirstIndexFrom(posts, i, from + 1)
  }

  /** No entry before `FirstIndex(posts, i)` is the dict `posts[i]`. */
  lemma {:induction false} FirstIndexIsFirst(posts: seq<Dict>, i: int, from: nat)
    requires from <= i < |posts|
    ensures forall j :: from <= j < FirstIndexFrom(posts, i, from) ==> posts[j] != posts[i]
    decreases i - from
  {
    if posts[from] != posts[i] {
      FirstIndexIsFirst(posts, i, from + 1);
    }
  }

  /** The scan for the first entry depends only on which dict is looked for. */
  lemma {:induction false} FirstIndexFromOfAlias(posts: seq<Dict>, i: int, j: int, from: nat)
    requires from <= i < |posts| && from <= j < |posts| && posts[i] == posts[j]
    ensures FirstIndexFrom(posts, i, from) == FirstIndexFrom(posts, j, from)
    decreases i - from
  {
    if posts[from] != posts[i] {
      assert from != i && from != j;
      FirstIndexFromOfAlias(posts, i, j, from + 1);
    }
  }

  /** A list prefix one entry longer. */
  lemma PrefixSnoc<T>(s: seq<T>, i: nat)
    requires i < |s|
    ensures s[..i + 1] == s[..i] + [s[i]]
  {
  }

  /** Contents of aliased entries agree: each entry holds what the first entry of its dict holds. */
  ghost predicate Coherent(posts: seq<Dict>, contents: seq<map<string, Value>>) {
    |contents| == |posts| &&
    forall i :: 0 <= i < |posts| ==> contents[i] == contents[FirstIndex(posts, i)]
  }

  /** Entries that are the same dict have the same first index. */
  lemma FirstIndexOfAlias(posts: seq<Dict>, i: int, j: int)
    requires 0 <= i < |posts| && 0 <= j < |posts|
    ensures posts[i] == posts[j] <==> FirstIndex(posts, i) == FirstIndex(posts, j)
  {
    if posts[i] == posts[j] {
      FirstIndexFromOfAlias(posts, i, j, 0);
    }
  }

  /**
   * Where the batch stops: the first entry, seen for the first time, on which
   * `generate_tldr` raises; `|posts|` when there is none. A dict seen before
   * is already processed and is skipped.
   */
  function StopFrom(posts: seq<Dict>, contents: seq<map<string, Value>>, summarise: Summariser, from: nat): (stop: nat)
    requires |contents| == |posts| && from <= |posts|
    ensures from <= stop <= |posts|
    ensures forall j :: from <= j < stop ==> !(FirstIndex(posts, j) == j && Raises(contents[j], summarise))
    ensures stop < |posts| ==> FirstIndex(posts, stop) == stop && Raises(contents[stop], summarise)
    decreases |posts| - from
  {
    if from == |posts| then from
    else if FirstIndex(posts, from) == from && Raises(contents[from], summarise) then from
    else StopFrom(posts, contents, summarise, from + 1)
  }

  /** The `generate_tldr` calls made for the first `n` entries: one per dict not yet processed, at its first entry. */
  function Requests(posts: seq<Dict>, contents: seq<map<string, Value>>, n: nat): (calls: seq<Request>)
    requires |contents| == |posts| && n <= |posts|
    ensures |calls| <= n
  {
    if n == 0 then []
    else
      var j := n - 1;
      Requests(posts, contents, j) + RequestAt(posts, contents, j)
  }

  /**
   * The dict contents `now` after the batch has passed the first `i` entries:
   * every dict first met before `i` is enriched, every other one is as it was.
   */
  ghost predicate Stage(posts: seq<Dict>, contents: seq<map<string, Value>>, summarise: Summariser, i: nat, now: seq<map<string, Value>>)
    requires |contents| == |posts|
  {
    |now| == |posts| &&
    forall j :: 0 <= j < |posts| ==>
      if FirstIndex(posts, j) < i then !Raises(contents[j], summarise) && now[j] == Enriched(contents[j], summarise)
      else now[j] == contents[j]
  }

  /** Passing an entry whose dict is already processed changes nothing. */
  lemma SkipStep(posts: seq<Dict>, contents: seq<map<string, Value>>, summarise: Summariser, i: nat, now: seq<map<string, Value>>)
    requires Coherent(posts, contents) && i < |posts|
    requires Stage(posts, contents, summarise, i, now) && AlreadyProcessed(now[i])
    ensures Stage(posts, contents, summarise, i + 1, now)
    ensures !(FirstIndex(posts, i) == i && Raises(contents[i], summarise))
  {
    forall j | 0 <= j < |posts| && FirstIndex(posts, j) == i
      ensures !Raises(contents[j], summarise) && now[j] == Enriched(contents[j], summarise)
    {
      FirstIndexOfAlias(posts, i, j);
    }
  }

  /** Enriching the dict first met at entry `i` moves the stage on by one. */
  lemma UpdateStep(posts: seq<Dict>, contents: seq<map<string, Value>>, summarise: Summariser, i: nat,
                   before: seq<map<string, Value>>, after: seq<map<string, Value>>)
    requires Coherent(posts, contents) && i < |posts| && FirstIndex(posts, i) == i
    requires Stage(posts, contents, summarise, i, before) && !Raises(contents[i], summarise)
    requires |after| == |posts|
    requires forall j :: 0 <= j < |posts| ==> after[j] == if posts[j] == posts[i] then Enriched(contents[i], summarise) else before[j]
    ensures Stage(posts, contents, summarise, i + 1, after)
  {
    forall j | 0 <= j < |posts|
      ensures if FirstIndex(posts, j) < i + 1 then !Raises(contents[j], summarise) && after[j] == Enriched(contents[j], summarise)
              else after[j] == contents[j]
    {
      FirstIndexOfAlias(posts, i, j);
    }
  }

  /** The `generate_tldr` call the batch makes at entry `i`, if any. */
  function RequestAt(posts: seq<Dict>, contents: seq<map<string, Value>>, i: nat): (call: seq<Request>)
    requires |contents| == |posts| && i < |posts|
    ensures |call| <= 1
  {
    if FirstIndex(posts, i) == i && !AlreadyProcessed(contents[i]) then [RequestFor(contents[i])] else []
  }

  lemma RequestsStep(posts: seq<Dict>, contents: seq<map<string, Value>>, i: nat, done: seq<Request>, call: seq<Request>)
    requires |contents| == |posts| && i < |posts|
    requires done == Requests(posts, contents, i) && call == RequestAt(posts, contents, i)
    ensures done + call == Requests(posts, contents, i + 1)
  {
  }

  /**
   * One pass of the loop of `process_post_batch` over entry `i`: a processed
   * dict is left alone; otherwise `generate_tldr` is called on its text and,
   * unless it raises, `tldr` and `ai_processed` are set in place.
   */
  method Visit(posts: seq<Dict>, summarise: Summariser, i: nat, ghost contents: seq<map<string, Value>>, done: seq<Request>)
    returns (requests: seq<Request>, raised: bool)
    requires Coherent(posts, contents) && i < |posts| && done == Requests(posts, contents, i)
    requires Stage(posts, contents, summarise, i, Snapshot(posts))
    modifies posts[i]
    ensures requests == Requests(posts, contents, i + 1)
    ensures raised <==> FirstIndex(posts, i) == i && Raises(contents[i], summarise)
    ensures raised ==> Stage(posts, contents, summarise, i, Snapshot(posts))
    ensures !raised ==> Stage(posts, contents, summarise, i + 1, Snapshot(posts))
  {
    var post := posts[i];
    if "ai_processed" in post.items && Truthy(post.items["ai_processed"]) {
      SkipStep(posts, contents, summarise, i, Snapshot(posts));
      RequestsStep(posts, contents, i, done, []);
      return done, false;
    }
    assert FirstIndex(posts, i) == i && post.items == contents[i];
    var text := Or(Get(post.items, "selftext", Str("")), Get(post.items, "title", Str("")));
    var title := Get(post.items, "title", Str(""));
    RequestsStep(posts, contents, i, done, [Request(title, text)]);
    requests := done + [Request(title, text)];
    var tldr := summarise(title, text);
    if tldr.Raised? {
      return requests, true;
    }
    ghost var before := Snapshot(posts);
    post.items := post.items["tldr" := Str(tldr.text)]["ai_processed" := Bool(true)];
    UpdateStep(posts, contents, summarise, i, before, Snapshot(posts));
    raised := false;
  }

  /** The contents read from the dicts agree wherever the list repeats a dict. */
  lemma SnapshotIsCoherent(posts: seq<Dict>)
    ensures Coherent(posts, Snapshot(posts))
  {
  }

  /**
   * `process_post_batch(posts)`. Every dict not yet processed gets `tldr` and
   * `ai_processed = True` in place, at its first entry in the list; processed
   * ones are skipped. The result is the input list itself. `requests` lists the
   * `generate_tldr` calls in order; `raised` reports the exception that
   * `generate_tldr` raises on a truthy non-str text, which ends the batch.
   */
  method ProcessPostBatch(posts: seq<Dict>, summarise: Summariser) returns (enhanced: seq<Dict>, requests: seq<Request>, raised: bool)
    modifies set p | p in posts
    ensures raised <==> StopFrom(posts, old(Snapshot(posts)), summarise, 0) < |posts|
    ensures !raised ==> enhanced == posts
    ensures requests == Requests(posts, old(Snapshot(posts)),
                                 if raised then StopFrom(posts, old(Snapshot(posts)), summarise, 0) + 1 else |posts|)
    ensures Stage(posts, old(Snapshot(posts)), summarise, StopFrom(posts, old(Snapshot(posts)), summarise, 0), Snapshot(posts))
  {
    ghost var contents := Snapshot(posts);
    ghost var stop := StopFrom(posts, contents, summarise, 0);
    SnapshotIsCoherent(posts);
    enhanced, requests, raised := [], [], false;
    var i := 0;
    while i < |posts|
      invariant 0 <= i <= stop
      invariant enhanced == posts[..i]
      invariant requests == Requests(posts, contents, i)
      invariant Stage(posts, contents, summarise, i, Snapshot(posts))
    {
      var stopped;
      requests, stopped := Visit(posts, summarise, i, contents, requests);
      if stopped {
        assert i == stop;
        raised := true;
        return;
      }
      PrefixSnoc(posts, i);
      enhanced := enhanced + [posts[i]];
      i := i + 1;
    }
  }

  /** No dict appears twice in the list. */
  predicate Distinct(posts: seq<Dict>) {
    forall i, j :: 0 <= i < j < |posts| ==> posts[i] != posts[j]
  }

  /** In a list of distinct dicts every entry is its own first occurrence. */
  lemma FirstIndexOfDistinct(posts: seq<Dict>, i: int)
    requires Distinct(posts) && 0 <= i < |posts|
    ensures FirstIndex(posts, i) == i
  {
  }

  /**
   * On distinct dicts none of which makes `generate_tldr` raise, the batch runs
   * to the end and leaves every dict enriched.
   */
  lemma DistinctBatchEnrichesAll(posts: seq<Dict>, contents: seq<map<string, Value>>, summarise: Summariser,
                                 now: seq<map<string, Value>>)
    requires Distinct(posts) && |contents| == |posts|
    requires forall j :: 0 <= j < |posts| ==> !Raises(contents[j], summarise)
    requires Stage(posts, contents, summarise, StopFrom(posts, contents, summarise, 0), now)
    ensures StopFrom(posts, contents, summarise, 0) == |posts|
    ensures |now| == |posts| && forall j :: 0 <= j < |posts| ==> now[j] == Enriched(contents[j], summarise)
  {
    forall j | 0 <= j < |posts| ensures FirstIndex(posts, j) == j {
      FirstIndexOfDistinct(posts, j);
    }
  }

  /** On distinct unprocessed dicts the batch asks for one summary per entry, in list order. */
  lemma {:induction false} DistinctRequests(posts: seq<Dict>, contents: seq<map<string, Value>>, n: nat)
    requires Distinct(posts) && |contents| == |posts| && n <= |posts|
    requires forall j :: 0 <= j < |posts| ==> !AlreadyProcessed(contents[j])
    ensures Requests(posts, contents, n) == seq(n, j requires 0 <= j < n => RequestFor(contents[j]))
  {
    if n > 0 {
      DistinctRequests(posts, contents, n - 1);
      FirstIndexOfDistinct(posts, n - 1);
    }
  }

  /**
   * On distinct dicts the batch makes exactly one call per unprocessed post,
   * whatever mix of processed and unprocessed posts the list holds.
   */
  lemma {:induction false} DistinctRequestCount(posts: seq<Dict>, contents: seq<map<string, Value>>, n: nat)
    requires Distinct(posts) && |contents| == |posts| && n <= |posts|
    ensures |Requests(posts, contents, n)| == |set j | 0 <= j < n && !AlreadyProcessed(contents[j])|
  {
    if n > 0 {
      DistinctRequestCount(posts, contents, n - 1);
      FirstIndexOfDistinct(posts, n - 1);
      var before := set j | 0 <= j < n - 1 && !AlreadyProcessed(contents[j]);
      var upTo := set j | 0 <= j < n && !AlreadyProcessed(contents[j]);
      if AlreadyProcessed(contents[n - 1]) {
        assert upTo == before;
      } else {
        assert upTo == before + {n - 1};
      }
    }
  }

  /**
   * A list whose dicts are all processed already is a fixed point of the
   * batch: it cannot raise, asks for nothing and leaves every dict unchanged.
   */
  lemma {:induction false} ProcessedBatchIsNoOp(posts: seq<Dict>, contents: seq<map<string, Value>>, summarise: Summariser,
                                                n: nat, now: seq<map<string, Value>>)
    requires |contents| == |posts| && n <= |posts|
    requires forall j :: 0 <= j < |posts| ==> AlreadyProcessed(contents[j])
    requires Stage(posts, contents, summarise, n, now)
    ensures StopFrom(posts, contents, summarise, 0) == |posts|
    ensures Requests(posts, contents, n) == []
    ensures now == contents
  {
    if n > 0 {
      ProcessedBatchIsNoOp(posts, contents, summarise, n - 1, contents);
    }
    forall j | 0 <= j < |posts| ensures now[j] == contents[j] {
      if FirstIndex(posts, j) < n {
        assert now[j] == Enriched(contents[j], summarise);
      }
    }
  }
}
