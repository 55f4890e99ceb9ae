/**
 * `extract_wait_time` of reddit_fetcher.py: how many seconds Reddit's
 * rate-limit message asks the client to wait.
 *
 * The unit keyword is looked for in the lower-cased message, in the fixed
 * order minute, second, hour. The number is scraped from the original message:
 * the digits of the last whitespace-separated word before the first
 * (case-sensitive) occurrence of the keyword. Whenever this fails, and
 * whenever no keyword is mentioned, the answer is the default of 60 seconds.
 */
module RedditFetcher {
  import opened PyText

  const DefaultWait: nat := 60
  const Minute: string := "minute"
  const Second: string := "second"
  const Hour: string := "hour"

  /** `unit in message.lower()`. */
  predicate Mentions(message: string, unit: string) {
    Contains(Lower(message), unit)
  }

  /**
   * `int("".join(filter(str.isdigit, message.split(unit)[0].split()[-1])))`,
   * or None where Python raises: IndexError when no word precedes the first
   * `unit`, ValueError when that word has no digit.
   */
  function NumberBefore(message: string, unit: string): (r: Option<nat>)
    requires unit != []
    ensures r.Some? <==> var ws := Words(Before(message, unit)); ws != [] && HasDigit(ws[|ws| - 1])
  {
    var ws := Words(Before(message, unit));
    assert ws != [] ==> (Digits(ws[|ws| - 1]) == [] <==> !HasDigit(ws[|ws| - 1])) by {
      if ws != [] { DigitsEmptyIff(ws[|ws| - 1]); }
    }
    LastNumber(ws)
  }

  /** `int` of the digits of the last word, or None for no word or no digit. */
  function LastNumber(words: seq<string>): Option<nat> {
    if words == [] then None
    else
      var digits := Digits(words[|words| - 1]);
      if digits == [] then None else Some(IntOfDigits(digits))
  }

  /** The branch's answer: the scraped number times the unit's length in seconds, or the default. */
  function Scaled(n: Option<nat>, factor: nat): (r: nat)
    ensures n.None? ==> r == DefaultWait
    ensures n.Some? ==> r == n.value * factor
  {
    match n
    case None => DefaultWait
    case Some(k) => k * factor
  }

  /** The minute branch answers a whole number of minutes, the default included. */
  lemma WholeMinutes(n: Option<nat>)
    ensures Scaled(n, 60) % 60 == 0
  {
  }

  /** The hour branch answers a whole number of hours or the default. */
  lemma WholeHours(n: Option<nat>)
    ensures Scaled(n, 3600) == DefaultWait || Scaled(n, 3600) % 3600 == 0
  {
  }

  /** `extract_wait_time(message)`: the number of seconds to wait. */
  function ExtractWaitTime(message: string): (seconds: nat)
    ensures (!Mentions(message, Minute) && !Mentions(message, Second) && !Mentions(message, Hour))
              ==> seconds == DefaultWait
  {
    if Mentions(message, Minute) then
      Scaled(NumberBefore(message, Minute), 60)
    else if Mentions(message, Second) then Scaled(NumberBefore(message, Second), 1)
    else if Mentions(message, Hour) then
      Scaled(NumberBefore(message, Hour), 3600)
    else DefaultWait
  }

  // ------------------------------------------------------------ properties

  /**
   * A message mentioning minutes is answered in whole minutes (the default is
   * one); one mentioning hours but neither minutes nor seconds, in whole hours
   * or with the default.
   */
  lemma WaitUnits(message: string)
    ensures Mentions(message, Minute) ==> ExtractWaitTime(message) % 60 == 0
    ensures (!Mentions(message, Minute) && !Mentions(message, Second) && Mentions(message, Hour))
              ==> ExtractWaitTime(message) == DefaultWait || ExtractWaitTime(message) % 3600 == 0
  {
    if Mentions(message, Minute) {
      WholeMinutes(NumberBefore(message, Minute));
    } else if !Mentions(message, Second) && Mentions(message, Hour) {
      WholeHours(NumberBefore(message, Hour));
    }
  }

  /** The number scraped before `unit` comes from the last word of `split(unit)[0]`. */
  lemma LastWordNumber(message: string, unit: string, word: string)
    requires unit != []
    requires var ws := Words(Before(message, unit)); ws != [] && ws[|ws| - 1] == word
    ensures NumberBefore(message, unit) == if Digits(word) == [] then None else Some(IntOfDigits(Digits(word)))
  {
    LastNumberOf(Words(Before(message, unit)), word);
  }

  lemma LastNumberOf(words: seq<string>, word: string)
    requires words != [] && words[|words| - 1] == word
    ensures LastNumber(words) == if Digits(word) == [] then None else Some(IntOfDigits(Digits(word)))
  {
  }

  /** The minute branch waits the default when no digit is found before the first "minute". */
  lemma MinuteBranchDefault(message: string)
    requires Mentions(message, Minute) && NumberBefore(message, Minute) == None
    ensures ExtractWaitTime(message) == DefaultWait
  {
  }

  /**
   * The same holds in the second branch: a message mentioning seconds but not
   * minutes, whose scrape fails, waits 60 and never reaches the hour branch.
   */
  lemma SecondBranchDefault(message: string)
    requires !Mentions(message, Minute) && Mentions(message, Second) && NumberBefore(message, Second) == None
    ensures ExtractWaitTime(message) == DefaultWait
  {
  }

  /** And in the hour branch: a failed scrape there waits 60. */
  lemma HourBranchDefault(message: string)
    requires !Mentions(message, Minute) && !Mentions(message, Second) && Mentions(message, Hour)
    requires NumberBefore(message, Hour) == None
    ensures ExtractWaitTime(message) == DefaultWait
  {
  }

  /** Only whitespace before the first "minute": `split()[-1]` raises IndexError and the wait is 60. */
  lemma BlankBeforeMinuteDefault(message: string)
    requires Mentions(message, Minute) && AllSpace(Before(message, Minute))
    ensures ExtractWaitTime(message) == DefaultWait
  {
    WordsOfSpace(Before(message, Minute));
    MinuteBranchDefault(message);
  }

  predicate IsUnit(unit: string) {
    unit == Minute || unit == Second || unit == Hour
  }

  /** The message shape Reddit uses: the number as its own word, followed by the unit. */
  function Rendered(prefix: string, n: nat, unit: string, rest: string): string {
    prefix + " " + Show(n) + " " + unit + rest
  }

  /** A lower-case occurrence survives `lower()`. */
  lemma LowerKeepsUnit(s: string, unit: string, i: int)
    requires IsUnit(unit) && StartsAt(s, unit, i)
    ensures StartsAt(Lower(s), unit, i)
  {
    var l := Lower(s);
    forall k | 0 <= k < |unit| ensures l[i + k] == unit[k] {
      assert s[i + k] == s[i..i + |unit|][k];
    }
    assert l[i..i + |unit|] == unit;
  }

  /** The first `unit` in `x + unit + rest` is the one after `x`, when `x` ends in a space and holds no `unit`. */
  lemma BeforeUnitAfterSpace(x: string, unit: string, rest: string)
    requires IsUnit(unit) && x != [] && x[|x| - 1] == ' ' && !Contains(x, unit)
    ensures Before(x + unit + rest, unit) == x
  {
    var s := x + unit + rest;
    forall i | 0 <= i < |x| ensures !StartsAt(s, unit, i) {
      if StartsAt(s, unit, i) {
        if i + |unit| <= |x| {
          assert s[i..i + |unit|] == x[i..i + |unit|];
          assert StartsAt(x, unit, i);
        } else {
          OccurrenceAvoids(s, unit, i, |x| - 1);
        }
      }
    }
    BeforeFirstOccurrence(x, unit, rest);
  }

  /** A word of digits followed by a space holds no unit. */
  lemma NumberWordHoldsNoUnit(n: nat, unit: string)
    requires IsUnit(unit)
    ensures !Contains(Show(n) + " ", unit)
  {
    var w := Show(n) + " ";
    assert forall k :: 0 <= k < |w| ==> w[k] != unit[0];
    NotContainedWithoutHead(w, unit);
  }

  /** The scraped number of a rendered message is the number that was rendered. */
  lemma NumberBeforeRendered(prefix: string, n: nat, unit: string, rest: string)
    requires IsUnit(unit) && !Contains(prefix, unit)
    ensures NumberBefore(Rendered(prefix, n, unit, rest), unit) == Some(n)
    ensures StartsAt(Rendered(prefix, n, unit, rest), unit, |prefix| + |Show(n)| + 2)
  {
    BeforeRendered(prefix, n, unit, rest);
    LastWordIsNumber(prefix, n);
    ShownNumberScraped(Rendered(prefix, n, unit, rest), unit, n);
  }

  /** When the last word before `unit` is `str(n)`, the number scraped is `n`. */
  lemma ShownNumberScraped(message: string, unit: string, n: nat)
    requires unit != []
    requires var ws := Words(Before(message, unit)); ws != [] && ws[|ws| - 1] == Show(n)
    ensures NumberBefore(message, unit) == Some(n)
  {
    IntOfShow(n);
    LastWordNumber(message, unit, Show(n));
  }

  /** `split(unit)[0]` of a rendered message ends just before the rendered unit. */
  lemma BeforeRendered(prefix: string, n: nat, unit: string, rest: string)
    requires IsUnit(unit) && !Contains(prefix, unit)
    ensures Before(Rendered(prefix, n, unit, rest), unit) == prefix + " " + Show(n) + " "
    ensures StartsAt(Rendered(prefix, n, unit, rest), unit, |prefix| + |Show(n)| + 2)
  {
    var x := prefix + " " + Show(n) + " ";
    assert Rendered(prefix, n, unit, rest) == x + unit + rest;
    assert x == prefix + [' '] + (Show(n) + " ");
    NumberWordHoldsNoUnit(n, unit);
    NotContainedAcross(prefix, ' ', Show(n) + " ", unit);
    BeforeUnitAfterSpace(x, unit, rest);
    assert (x + unit + rest)[|x|..|x| + |unit|] == unit;
  }

  /** The last word before the unit is the number. */
  lemma {:induction false} LastWordIsNumber(prefix: string, n: nat)
    ensures var ws := Words(prefix + " " + Show(n) + " "); ws != [] && ws[|ws| - 1] == Show(n)
  {
    var x := prefix + " " + Show(n) + " ";
    assert x == prefix + [' '] + (Show(n) + " ");
    WordsAroundSpace(prefix, ' ', Show(n) + " ");
    assert Show(n) + " " == Show(n) + [' '] + [];
    WordsAroundSpace(Show(n), ' ', []);
    WordsOfToken(Show(n));
  }

  /** A message with the number before "minute" waits that many minutes. */
  lemma MinutesRendered(prefix: string, n: nat, rest: string)
    requires !Contains(prefix, Minute)
    ensures ExtractWaitTime(Rendered(prefix, n, Minute, rest)) == n * 60
  {
    var m := Rendered(prefix, n, Minute, rest);
    NumberBeforeRendered(prefix, n, Minute, rest);
    LowerKeepsUnit(m, Minute, |prefix| + |Show(n)| + 2);
  }

  /** With no minute mentioned, the number before "second" is the wait, unscaled. */
  lemma SecondsRendered(prefix: string, n: nat, rest: string)
    requires !Contains(prefix, Second)
    requires !Mentions(Rendered(prefix, n, Second, rest), Minute)
    ensures ExtractWaitTime(Rendered(prefix, n, Second, rest)) == n
  {
    var m := Rendered(prefix, n, Second, rest);
    NumberBeforeRendered(prefix, n, Second, rest);
    LowerKeepsUnit(m, Second, |prefix| + |Show(n)| + 2);
  }

  /** With neither minute nor second mentioned, the number before "hour" is the wait in hours. */
  lemma HoursRendered(prefix: string, n: nat, rest: string)
    requires !Contains(prefix, Hour)
    requires !Mentions(Rendered(prefix, n, Hour, rest), Minute)
    requires !Mentions(Rendered(prefix, n, Hour, rest), Second)
    ensures ExtractWaitTime(Rendered(prefix, n, Hour, rest)) == n * 3600
  {
    var m := Rendered(prefix, n, Hour, rest);
    NumberBeforeRendered(prefix, n, Hour, rest);
    LowerKeepsUnit(m, Hour, |prefix| + |Show(n)| + 2);
  }

  /**
   * When no digit precedes the first "minute" (no word at all: IndexError; a
   * word without digits: ValueError), the answer is the default, whatever the
   * rest of the message says: the second and hour branches are not tried.
   */
  lemma {:induction false} MinuteWithoutNumber(prefix: string, rest: string)
    requires forall i :: 0 <= i < |prefix| ==> !IsDigit(prefix[i])
    requires !Contains(prefix, Minute)
    ensures ExtractWaitTime(prefix + " " + Minute + rest) == DefaultWait
  {
    var x := prefix + " ";
    var m := prefix + " " + Minute + rest;
    assert m == x + Minute + rest;
    assert x == prefix + [' '] + [];
    NotContainedAcross(prefix, ' ', [], Minute);
    BeforeUnitAfterSpace(x, Minute, rest);
    assert m[|x|..|x| + |Minute|] == Minute;
    LowerKeepsUnit(m, Minute, |x|);
    WordsAroundSpace(prefix, ' ', []);
    UndigitedPrefixWaitsDefault(m, prefix);
  }

  /** When the words before the first "minute" are those of a digit-free text, the wait is 60. */
  lemma UndigitedPrefixWaitsDefault(message: string, prefix: string)
    requires Mentions(message, Minute) && Words(Before(message, Minute)) == Words(prefix)
    requires forall i :: 0 <= i < |prefix| ==> !IsDigit(prefix[i])
    ensures ExtractWaitTime(message) == DefaultWait
  {
    UndigitedWords(prefix);
    assert NumberBefore(message, Minute) == None;
    MinuteBranchDefault(message);
  }

  /** No word of a digit-free text holds a digit. */
  lemma UndigitedWords(prefix: string)
    requires forall i :: 0 <= i < |prefix| ==> !IsDigit(prefix[i])
    ensures var ws := Words(prefix); ws == [] || !HasDigit(ws[|ws| - 1])
  {
    var words := Words(prefix);
    if words != [] {
      var last := words[|words| - 1];
      forall k | 0 <= k < |last| ensures !IsDigit(last[k]) {
        WordsChars(prefix, |words| - 1, last[k]);
      }
    }
  }

  /**
   * The keyword is detected case-insensitively but split on case-sensitively:
   * a message ending in "<n> Minutes" scrapes the word "Minutes", finds no
   * digit and waits the default.
   */
  lemma {:induction false} CapitalisedMinutes(prefix: string, n: nat)
    requires !Contains(prefix, Minute)
    ensures ExtractWaitTime(Rendered(prefix, n, "Minutes", "")) == DefaultWait
  {
    var m := Rendered(prefix, n, "Minutes", "");
    assert m == prefix + " " + Show(n) + " " + "Minutes";
    CapitalisedUnitMentioned(prefix + " " + Show(n) + " ");
    CapitalisedUnitNotSplit(prefix, n);
    CapitalisedUnitIsWord();
    LastWordOfRendered(prefix, n, "Minutes");
    UndigitedWordWaitsDefault(m, "Minutes");
  }

  /** A mention of minutes whose last word before the first "minute" has no digit waits the default. */
  lemma UndigitedWordWaitsDefault(message: string, word: string)
    requires Digits(word) == [] && Mentions(message, Minute)
    requires var ws := Words(Before(message, Minute)); ws != [] && ws[|ws| - 1] == word
    ensures ExtractWaitTime(message) == DefaultWait
  {
    LastWordNumber(message, Minute, word);
    MinuteBranchDefault(message);
  }

  /** "Minutes" is one word and holds no digit. */
  lemma CapitalisedUnitIsWord()
    ensures NoSpace("Minutes") && Digits("Minutes") == []
  {
    var w := "Minutes";
    forall k | 0 <= k < |w| ensures !IsSpace(w[k]) && !IsDigit(w[k]) {
      assert 'A' <= w[k] <= 'z';
    }
  }

  /** No lower-case "minute" occurs in the message, so `split("minute")[0]` is all of it. */
  lemma CapitalisedUnitNotSplit(prefix: string, n: nat)
    requires !Contains(prefix, Minute)
    ensures Before(Rendered(prefix, n, "Minutes", ""), Minute) == Rendered(prefix, n, "Minutes", "")
  {
    var cap := "Minutes";
    var tail := Show(n) + [' '] + cap;
    assert Rendered(prefix, n, cap, "") == prefix + [' '] + tail;
    NotContainedWithoutHead(Show(n), Minute);
    NotContainedWithoutHead(cap, Minute);
    NotContainedAcross(Show(n), ' ', cap, Minute);
    NotContainedAcross(prefix, ' ', tail, Minute);
  }

  /** The last word of `prefix n word` is `word`. */
  lemma LastWordOfRendered(prefix: string, n: nat, word: string)
    requires word != [] && NoSpace(word)
    ensures var ws := Words(Rendered(prefix, n, word, "")); ws != [] && ws[|ws| - 1] == word
  {
    var tail := Show(n) + [' '] + word;
    assert Rendered(prefix, n, word, "") == prefix + [' '] + tail;
    WordsAroundSpace(Show(n), ' ', word);
    WordsOfToken(Show(n));
    WordsOfToken(word);
    WordsAroundSpace(prefix, ' ', tail);
  }

  /** "Minutes" at the end of a message is a mention of "minute" once lower-cased. */
  lemma CapitalisedUnitMentioned(x: string)
    ensures Mentions(x + "Minutes", Minute)
  {
    var m := x + "Minutes";
    var l := Lower(m);
    assert m[|x|..|x| + 6] == "Minute";
    forall k | 0 <= k < 6 ensures l[|x| + k] == Minute[k] {
      assert m[|x| + k] == "Minute"[k];
    }
    assert l[|x|..|x| + 6] == Minute;
    assert StartsAt(l, Minute, |x|);
  }

  /** "Take a break for 9 minutes" waits 540 seconds. */
  lemma TakeABreak()
    ensures ExtractWaitTime("Take a break for 9 minutes") == 540
  {
    NotContainedWithoutHead("Take a break for", Minute);
    MinutesRendered("Take a break for", 9, "s");
    RenderedNineMinutesBreak();
  }

  lemma RenderedNineMinutesBreak()
    ensures Rendered("Take a break for", 9, Minute, "s") == "Take a break for 9 minutes"
  {
    assert Show(9) == "9";
  }

  /** A message naming minutes and seconds is read by the minute branch alone. */
  lemma MinutesBeatSeconds()
    ensures ExtractWaitTime("Try again in 9 minutes and 30 seconds") == 540
  {
    var prefix, rest := "Try again in", "s and 30 seconds";
    NotContainedWithoutHead(prefix, Minute);
    MinutesRendered(prefix, 9, rest);
    RenderedNineMinutes();
  }

  lemma RenderedNineMinutes()
    ensures Rendered("Try again in", 9, Minute, "s and 30 seconds") == "Try again in 9 minutes and 30 seconds"
  {
    assert Show(9) == "9";
  }

  /** "Try again in 5 Minutes" waits the default 60 seconds, not 300. */
  lemma TryAgainInFiveMinutes()
    ensures ExtractWaitTime("Try again in 5 Minutes") == DefaultWait
  {
    NotContainedWithoutHead("Try again in", Minute);
    CapitalisedMinutes("Try again in", 5);
    RenderedFiveMinutes();
  }

  lemma RenderedFiveMinutes()
    ensures Rendered("Try again in", 5, "Minutes", "") == "Try again in 5 Minutes"
  {
    assert Show(5) == "5";
  }
}
