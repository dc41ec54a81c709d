/**
  The token accounting of pages/3_FaithGPT.py: a character-based estimate of
  the tokens of a text, the check of a code's running total against its
  limit, and the warning shown before sending when the estimated reply could
  cross the limit.
*/
module FaithTokens {

  /** A precomposed Hangul syllable, U+AC00 to U+D7A3. */
  predicate IsHangul(c: char) {
    0xAC00 <= c as int <= 0xD7A3
  }

  /** The number of Hangul syllables in the text. */
  function HangulCount(text: string): (k: nat)
    ensures k <= |text|
  {
    if text == [] then 0
    else HangulCount(text[..|text| - 1]) + (if IsHangul(text[|text| - 1]) then 1 else 0)
  }

  lemma {:induction false} HangulCountAppend(a: string, b: string)
    ensures HangulCount(a + b) == HangulCount(a) + HangulCount(b)
    decreases |b|
  {
    if b == [] {
      assert a + b == a;
    } else {
      assert (a + b)[..|a + b| - 1] == a + b[..|b| - 1];
      HangulCountAppend(a, b[..|b| - 1]);
    }
  }

  /**
    count_tokens: one token per Hangul syllable plus one per three other
    characters, but never fewer than a quarter of the length.
  */
  function CountTokens(text: string): (tokens: int)
    ensures |text| / 4 <= tokens <= |text|
    ensures HangulCount(text) <= tokens
  {
    var k := HangulCount(text);
    var estimated := k + (|text| - k) / 3;
    var floor := |text| / 4;
    if estimated >= floor then estimated else floor
  }

  /** The floor of a quarter of the length never decides: the estimate alone is the count. */
  lemma CountTokensIsEstimate(text: string)
    ensures var k := HangulCount(text); CountTokens(text) == k + (|text| - k) / 3
  {
    var k, n := HangulCount(text), |text|;
    assert (n - k) / 3 * 3 > n - k - 3;
    assert 4 * (k + (n - k) / 3) >= n - 3;
  }

  lemma {:induction false} HangulCountAll(text: string)
    requires forall i :: 0 <= i < |text| ==> IsHangul(text[i])
    ensures HangulCount(text) == |text|
    decreases |text|
  {
    if text != [] {
      HangulCountAll(text[..|text| - 1]);
    }
  }

  lemma {:induction false} HangulCountNone(text: string)
    requires forall i :: 0 <= i < |text| ==> !IsHangul(text[i])
    ensures HangulCount(text) == 0
    decreases |text|
  {
    if text != [] {
      HangulCountNone(text[..|text| - 1]);
    }
  }

  /** The empty text has no tokens. */
  lemma CountTokensEmpty()
    ensures CountTokens("") == 0
  {
  }

  /** A text of Hangul only costs one token per character. */
  lemma CountTokensAllHangul(text: string)
    requires forall i :: 0 <= i < |text| ==> IsHangul(text[i])
    ensures CountTokens(text) == |text|
  {
    HangulCountAll(text);
  }

  /** A text without Hangul costs a third of its length, rounded down. */
  lemma CountTokensNoHangul(text: string)
    requires forall i :: 0 <= i < |text| ==> !IsHangul(text[i])
    ensures CountTokens(text) == |text| / 3
  {
    HangulCountNone(text);
  }

  /** Extending a text never lowers its estimate. */
  lemma CountTokensGrows(a: string, b: string)
    ensures CountTokens(a) <= CountTokens(a + b)
  {
    HangulCountAppend(a, b);
    var ka, kb := HangulCount(a), HangulCount(b);
    assert (|a| - ka) / 3 <= (|a| - ka + |b| - kb) / 3;
  }

  /** get_user_token_limit: the code's limit from the configured codes, 0 for an unknown code. */
  function TokenLimit(codes: map<string, int>, code: string): (limit: int)
    ensures code !in codes ==> limit == 0
  {
    if code in codes then codes[code] else 0
  }

  /** The outcome of check_token_usage; the displayed message is built from these fields. */
  datatype Usage = Unlimited | OverLimit(current: int, limit: int) | Within(current: int, limit: int)

  predicate Allowed(u: Usage) {
    !u.OverLimit?
  }

  /** check_token_usage: a limit of -1 is unlimited, otherwise use stops at the limit. */
  function CheckTokenUsage(codes: map<string, int>, code: string, current: int): (u: Usage)
    ensures Allowed(u) <==> TokenLimit(codes, code) == -1 || current < TokenLimit(codes, code)
    ensures u.Unlimited? <==> TokenLimit(codes, code) == -1
  {
    var limit := TokenLimit(codes, code);
    if limit == -1 then Unlimited
    else if current >= limit then OverLimit(current, limit)
    else Within(current, limit)
  }

  /** An unknown code refuses every non-negative total. */
  lemma UnknownCodeRefused(codes: map<string, int>, code: string, current: int)
    requires code !in codes && current >= 0
    ensures !Allowed(CheckTokenUsage(codes, code, current))
  {
  }

  /** Once refused, a code stays refused while its total grows. */
  lemma RefusalPersists(codes: map<string, int>, code: string, current: int, later: int)
    requires !Allowed(CheckTokenUsage(codes, code, current)) && current <= later
    ensures !Allowed(CheckTokenUsage(codes, code, later))
  {
  }

  /** The reply expected for an input: twice its tokens, at most 2000. */
  function EstimatedResponse(inputTokens: int): (r: int)
    ensures r <= 2000 && r <= 2 * inputTokens
    ensures r == 2000 || r == 2 * inputTokens
  {
    if inputTokens * 2 < 2000 then inputTokens * 2 else 2000
  }

  /**
    The pre-send warning: a limited code whose total, input and expected reply
    exceed the limit. Up to 1000 input tokens the reply counts twice the
    input; beyond that it counts 2000.
  */
  function WarnBeforeSend(limit: int, total: int, inputTokens: int): (warn: bool)
    ensures limit == -1 ==> !warn
    ensures limit != -1 && inputTokens <= 1000 ==> (warn <==> total + 3 * inputTokens > limit)
    ensures limit != -1 && inputTokens >= 1000 ==> (warn <==> total + inputTokens + 2000 > limit)
  {
    limit != -1 && total + inputTokens + EstimatedResponse(inputTokens) > limit
  }

  /** The whitespace Python's str.strip() removes, as str.isspace() defines it. */
  predicate IsSpace(c: char) {
    c == ' ' || '\t' <= c <= '\r' || '\U{1C}' <= c <= '\U{1F}' || c == '\U{85}' || c == '\U{A0}' ||
    c == '\U{1680}' || '\U{2000}' <= c <= '\U{200A}' || c == '\U{2028}' || c == '\U{2029}' ||
    c == '\U{202F}' || c == '\U{205F}' || c == '\U{3000}'
  }

  /** A message that strip() leaves empty: the page does nothing with it. */
  predicate Blank(text: string) {
    forall i :: 0 <= i < |text| ==> IsSpace(text[i])
  }

  /** What happens to a message before it is sent. */
  datatype Gate = Ignored | Refused | Warned | Clear

  /**
    The checks before a message is sent: a blank message is ignored, a refused
    total stops the message, a possible overrun asks for confirmation, and
    otherwise the input is counted.
  */
  function PreSend(codes: map<string, int>, code: string, total: int, text: string): (gate: Gate)
    ensures gate == Ignored <==> Blank(text)
    ensures var limit := TokenLimit(codes, code);
            gate == Refused <==> !Blank(text) && limit != -1 && total >= limit
    ensures var limit, n := TokenLimit(codes, code), CountTokens(text);
            gate == Warned ==> limit != -1 && total < limit && total + n + EstimatedResponse(n) > limit
    ensures var limit, n := TokenLimit(codes, code), CountTokens(text);
            gate == Clear ==> limit == -1 || total + n + EstimatedResponse(n) <= limit
  {
    var limit := TokenLimit(codes, code);
    if Blank(text) then Ignored
    else if !Allowed(CheckTokenUsage(codes, code, total)) then Refused
    else if WarnBeforeSend(limit, total, CountTokens(text)) then Warned
    else Clear
  }

  /**
    A message that goes through without a warning leaves the total, with its
    input counted, strictly below the limit: a usage check at that point
    allows use. The reply's tokens, added to the total afterwards, are not
    included here.
  */
  lemma ClearKeepsNextAllowed(codes: map<string, int>, code: string, total: int, text: string)
    requires PreSend(codes, code, total, text) == Clear
    ensures Allowed(CheckTokenUsage(codes, code, total + CountTokens(text)))
  {
  }

  /**
    Without a warning, a reply no longer than the estimate keeps the total,
    input and reply counted, within the limit; it may reach the limit
    exactly.
  */
  lemma ClearReplyWithinLimit(codes: map<string, int>, code: string, total: int, text: string, reply: int)
    requires PreSend(codes, code, total, text) == Clear && TokenLimit(codes, code) != -1
    requires reply <= EstimatedResponse(CountTokens(text))
    ensures total + CountTokens(text) + reply <= TokenLimit(codes, code)
  {
  }

  /**
    Reaching the limit exactly refuses the next message: with a limit of 3,
    "abc" (one token, two expected in reply) is sent without a warning, and a
    two-token reply brings the total to 3, which the next check refuses.
  */
  lemma ClearReplyCanReachLimit()
    ensures PreSend(map["c" := 3], "c", 0, "abc") == Clear
    ensures CountTokens("abc") == 1 && EstimatedResponse(1) == 2
    ensures !Allowed(CheckTokenUsage(map["c" := 3], "c", 0 + 1 + 2))
  {
    assert !IsSpace("abc"[0]);
    CountTokensNoHangul("abc");
  }

  /** An unlimited code is never warned nor refused; only a blank message is ignored. */
  lemma UnlimitedAlwaysClear(codes: map<string, int>, code: string, total: int, text: string)
    requires TokenLimit(codes, code) == -1
    ensures PreSend(codes, code, total, text) == if Blank(text) then Ignored else Clear
  {
  }
}
