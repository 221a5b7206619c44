/**
 * The chat message sanitiser (src/utils/api/sanitize.ts): a trimmed message is
 * rejected as empty, then as too long, then as a prompt-injection attempt, and is
 * otherwise safe. The injection patterns are given as predicates on the trimmed text.
 */
module Sanitize {
  import opened Options

  /** The longest message accepted, in characters (`MAX_MESSAGE_LENGTH`). */
  const MaxMessageLength: nat := 700

  /**
   * The characters `String.prototype.trim` removes: the ECMAScript white space
   * characters (tab, vertical tab, form feed, space, no-break space, byte order mark
   * and the other space separators) and line terminators.
   */
  predicate IsTrimmable(c: char) {
    c == '\U{0009}' || c == '\U{000B}' || c == '\U{000C}' || c == '\U{0020}' || c == '\U{00A0}'
    || c == '\U{FEFF}' || c == '\U{1680}' || ('\U{2000}' <= c <= '\U{200A}') || c == '\U{202F}'
    || c == '\U{205F}' || c == '\U{3000}'
    || c == '\U{000A}' || c == '\U{000D}' || c == '\U{2028}' || c == '\U{2029}'
  }

  /** `s` without its leading trimmable characters. */
  function TrimStart(s: string): (r: string)
    ensures |r| <= |s| && r == s[|s| - |r|..]
    ensures forall i :: 0 <= i < |s| - |r| ==> IsTrimmable(s[i])
    ensures |r| > 0 ==> !IsTrimmable(r[0])
  {
    if |s| > 0 && IsTrimmable(s[0]) then TrimStart(s[1..]) else s
  }

  /** `s` without its trailing trimmable characters. */
  function TrimEnd(s: string): (r: string)
    ensures |r| <= |s| && r == s[..|r|]
    ensures forall i :: |r| <= i < |s| ==> IsTrimmable(s[i])
    ensures |r| > 0 ==> !IsTrimmable(r[|r| - 1])
  {
    if |s| > 0 && IsTrimmable(s[|s| - 1]) then TrimEnd(s[..|s| - 1]) else s
  }

  /** `String.prototype.trim`. */
  function Trim(s: string): string {
    TrimEnd(TrimStart(s))
  }

  /**
   * Trimming keeps a contiguous middle part of `s`, drops only trimmable characters
   * around it, and leaves a result that neither starts nor ends with one.
   */
  lemma TrimIsMiddle(s: string)
    ensures exists i, j :: (0 <= i <= j <= |s| && Trim(s) == s[i..j]
      && (forall k :: 0 <= k < i ==> IsTrimmable(s[k]))
      && (forall k :: j <= k < |s| ==> IsTrimmable(s[k])))
    ensures |Trim(s)| > 0 ==> !IsTrimmable(Trim(s)[0]) && !IsTrimmable(Trim(s)[|Trim(s)| - 1])
  {
    var front := TrimStart(s);
    var i := |s| - |front|;
    var back := TrimEnd(front);
    var j := i + |back|;
    assert front == s[i..];
    assert Trim(s) == back == front[..|back|] == s[i..j];
    forall k | j <= k < |s|
      ensures IsTrimmable(s[k])
    {
      assert s[k] == front[k - i];
    }
    if |back| > 0 {
      assert back[0] == front[0];
    }
    assert 0 <= i <= j <= |s|;
  }

  /** A string that neither starts nor ends with a trimmable character is its own trim. */
  lemma TrimOfTrimmed(s: string)
    requires |s| > 0 ==> !IsTrimmable(s[0]) && !IsTrimmable(s[|s| - 1])
    ensures Trim(s) == s
  {
  }

  /** Trimming twice is trimming once. */
  lemma TrimIdempotent(s: string)
    ensures Trim(Trim(s)) == Trim(s)
  {
    TrimIsMiddle(s);
    TrimOfTrimmed(Trim(s));
  }

  /** Why a message was refused. */
  datatype Reason = Injection | TooLong | Empty

  /** `ISanitizeResult`: whether the message may be sent, its trimmed text, and the reason when it may not. */
  datatype SanitizeResult = SanitizeResult(safe: bool, sanitizedText: string, reason: Option<Reason>)

  /** Whether some pattern from index `i` on matches `s` (the `for` loop with its early return). */
  function AnyPatternFrom(patterns: seq<string -> bool>, s: string, i: nat): (found: bool)
    requires i <= |patterns|
    ensures found <==> exists k :: i <= k < |patterns| && patterns[k](s)
    decreases |patterns| - i
  {
    if i == |patterns| then false
    else if patterns[i](s) then true
    else AnyPatternFrom(patterns, s, i + 1)
  }

  /** `sanitizeUserMessage`, with the injection patterns as predicates. */
  function SanitizeUserMessage(text: string, patterns: seq<string -> bool>): (r: SanitizeResult)
    ensures r.sanitizedText == Trim(text)
    ensures r.safe <==> 0 < |Trim(text)| <= MaxMessageLength && forall k :: 0 <= k < |patterns| ==> !patterns[k](Trim(text))
    ensures r.reason.Some? <==> !r.safe
    ensures r.reason == Some(Empty) <==> |Trim(text)| == 0
    ensures r.reason == Some(TooLong) <==> |Trim(text)| > MaxMessageLength
    ensures r.reason == Some(Injection) <==>
      0 < |Trim(text)| <= MaxMessageLength && exists k :: 0 <= k < |patterns| && patterns[k](Trim(text))
  {
    var trimmed := Trim(text);
    if |trimmed| == 0 then SanitizeResult(false, "", Some(Empty))
    else if |trimmed| > MaxMessageLength then SanitizeResult(false, trimmed, Some(TooLong))
    else if AnyPatternFrom(patterns, trimmed, 0) then SanitizeResult(false, trimmed, Some(Injection))
    else SanitizeResult(true, trimmed, None)
  }

  /** Sanitising the sanitised text again gives the same result. */
  lemma SanitizeIdempotent(text: string, patterns: seq<string -> bool>)
    ensures SanitizeUserMessage(SanitizeUserMessage(text, patterns).sanitizedText, patterns) == SanitizeUserMessage(text, patterns)
  {
    TrimIdempotent(text);
  }

  /** Length exactly 700 is within the limit: such a message is refused only for injection. */
  lemma LengthLimitIsInclusive(text: string, patterns: seq<string -> bool>)
    requires |Trim(text)| == MaxMessageLength
    ensures SanitizeUserMessage(text, patterns).reason != Some(TooLong)
    ensures SanitizeUserMessage(text, patterns).reason != Some(Empty)
  {
  }

  /** A message that is too long is refused as such whatever the patterns say: length is checked first. */
  lemma LengthCheckedBeforePatterns(text: string, p1: seq<string -> bool>, p2: seq<string -> bool>)
    requires |Trim(text)| > MaxMessageLength
    ensures SanitizeUserMessage(text, p1) == SanitizeUserMessage(text, p2)
  {
  }
}
