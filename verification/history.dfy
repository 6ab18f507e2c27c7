/** Truncation of a transcript to its newest messages (utils.py, `truncate_chat_history`). */
module History {
  import opened Wrappers
  import opened Transcript
  import Config

  function Min(a: int, b: int): int {
    if a <= b then a else b
  }

  /** Python's `s[start:]` for any integer `start`: a negative start counts
      from the end, and both kinds are clamped to the sequence. */
  function SliceFrom<T>(s: seq<T>, start: int): (r: seq<T>)
    ensures 0 <= start ==> r == s[Min(start, |s|)..]
    ensures start < 0 ==> r == s[|s| - Min(-start, |s|)..]
  {
    var i := if start < 0 then (if start + |s| < 0 then 0 else start + |s|)
             else (if start > |s| then |s| else start);
    s[i..]
  }

  /** `r` is the last `|r|` messages of `h`, in their original order. */
  predicate IsSuffix(r: Transcript, h: Transcript) {
    |r| <= |h| && r == h[|h| - |r|..]
  }

  /** `truncate_chat_history(h, max_length)`: with no bound given, the
      configured default applies; a history longer than the bound becomes
      `h[-max_length:]`. A bound of 0 therefore keeps everything (`h[-0:]` is
      `h[0:]`), and a negative bound `-k` drops the first `k` messages. */
  function TruncateChatHistory(h: Transcript, maxLength: Option<int>): (r: Transcript)
    ensures IsSuffix(r, h)
    ensures var m := maxLength.GetOr(Config.MAX_CHAT_HISTORY);
      (1 <= m ==> |r| == Min(|h|, m)) &&
      (|h| <= m ==> r == h) &&
      (m == 0 ==> r == h) &&
      (m < 0 ==> |r| == |h| - Min(-m, |h|))
  {
    var m := maxLength.GetOr(Config.MAX_CHAT_HISTORY);
    if |h| > m then SliceFrom(h, -m) else h
  }

  /** Truncation to an explicit bound, as the slice it takes. This only
      unfolds the definition, for use in the proofs below. */
  lemma TruncateTo(h: Transcript, m: int)
    ensures TruncateChatHistory(h, Some(m)) == if |h| > m then SliceFrom(h, -m) else h
  {
  }

  /** Truncating to a non-negative bound twice is truncating once. (A
      negative bound drops messages from the front on every call.) */
  lemma TruncateIdempotent(h: Transcript, m: int)
    requires 0 <= m
    ensures TruncateChatHistory(TruncateChatHistory(h, Some(m)), Some(m)) == TruncateChatHistory(h, Some(m))
  {
  }

  /** Adding one message and truncating to a bound of at least 2 keeps the
      new message last, preceded by the newest `m - 1` earlier messages. (With
      a bound of 1 only the new message is kept, as the length clause of
      `TruncateChatHistory` says; the recurrence stops at 2 because a bound of
      0 would keep the whole earlier history.) */
  lemma TruncateAfterAppend(h: Transcript, x: Message, m: int)
    requires 2 <= m
    ensures TruncateChatHistory(h + [x], Some(m)) == TruncateChatHistory(h, Some(m - 1)) + [x]
  {
    TruncateTo(h + [x], m);
    TruncateTo(h, m - 1);
    if |h| + 1 > m {
      var k := |h| + 1 - m;
      assert (h + [x])[k..] == h[k..] + [x];
    }
  }
}
