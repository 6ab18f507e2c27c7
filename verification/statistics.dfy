/** Transcript statistics (utils.py, `get_chat_statistics`). */
module Statistics {
  import opened Transcript
  import PyStr

  /** The statistics record the helper returns. */
  datatype Stats = Stats(
    totalMessages: nat,
    userMessages: nat,
    assistantMessages: nat,
    avgMessageLength: nat,
    sessionDuration: string)

  /** `[msg for msg in h if msg["role"] == role]`. */
  function WithRole(h: Transcript, role: string): (r: Transcript)
    ensures |r| <= |h|
    ensures forall i :: 0 <= i < |r| ==> r[i].role == role
  {
    if h == [] then []
    else (if h[0].role == role then [h[0]] else []) + WithRole(h[1..], role)
  }

  /** The filter keeps exactly the messages of `h` that have the role. */
  lemma {:induction false} WithRoleKeepsExactly(h: Transcript, role: string)
    ensures forall i :: 0 <= i < |WithRole(h, role)| ==> WithRole(h, role)[i] in h
    ensures forall i :: 0 <= i < |h| && h[i].role == role ==> h[i] in WithRole(h, role)
  {
    if h != [] {
      WithRoleKeepsExactly(h[1..], role);
      var r, rest := WithRole(h, role), WithRole(h[1..], role);
      assert r == (if h[0].role == role then [h[0]] else []) + rest;
      forall i | 0 <= i < |r| ensures r[i] in h {
        if h[0].role != role || i > 0 {
          var j := if h[0].role == role then i - 1 else i;
          assert r[i] == rest[j] && rest[j] in h[1..];
        }
      }
      forall i | 0 <= i < |h| && h[i].role == role ensures h[i] in r {
        if i > 0 {
          assert h[i] == h[1..][i - 1] && h[i] in rest;
        }
      }
    }
  }

  /** `sum(len(msg["content"]) for msg in h)`. */
  function TotalChars(h: Transcript): (total: nat)
    ensures |h| == 1 ==> total == |h[0].content|
    ensures h != [] ==> |h[0].content| <= total
  {
    if h == [] then 0 else |h[0].content| + TotalChars(h[1..])
  }

  /** `avg` is the mean of `n` lengths that sum to `total`, rounded down. */
  predicate IsFloorMean(avg: nat, total: nat, n: nat) {
    avg * n <= total < (avg + 1) * n
  }

  /** Integer division of `total` by `n` is the mean rounded down. */
  lemma DivisionBounds(total: nat, n: nat)
    requires n > 0
    ensures IsFloorMean(total / n, total, n)
  {
    var q, r := total / n, total % n;
    assert total == q * n + r && r < n;
    assert (q + 1) * n == q * n + n;
  }

  /** What follows the minute count in a non-empty history's duration. */
  const ESTIMATE_SUFFIX: string := " minutes (estimated)"

  /** The duration shown for a non-empty history of `n` messages: the
      decimal digits of `2 * n`, with no leading zero, then the suffix. */
  function EstimatedDuration(n: nat): (d: string)
    ensures |d| > |ESTIMATE_SUFFIX| && d[|d| - |ESTIMATE_SUFFIX|..] == ESTIMATE_SUFFIX
    ensures forall i :: 0 <= i < |d| - |ESTIMATE_SUFFIX| ==> PyStr.IsDigit(d[i])
    ensures PyStr.DecimalValue(d[..|d| - |ESTIMATE_SUFFIX|]) == 2 * n
    ensures d[0] == '0' ==> n == 0
  {
    var digits := PyStr.NatToString(2 * n);
    PyStr.NatToStringRoundTrip(2 * n);
    assert (digits + ESTIMATE_SUFFIX)[..|digits|] == digits;
    digits + ESTIMATE_SUFFIX
  }

  /** No single message is longer than the total of all of them. */
  lemma {:induction false} ContentAtMostTotal(h: Transcript, i: nat)
    requires i < |h|
    ensures |h[i].content| <= TotalChars(h)
  {
    if i > 0 {
      ContentAtMostTotal(h[1..], i - 1);
    }
  }

  /** The result for an empty history. */
  const EMPTY_STATS: Stats := Stats(0, 0, 0, 0, "0 minutes")

  /** `get_chat_statistics`: message counts, the integer mean content length,
      and a duration estimate of two minutes per message. */
  function GetChatStatistics(h: Transcript): (s: Stats)
    ensures s.totalMessages == |h|
    ensures s.userMessages == |WithRole(h, USER)|
    ensures s.assistantMessages == |WithRole(h, ASSISTANT)|
    ensures h == [] ==> s == EMPTY_STATS
    ensures h != [] ==> IsFloorMean(s.avgMessageLength, TotalChars(h), |h|)
    ensures h != [] ==> s.sessionDuration == EstimatedDuration(|h|)
  {
    if h == [] then EMPTY_STATS
    else
      var total, n := TotalChars(h), |h|;
      DivisionBounds(total, n);
      Stats(n, |WithRole(h, USER)|, |WithRole(h, ASSISTANT)|, total / n,
            EstimatedDuration(n))
  }

  /** Messages with role `a` and messages with a different role `b` are
      disjoint, so together they are no more than the whole history. */
  lemma {:induction false} RoleCountsBounded(h: Transcript, a: string, b: string)
    requires a != b
    ensures |WithRole(h, a)| + |WithRole(h, b)| <= |h|
  {
    if h != [] {
      RoleCountsBounded(h[1..], a, b);
    }
  }

  /** When every role is "user" or "assistant" the two counts add up to the total. */
  lemma {:induction false} RoleCountsExhaustive(h: Transcript)
    requires forall i :: 0 <= i < |h| ==> h[i].role == USER || h[i].role == ASSISTANT
    ensures |WithRole(h, USER)| + |WithRole(h, ASSISTANT)| == |h|
  {
    if h != [] {
      RoleCountsExhaustive(h[1..]);
    }
  }

  /** The user and assistant counts never exceed the total. */
  lemma StatisticsCountsBounded(h: Transcript)
    ensures var s := GetChatStatistics(h);
      s.userMessages + s.assistantMessages <= s.totalMessages
  {
    RoleCountsBounded(h, USER, ASSISTANT);
  }

  /** Role counts add over concatenation. */
  lemma {:induction false} WithRoleAppend(h: Transcript, k: Transcript, role: string)
    ensures WithRole(h + k, role) == WithRole(h, role) + WithRole(k, role)
  {
    if h == [] {
      assert h + k == k;
    } else {
      assert (h + k)[1..] == h[1..] + k;
      WithRoleAppend(h[1..], k, role);
    }
  }

  /** No message is longer than `bound` characters. */
  predicate ContentsAtMost(h: Transcript, bound: nat) {
    forall i :: 0 <= i < |h| ==> |h[i].content| <= bound
  }

  /** The total length is at most the message count times the longest content. */
  lemma {:induction false} TotalCharsBounded(h: Transcript, bound: nat)
    requires ContentsAtMost(h, bound)
    ensures TotalChars(h) <= |h| * bound
  {
    if h != [] {
      TotalCharsBounded(h[1..], bound);
    }
  }

  /** Multiplying by the same factor keeps the order. */
  lemma MulMonotone(a: nat, b: nat, n: nat)
    requires a <= b
    ensures a * n <= b * n
  {
    assert b * n == a * n + (b - a) * n;
  }

  /** The average length never exceeds the longest message. */
  lemma AverageAtMostLongest(h: Transcript, bound: nat)
    requires ContentsAtMost(h, bound)
    ensures GetChatStatistics(h).avgMessageLength <= bound
  {
    TotalCharsBounded(h, bound);
    if h != [] {
      var avg := GetChatStatistics(h).avgMessageLength;
      assert avg * |h| <= TotalChars(h);
      if avg > bound {
        MulMonotone(bound + 1, avg, |h|);
      }
    }
  }

  /** The duration of a non-empty history is a decimal minute count, which
      reads back as two minutes per message, followed by the estimate suffix. */
  lemma DurationIsTwoMinutesPerMessage(h: Transcript)
    requires h != []
    ensures var d := GetChatStatistics(h).sessionDuration;
      |d| > |ESTIMATE_SUFFIX| && d[|d| - |ESTIMATE_SUFFIX|..] == ESTIMATE_SUFFIX &&
      (forall i :: 0 <= i < |d| - |ESTIMATE_SUFFIX| ==> PyStr.IsDigit(d[i])) &&
      PyStr.DecimalValue(d[..|d| - |ESTIMATE_SUFFIX|]) == 2 * |h| &&
      d[0] != '0'
  {
  }

  /** The sample session: one user turn and one assistant reply. */
  lemma TwoMessageSession(question: string, reply: string)
    ensures var s := GetChatStatistics([Message(USER, question), Message(ASSISTANT, reply)]);
      s.totalMessages == 2 && s.userMessages == 1 && s.assistantMessages == 1 &&
      s.sessionDuration == "4" + ESTIMATE_SUFFIX
  {
    var h := [Message(USER, question), Message(ASSISTANT, reply)];
    assert WithRole(h, USER) == [h[0]];
    assert WithRole(h, ASSISTANT) == [h[1]];
  }
}
