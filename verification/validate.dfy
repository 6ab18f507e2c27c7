/** Validation of a user message before it is sent (utils.py, `validate_message`). */
module Validate {
  import PyStr
  import Config

  /** `validate_message`: the checks in the source's order. An empty message,
      one that is blank once stripped, one whose stripped text is shorter than
      two characters, and one longer than the response limit are refused. */
  function ValidateMessage(message: string): (ok: bool)
    ensures ok <==> 2 <= |PyStr.Strip(message)| && |message| <= Config.MAX_RESPONSE_LENGTH
  {
    if message == [] || PyStr.Strip(message) == [] then false
    else if |PyStr.Strip(message)| < 2 then false
    else if |message| > Config.MAX_RESPONSE_LENGTH then false
    else true
  }

  /** The message holds non-whitespace characters at two different positions. */
  predicate HasTwoVisibleChars(message: string) {
    exists i, j :: 0 <= i < j < |message| && !PyStr.IsSpace(message[i]) && !PyStr.IsSpace(message[j])
  }

  /** Stripping leaves at least two characters exactly when the message has two
      non-whitespace characters somewhere. */
  lemma StripKeepsTwoIff(message: string)
    ensures 2 <= |PyStr.Strip(message)| <==> HasTwoVisibleChars(message)
  {
    var r := PyStr.Strip(message);
    var a :| PyStr.StrippedAt(message, a, r);
    if 2 <= |r| {
      assert message[a] == r[0] && message[a + |r| - 1] == r[|r| - 1];
    }
    if HasTwoVisibleChars(message) {
      var i, j :| 0 <= i < j < |message| && !PyStr.IsSpace(message[i]) && !PyStr.IsSpace(message[j]);
      assert a <= i && j < a + |r|;
    }
  }

  /** A message is accepted exactly when it has two non-whitespace characters
      and is no longer than the limit, stated without reference to stripping. */
  lemma ValidateMessageIff(message: string)
    ensures ValidateMessage(message) <==>
      HasTwoVisibleChars(message) && |message| <= Config.MAX_RESPONSE_LENGTH
  {
    StripKeepsTwoIff(message);
  }

  /** Empty, all-whitespace and one-visible-character messages are refused,
      whatever their length. */
  lemma ShortMessagesRejected(message: string)
    requires forall i, j :: 0 <= i < j < |message| ==> PyStr.IsSpace(message[i]) || PyStr.IsSpace(message[j])
    ensures !ValidateMessage(message)
  {
    StripKeepsTwoIff(message);
  }

  /** A message longer than the limit is refused whatever it holds. */
  lemma LongMessagesRejected(message: string)
    requires |message| > Config.MAX_RESPONSE_LENGTH
    ensures !ValidateMessage(message)
  {
  }

  /** The sample inputs: "", " " and "a" are refused, "hello" is accepted. */
  lemma ValidateExamples()
    ensures !ValidateMessage("") && !ValidateMessage(" ") && !ValidateMessage("a")
    ensures ValidateMessage("hello")
  {
    ValidateMessageIff("hello");
    assert !PyStr.IsSpace("hello"[0]) && !PyStr.IsSpace("hello"[1]);
  }
}
