/** The two configuration constants the transcript helpers read (config.py). */
module Config {
  /** Longest user message, in characters, that validation accepts. */
  const MAX_RESPONSE_LENGTH: nat := 2000

  /** Default number of messages kept by history truncation. The deployment may
      override it through the environment; this is the built-in default. */
  const MAX_CHAT_HISTORY: nat := 50
}
