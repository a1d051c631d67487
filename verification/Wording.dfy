/**
 The fixed texts a session writes into its messages. Their wording is left open: everything
 proved about sessions holds for any wording.
 */
module Wording {
  /** Stands in for a lost tool result (src/llm.rs:244). */
  const SYNTHETIC_TOOL_RESULT: string
  /** Result of a cancelled call (src/agent.rs:843). */
  const CANCELLED: string
  /** Around the number of folded messages in the L3 note (src/agent.rs:1665). */
  const FOLD_HEAD: string
  const FOLD_TAIL: string
  /** Replaces a blank summary (src/agent.rs:1659). */
  const EMPTY_SUMMARY: string
  /** The image message: head, between name and count, and the two endings (src/agent.rs:731). */
  const IMAGE_HEAD: string
  const IMAGE_MIDDLE: string
  const IMAGE_ONE: string
  const IMAGE_MANY: string
  /** Around the limit in the mark of a truncated result (src/agent.rs:1748). */
  const TRUNCATED_HEAD: string
  const TRUNCATED_TAIL: string
  /** Around the label of an injected text (src/agent.rs:1212). */
  const INJECTED_HEAD: string
  const INJECTED_MIDDLE: string
}
