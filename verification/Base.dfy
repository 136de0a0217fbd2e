/** Values shared by every part of the model (internal/base/base.go). */
module Base {

  datatype Option<+T> = None | Some(value: T)

  /** Times are nanoseconds since the Unix epoch; `Sec` is Go's `Time.Unix`, which rounds down. */
  const SECOND: int := 1_000_000_000

  function Sec(t: int): int {
    t / SECOND
  }

  const LEASE_DURATION: int := 30 * SECOND

  datatype TaskState = Active | Pending | Scheduled | Retry | Archived | Completed

  datatype Payload = Nil | Bytes(data: seq<bv8>)

  datatype TaskMessage = TaskMessage(
    id: string,
    queue: string,
    typename: string,
    payload: Payload,
    retry: int,
    retried: int,
    errorMsg: string,
    lastFailedAt: int,
    timeout: int,
    deadline: int,
    uniqueKey: string,
    retention: int,
    completedAt: int)

  /** The two messages describe the same client task: only the attempt bookkeeping may differ. */
  predicate SameTask(a: TaskMessage, b: TaskMessage) {
    a == b.(retried := a.retried, errorMsg := a.errorMsg, lastFailedAt := a.lastFailedAt, completedAt := a.completedAt)
  }

  const DEFAULT_QUEUE := "default"

  /** The white space that strings.TrimSpace removes: the Unicode characters with that property. */
  predicate IsSpace(c: char) {
    || '\t' <= c <= '\r' || c in {' ', '\U{85}', '\U{A0}', '\U{1680}'} || '\U{2000}' <= c <= '\U{200A}'
    || c in {'\U{2028}', '\U{2029}', '\U{202F}', '\U{205F}', '\U{3000}'}
  }

  /** Their code points. */
  lemma WhiteSpace(c: char)
    ensures IsSpace(c) <==>
      (c as int) in {0x9, 0xA, 0xB, 0xC, 0xD, 0x20, 0x85, 0xA0, 0x1680, 0x2000, 0x2001, 0x2002, 0x2003, 0x2004, 0x2005,
                     0x2006, 0x2007, 0x2008, 0x2009, 0x200A, 0x2028, 0x2029, 0x202F, 0x205F, 0x3000}
  {
  }

  predicate Blank(s: string) {
    forall i | 0 <= i < |s| :: IsSpace(s[i])
  }
}
