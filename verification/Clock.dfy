/** Integer nanosecond times and their written form (RFC 3339, section 5.6), which is cut to
    whole seconds. */
module Clock {
  import opened Wrappers

  const NANOS: int := 1_000_000_000

  datatype TimeText = NoTime | WholeSeconds(seconds: int) | BadTime(text: string)

  function Rfc3339(at: int): TimeText { WholeSeconds(at / NANOS) }

  function Parse(t: TimeText): Option<int> {
    if t.WholeSeconds? then Some(t.seconds * NANOS) else None
  }

  predicate Expired(t: TimeText, now: int)
    requires Parse(t).Some?
  {
    now > Parse(t).value
  }
}
