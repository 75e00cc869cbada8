/** The monotonic clock and the row, byte and time budget of a full-history snapshot. */
module Budget {
  import opened Bytes
  import opened Wrappers
  import Utf8

  /** `time.monotonic()`: arbitrary readings that never decrease. */
  class Clock {
    var now: real

    method Read() returns (t: real)
      modifies this
      ensures t == now && now >= old(now)
    {
      var elapsed: real :| elapsed >= 0.0;
      now := now + elapsed;
      t := now;
    }
  }

  datatype Limits = Limits(maxRows: nat, maxBytes: nat, maxRowBytes: nat, maxSeconds: real)

  class Budget {
    const limits: Limits
    const clock: Clock
    const start: real
    var rows: nat
    var bytes: nat

    constructor (limits: Limits, clock: Clock)
      modifies clock
      ensures this.limits == limits && this.clock == clock && start == clock.now >= old(clock.now)
      ensures rows == 0 && bytes == 0
    {
      var t := clock.Read();
      this.limits, this.clock, start := limits, clock, t;
      rows, bytes := 0, 0;
    }

    predicate Late()
      reads clock
    {
      clock.now - start > limits.maxSeconds
    }

    /** Charges one row; the charge stays even when the row is refused. */
    method Add(text: seq<Utf8.Scalar>) returns (raw: Option<seq<Byte>>)
      modifies this, clock
      ensures clock.now >= old(clock.now)
      ensures rows == old(rows) + 1 && bytes == old(bytes) + |Utf8.Encode(text)|
      ensures raw.Some? ==> raw.value == Utf8.Encode(text) && !Late()
      ensures raw.Some? ==> Affordable(limits, old(rows), old(bytes), |Utf8.Encode(text)|)
      ensures raw.None? ==> Late() || !Affordable(limits, old(rows), old(bytes), |Utf8.Encode(text)|)
    {
      var encoded := Utf8.Encode(text);
      rows := rows + 1;
      bytes := bytes + |encoded|;
      var t := clock.Read();
      if rows > limits.maxRows || bytes > limits.maxBytes || |encoded| > limits.maxRowBytes
         || t - start > limits.maxSeconds {
        return None;
      }
      return Some(encoded);
    }
  }

  /** Whether a row of `size` bytes fits when `rows` rows and `bytes` bytes were charged before. */
  predicate Affordable(limits: Limits, rows: nat, bytes: nat, size: nat) {
    rows + 1 <= limits.maxRows && bytes + size <= limits.maxBytes && size <= limits.maxRowBytes
  }
}
