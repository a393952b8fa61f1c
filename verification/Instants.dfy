/** Time stamps and leases (channel_store.py): time is a count of microseconds. */
module Instants {
  import opened Prelude

  const SECOND := 1_000_000

  /** A stored ISO text: empty, not a date, or a date. `form` tells apart texts that denote the same
    * instant (another offset, say); 0 is the form the program itself writes. */
  datatype Stamp = Blank | Bad(text: string) | Moment(at: int, form: nat)

  /** `_parse_iso_datetime`. */
  function Parse(s: Stamp): Option<int> {
    if s.Moment? then Some(s.at) else None
  }

  /** An instant cut to whole seconds, as isoformat(timespec="seconds") writes it. */
  function Cut(t: int): int {
    t - t % SECOND
  }

  function Written(t: int): Stamp {
    Moment(Cut(t), 0)
  }

  /** `_lease_expired`: a lease that cannot be read counts as expired. */
  predicate Expired(lease: Stamp, now: int) {
    !lease.Moment? || lease.at <= now
  }

  /** `_lease_iso`. */
  function Lease(now: int, seconds: int): Stamp {
    Written(now + (if seconds > 1 then seconds else 1) * SECOND)
  }

  /** The stamp is the whole second of that instant, in the form the program writes. */
  predicate At(stamp: Stamp, now: int) {
    stamp.Moment? && stamp.form == 0 && stamp.at % SECOND == 0 && stamp.at <= now < stamp.at + SECOND
  }

  /** A stamp that the program writes denotes the whole second it was written in. */
  lemma WrittenSecond(t: int)
    ensures At(Written(t), t)
  {
    assert t == t / SECOND * SECOND + t % SECOND;
  }

  /** A granted lease is live at the moment it is granted, and ends at a whole second, later than s - 1 and at
    * most s seconds after that, where s is at least one second. */
  lemma LeaseLasts(now: int, seconds: int, later: int)
    ensures
      var s := if seconds > 1 then seconds else 1;
      var lease := Lease(now, seconds);
      && lease.Moment? && lease.form == 0 && lease.at % SECOND == 0
      && now + (s - 1) * SECOND < lease.at <= now + s * SECOND
      && !Expired(lease, now)
      && (Expired(lease, later) <==> later >= lease.at)
      && (later <= now + (s - 1) * SECOND ==> !Expired(lease, later))
      && (later >= now + s * SECOND ==> Expired(lease, later))
  {
    var s := if seconds > 1 then seconds else 1;
    WrittenSecond(now + s * SECOND);
    assert s * SECOND == (s - 1) * SECOND + SECOND;
    assert (s - 1) * SECOND >= 0;
  }

  /** The stamp is a lease of that many seconds, one at least, granted at that instant: live until a second
    * before they are over, and expired when they are. */
  ghost predicate LeaseOf(stamp: Stamp, now: int, seconds: int) {
    var s := if seconds > 1 then seconds else 1;
    forall t :: (t <= now + (s - 1) * SECOND ==> !Expired(stamp, t)) && (t >= now + s * SECOND ==> Expired(stamp, t))
  }

  lemma LeaseIsOf(now: int, seconds: int)
    ensures LeaseOf(Lease(now, seconds), now, seconds)
  {
    forall t
      ensures
        var s := if seconds > 1 then seconds else 1;
        && (t <= now + (s - 1) * SECOND ==> !Expired(Lease(now, seconds), t))
        && (t >= now + s * SECOND ==> Expired(Lease(now, seconds), t))
    {
      LeaseLasts(now, seconds, t);
    }
  }

  /** `_job_order_value` of two stamps; the clock stands in when neither can be read. */
  function OrderValue(first: Stamp, second: Stamp, clock: int): int {
    if first.Moment? then first.at else if second.Moment? then second.at else clock
  }
}
