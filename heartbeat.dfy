/**
 * The sample-count pacer of putv (heartbeat_samples.c): it turns the number of
 * samples rendered since the last beat into an absolute wall-clock deadline,
 * sleeps until that deadline, and resynchronises when the caller is late.
 * Clock readings are parameters; the clock calls themselves are outside the model.
 */
module Heartbeat {
  import opened Wrappers

  const NanosPerSec: int := 1000000000
  const NanosPerMsec: int := 1000000
  /** The lateness above which the pacer reports a late beat (10 ms). */
  const LateThreshold: int := 10000000

  /** The sample formats heartbeat_init distinguishes; OtherFormat is every other value. */
  datatype Format =
    | Pcm16LeMono
    | Pcm16LeStereo
    | Pcm24b3LeStereo
    | Pcm24b4LeStereo
    | Pcm32LeStereo
    | Pcm32BeStereo
    | OtherFormat

  /** struct timespec. */
  datatype Timespec = Timespec(sec: int, nsec: int)

  /** The instant a timespec denotes, in nanoseconds. */
  function Nanos(t: Timespec): int
  {
    t.sec * NanosPerSec + t.nsec
  }

  /** A timespec as the clock returns it and as clock_nanosleep accepts it. */
  predicate Normalized(t: Timespec)
  {
    0 <= t.nsec < NanosPerSec
  }

  /** The bytes-per-sample table of heartbeat_init: 2 for every listed PCM format, 4 otherwise. */
  function SampleSize(f: Format): (size: nat)
    ensures size == 2 || size == 4
    ensures size == 4 <==> f == OtherFormat
  {
    match f
    case Pcm16LeMono | Pcm16LeStereo => 2
    case Pcm24b3LeStereo => 2
    case Pcm24b4LeStereo | Pcm32LeStereo | Pcm32BeStereo => 2
    case OtherFormat => 4
  }

  /** The whole milliseconds `nsamples` samples last at `samplerate` samples per second (truncated). */
  function Msec(nsamples: nat, samplerate: nat): (r: nat)
    requires samplerate > 0
    ensures r * samplerate <= nsamples * 1000 < (r + 1) * samplerate
  {
    var q := nsamples * 1000 / samplerate;
    assert nsamples * 1000 == q * samplerate + nsamples * 1000 % samplerate;
    q
  }

  /**
   * The deadline advance as written: milliseconds split into seconds and
   * nanoseconds, with a carry only when the nanoseconds EXCEED one second.
   */
  function Advance(t: Timespec, msec: nat): (r: Timespec)
    ensures Nanos(r) == Nanos(t) + msec * NanosPerMsec
    ensures Normalized(t) ==> 0 <= r.nsec <= NanosPerSec
  {
    var added := Timespec(t.sec + msec / 1000, t.nsec + (msec % 1000) * NanosPerMsec);
    assert msec == msec / 1000 * 1000 + msec % 1000;
    if added.nsec > NanosPerSec then Timespec(added.sec + 1, added.nsec - NanosPerSec) else added
  }

  /** The advance as written can leave exactly one second in the nanosecond field. */
  lemma AdvanceLeavesFullSecond()
    ensures Advance(Timespec(10, 500000000), 500) == Timespec(10, NanosPerSec)
    ensures !Normalized(Advance(Timespec(10, 500000000), 500))
  {
  }

  /** The advance with the carry taken at one second or more: the same instant, always normalized. */
  function NormalizedAdvance(t: Timespec, msec: nat): (r: Timespec)
    requires Normalized(t)
    ensures Nanos(r) == Nanos(t) + msec * NanosPerMsec
    ensures Normalized(r)
  {
    var added := Timespec(t.sec + msec / 1000, t.nsec + (msec % 1000) * NanosPerMsec);
    assert msec == msec / 1000 * 1000 + msec % 1000;
    if added.nsec >= NanosPerSec then Timespec(added.sec + 1, added.nsec - NanosPerSec) else added
  }

  /** The two advances agree everywhere except where the nanoseconds land on exactly one second. */
  lemma AdvancesAgree(t: Timespec, msec: nat)
    requires Normalized(t)
    ensures Advance(t, msec) == NormalizedAdvance(t, msec) <==> t.nsec + (msec % 1000) * NanosPerMsec != NanosPerSec
  {
  }

  /**
   * The lateness test, compared field by field on (sec, nsec); on normalized
   * timespecs it is "`now` is strictly after `deadline`".
   */
  predicate Late(now: Timespec, deadline: Timespec)
    ensures Normalized(now) && Normalized(deadline) ==> (Late(now, deadline) <==> Nanos(now) > Nanos(deadline))
  {
    now.sec > deadline.sec || (now.sec == deadline.sec && now.nsec > deadline.nsec)
  }

  /** How far `now` is past `deadline`: a field-wise difference with one borrow. */
  function Behind(now: Timespec, deadline: Timespec): (d: Timespec)
    requires Normalized(now) && Normalized(deadline)
    ensures Normalized(d)
    ensures Nanos(d) == Nanos(now) - Nanos(deadline)
    ensures Late(now, deadline) ==> d.sec >= 0 && Nanos(d) > 0
  {
    var diff := Timespec(now.sec - deadline.sec, now.nsec - deadline.nsec);
    if diff.nsec < 0 then Timespec(diff.sec - 1, diff.nsec + NanosPerSec) else diff
  }

  /** The late-beat report as written: only the nanosecond field is compared with 10 ms. */
  predicate WarnsLate(d: Timespec)
    ensures Normalized(d) && d.sec >= 0 && WarnsLate(d) ==> Nanos(d) > LateThreshold
  {
    d.nsec > LateThreshold
  }

  /** A beat a whole second and 5 ms late is not reported. */
  lemma WholeSecondsNotReported()
    ensures Nanos(Timespec(1, 5000000)) > LateThreshold
    ensures !WarnsLate(Timespec(1, 5000000))
  {
  }

  /** The report with the whole lateness compared with 10 ms. */
  predicate ReportsLate(d: Timespec)
  {
    Nanos(d) > LateThreshold
  }

  /** The corrected report fires exactly when the beat is more than 10 ms late, and covers the one as written. */
  lemma ReportsLateExactly(now: Timespec, deadline: Timespec)
    requires Normalized(now) && Normalized(deadline)
    ensures ReportsLate(Behind(now, deadline)) <==> Nanos(now) - Nanos(deadline) > LateThreshold
    ensures Late(now, deadline) && WarnsLate(Behind(now, deadline)) ==> ReportsLate(Behind(now, deadline))
  {
  }

  /**
   * The carry rule of the deadline advance: as written, taken only when the
   * nanoseconds exceed one second; normalizing, taken at one second or more.
   */
  datatype Carry = AsWritten | Normalizing

  /** The deadline of a beat: from the stored clock, or from the first reading when the clock is unset. */
  function Deadline(samplerate: nat, clock: Timespec, nsamples: nat, first: Timespec, carry: Carry): (d: Timespec)
    requires samplerate > 0 && Normalized(clock) && Normalized(first)
    ensures Nanos(d) == Nanos(if clock == Timespec(0, 0) then first else clock) + Msec(nsamples, samplerate) * NanosPerMsec
    ensures 0 <= d.nsec <= NanosPerSec
    ensures carry == Normalizing ==> Normalized(d)
  {
    var base := if clock == Timespec(0, 0) then first else clock;
    match carry
    case AsWritten => Advance(base, Msec(nsamples, samplerate))
    case Normalizing => NormalizedAdvance(base, Msec(nsamples, samplerate))
  }

  /**
   * What one beat comes to: it returns a code and leaves the clock and the
   * sample count, or it is stuck retrying a sleep whose deadline the clock
   * refuses (a nanosecond field of one second), with that deadline stored.
   */
  datatype Outcome = Returned(code: int, clock: Timespec, nsamples: nat) | Stuck(deadline: Timespec)

  /**
   * One beat, given the readings the clock would give: `first` when the clock
   * is unset, `now` before the sleep, `resync` after a late beat, `woke` after
   * the sleep.
   */
  function Beat(samplerate: nat, clock: Timespec, nsamples: nat,
                first: Timespec, now: Timespec, resync: Timespec, woke: Timespec, carry: Carry): (o: Outcome)
    requires Normalized(clock) && Normalized(first)
    ensures samplerate == 0 ==> o == Returned(-1, clock, nsamples)
    ensures samplerate > 0 ==>
              var d := Deadline(samplerate, clock, nsamples, first, carry);
              (o.Stuck? <==> !Late(now, d) && !Normalized(d)) &&
              (o.Stuck? ==> o.deadline == d) &&
              (o.Returned? ==> (o.code == -1 <==> Late(now, d)) && (o.code == 0 <==> !Late(now, d))) &&
              (o.Returned? && Late(now, d) ==> o.clock == resync && o.nsamples == nsamples) &&
              (o.Returned? && !Late(now, d) ==> o.clock == woke && o.nsamples == 0)
    ensures carry == Normalizing ==> o.Returned?
  {
    if samplerate == 0 then Returned(-1, clock, nsamples)
    else
      var d := Deadline(samplerate, clock, nsamples, first, carry);
      if Late(now, d) then Returned(-1, resync, nsamples)
      else if !Normalized(d) then Stuck(d)
      else Returned(0, woke, 0)
  }

  /**
   * With the normalizing carry, a beat returns -1 exactly when there is no
   * sample rate or `now` is past the instant the samples are due, and 0
   * otherwise after restarting the count.
   */
  lemma NormalizedBeatCode(samplerate: nat, clock: Timespec, nsamples: nat,
                           first: Timespec, now: Timespec, resync: Timespec, woke: Timespec)
    requires Normalized(clock) && Normalized(first) && Normalized(now)
    ensures var o := Beat(samplerate, clock, nsamples, first, now, resync, woke, Normalizing);
            o.Returned? &&
            (o.code == -1 <==> samplerate == 0 ||
                               Nanos(now) > Nanos(if clock == Timespec(0, 0) then first else clock) + Msec(nsamples, samplerate) * NanosPerMsec) &&
            (o.code == 0 <==> !(o.code == -1)) &&
            (o.code == 0 ==> o.clock == woke && o.nsamples == 0)
  {
  }

  /** A reading past a deadline whose nanoseconds reach at most one second is no earlier than it. */
  lemma LateNotEarlier(now: Timespec, deadline: Timespec)
    requires Normalized(now) && 0 <= deadline.nsec <= NanosPerSec
    requires Late(now, deadline)
    ensures Nanos(now) >= Nanos(deadline)
  {
    if now.sec > deadline.sec {
      assert Nanos(now) >= (deadline.sec + 1) * NanosPerSec;
    }
  }

  /**
   * The two carries give the same beat unless the advance lands on exactly
   * one second; when it does, the beat as written is never on time: it is
   * late, or stuck on the deadline the sleep refuses.
   */
  lemma BeatsAgree(samplerate: nat, clock: Timespec, nsamples: nat,
                   first: Timespec, now: Timespec, resync: Timespec, woke: Timespec)
    requires samplerate > 0 && Normalized(clock) && Normalized(first)
    ensures var base := if clock == Timespec(0, 0) then first else clock;
            var lands := base.nsec + (Msec(nsamples, samplerate) % 1000) * NanosPerMsec == NanosPerSec;
            (!lands ==> Beat(samplerate, clock, nsamples, first, now, resync, woke, AsWritten)
                        == Beat(samplerate, clock, nsamples, first, now, resync, woke, Normalizing)) &&
            (lands ==> var o := Beat(samplerate, clock, nsamples, first, now, resync, woke, AsWritten);
                       o.Stuck? || o.code == -1)
  {
    var base := if clock == Timespec(0, 0) then first else clock;
    AdvancesAgree(base, Msec(nsamples, samplerate));
  }

  /**
   * The input that separates the two carries: at 1000 samples per second, 500
   * samples after (10 s, 0.5 s) are due at 11 s. As written the deadline is
   * (10 s, 1e9 ns): a reading of exactly 11 s counts as late, and a reading
   * of 10.9 s leaves the beat stuck; the normalizing carry is on time in both.
   */
  lemma AsWrittenMissesDeadline(resync: Timespec, woke: Timespec)
    ensures Beat(1000, Timespec(10, 500000000), 500, Timespec(0, 0), Timespec(11, 0), resync, woke, AsWritten)
            == Returned(-1, resync, 500)
    ensures Beat(1000, Timespec(10, 500000000), 500, Timespec(0, 0), Timespec(11, 0), resync, woke, Normalizing)
            == Returned(0, woke, 0)
    ensures Beat(1000, Timespec(10, 500000000), 500, Timespec(0, 0), Timespec(10, 900000000), resync, woke, AsWritten)
            == Stuck(Timespec(10, NanosPerSec))
    ensures Beat(1000, Timespec(10, 500000000), 500, Timespec(0, 0), Timespec(10, 900000000), resync, woke, Normalizing)
            == Returned(0, woke, 0)
  {
    assert Msec(500, 1000) == 500;
  }

  /**
   * Once set, the pacing clock never moves back on a beat that returns,
   * provided the readings are monotone: the late resynchronisation comes
   * after `now` and the sleep wakes no earlier than its deadline.
   */
  lemma BeatNeverRegresses(samplerate: nat, clock: Timespec, nsamples: nat,
                           first: Timespec, now: Timespec, resync: Timespec, woke: Timespec, carry: Carry)
    requires Normalized(clock) && Normalized(first) && Normalized(now)
    requires clock != Timespec(0, 0)
    requires Nanos(now) <= Nanos(resync)
    requires samplerate > 0 ==> Nanos(Deadline(samplerate, clock, nsamples, first, carry)) <= Nanos(woke)
    ensures var o := Beat(samplerate, clock, nsamples, first, now, resync, woke, carry);
            o.Returned? ==> Nanos(o.clock) >= Nanos(clock)
  {
    if samplerate > 0 {
      var d := Deadline(samplerate, clock, nsamples, first, carry);
      if Late(now, d) {
        LateNotEarlier(now, d);
      }
    }
  }

  /** A beat with no samples returns, and only asks whether the stored deadline has passed. */
  lemma EmptyBeat(samplerate: nat, clock: Timespec, first: Timespec, now: Timespec, resync: Timespec, woke: Timespec, carry: Carry)
    requires samplerate > 0 && Normalized(clock) && Normalized(first) && Normalized(now)
    requires clock != Timespec(0, 0)
    ensures var o := Beat(samplerate, clock, 0, first, now, resync, woke, carry);
            o.Returned? && (o.code == 0 <==> Nanos(now) <= Nanos(clock))
  {
    assert Deadline(samplerate, clock, 0, first, carry) == clock;
  }

  /** The first beat of one second of 44.1 kHz samples is due one second after the first reading. */
  lemma FirstBeatOneSecond(first: Timespec, carry: Carry)
    requires Normalized(first)
    ensures Deadline(44100, Timespec(0, 0), 44100, first, carry) == Timespec(first.sec + 1, first.nsec)
  {
    assert Msec(44100, 44100) == 1000;
  }

  /** heartbeat_samples_t: the samples rendered since the last beat. */
  class Samples {
    var nsamples: nat

    constructor (nsamples: nat)
      ensures this.nsamples == nsamples
    {
      this.nsamples := nsamples;
    }
  }

  /** heartbeat_ctx_t. */
  class Pacer {
    var samplerate: nat
    var samplesize: nat
    var nchannels: nat
    var clock: Timespec

    ghost predicate Valid()
      reads this
    {
      Normalized(clock)
    }

    /** heartbeat_init: the format table and an unset clock. */
    constructor (samplerate: nat, format: Format, nchannels: nat)
      ensures Valid()
      ensures this.samplerate == samplerate && this.nchannels == nchannels
      ensures samplesize == SampleSize(format)
      ensures clock == Timespec(0, 0)
    {
      this.samplerate := samplerate;
      samplesize := SampleSize(format);
      this.nchannels := nchannels;
      clock := Timespec(0, 0);
    }

    /** Lines 91-100: the stored clock moved on by `msec` milliseconds, with the carry rule `carry`. */
    method AdvanceClock(msec: nat, carry: Carry)
      requires Normalized(clock)
      modifies this`clock
      ensures clock == if carry == AsWritten then Advance(old(clock), msec) else NormalizedAdvance(old(clock), msec)
    {
      clock := clock.(nsec := clock.nsec + (msec % 1000) * NanosPerMsec);
      clock := clock.(sec := clock.sec + msec / 1000);
      if clock.nsec > NanosPerSec || (carry == Normalizing && clock.nsec == NanosPerSec) {
        clock := Timespec(clock.sec + 1, clock.nsec - NanosPerSec);
      }
    }

    /**
     * heartbeat_wait with the carry rule `carry`: advance the deadline by the
     * samples' duration, then either resynchronise (late, -1) or sleep until
     * the deadline and start a new count (on time, 0). With no sample rate
     * nothing changes and the result is -1. None stands for the sleep that the
     * clock refuses forever: the retry loop never returns, and the clock holds
     * the refused deadline.
     */
    method Wait(beat: Samples, first: Timespec, now: Timespec, resync: Timespec, woke: Timespec, carry: Carry)
      returns (r: Option<int>)
      requires Valid()
      requires Normalized(first) && Normalized(now) && Normalized(resync) && Normalized(woke)
      modifies this`clock, beat`nsamples
      ensures r.Some? ==> Valid()
      ensures Beat(samplerate, old(clock), old(beat.nsamples), first, now, resync, woke, carry)
              == (if r.Some? then Returned(r.value, clock, beat.nsamples) else Stuck(clock))
      ensures r.None? ==> beat.nsamples == old(beat.nsamples)
    {
      if samplerate == 0 {
        return Some(-1);
      }
      var msec := beat.nsamples * 1000 / samplerate;
      if clock.sec == 0 && clock.nsec == 0 {
        clock := first;
      }
      AdvanceClock(msec, carry);
      if now.sec > clock.sec || (now.sec == clock.sec && now.nsec > clock.nsec) {
        clock := resync;
        return Some(-1);
      }
      if clock.nsec >= NanosPerSec {
        return None;
      }
      clock := woke;
      beat.nsamples := 0;
      r := Some(0);
    }
  }
}
