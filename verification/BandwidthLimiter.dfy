/**
 The bandwidth limiter of Maven copies (internal/backup/maven_sync.go), in exact arithmetic. Time is a real
 number of seconds.
 */
module BandwidthLimiter {
  import opened Common

  /** The bytes a copy may send at once after `elapsed` seconds, cut down to a whole number. */
  function AllowedBytes(rate: nat, elapsed: real): int {
    (elapsed * rate as real).Floor
  }

  function WaitTime(rate: nat, bytes: nat, elapsed: real): real
    requires rate > 0
  {
    (bytes - AllowedBytes(rate, elapsed)) as real / rate as real
  }

  /** One admission under the lock: the clock when it is entered, and when its sleep is over. */
  datatype Admission = Admission(bytes: nat, now: real, woke: real)

  /** The clock does not run backwards and a sleep is never cut short. */
  predicate Possible(rate: nat, last: real, a: Admission)
    requires rate > 0
  {
    && last <= a.now
    && (a.bytes > AllowedBytes(rate, a.now - last) ==> a.now + WaitTime(rate, a.bytes, a.now - last) <= a.woke)
  }

  function LastTime(rate: nat, last: real, a: Admission): real {
    if a.bytes > AllowedBytes(rate, a.now - last) then a.woke else a.now
  }

  predicate WithinRate(rate: nat, bytes: nat, time: real) {
    bytes as real <= rate as real * time
  }

  lemma WaitCovers(rate: nat, bytes: nat, elapsed: real)
    requires rate > 0
    ensures rate as real * WaitTime(rate, bytes, elapsed) == (bytes - AllowedBytes(rate, elapsed)) as real
  {
  }

  /** Bytes wait exactly if they exceed what has accrued, and then for less than one byte's time more than the excess takes. */
  lemma WaitIsNeeded(rate: nat, bytes: nat, elapsed: real)
    requires rate > 0
    ensures bytes > AllowedBytes(rate, elapsed) <==> bytes as real > rate as real * elapsed
    ensures rate as real * WaitTime(rate, bytes, elapsed) < bytes as real - rate as real * elapsed + 1.0
  {
    WaitCovers(rate, bytes, elapsed);
  }

  lemma Monotone(rate: nat, a: real, b: real)
    requires a <= b
    ensures rate as real * a <= rate as real * b
  {
  }

  /** An admission never lets through more than the rate times the time it moves the limiter's clock. */
  lemma AdmissionWithinRate(rate: nat, last: real, a: Admission)
    requires rate > 0 && Possible(rate, last, a)
    ensures WithinRate(rate, a.bytes, LastTime(rate, last, a) - last)
  {
    var elapsed := a.now - last;
    var allowed := AllowedBytes(rate, elapsed);
    assert allowed as real <= elapsed * rate as real;
    if a.bytes > allowed {
      WaitCovers(rate, a.bytes, elapsed);
      Monotone(rate, elapsed + WaitTime(rate, a.bytes, elapsed), a.woke - last);
      assert rate as real * (elapsed + WaitTime(rate, a.bytes, elapsed)) ==
             rate as real * elapsed + (a.bytes - allowed) as real;
    }
  }

  // ---- Any number of workers: a run is one sequence of admissions, in lock order ----

  ghost predicate Run(rate: nat, start: real, run: seq<Admission>)
    requires rate > 0
    decreases run
  {
    run != [] ==>
      var init := run[..|run| - 1];
      Run(rate, start, init) && Possible(rate, End(rate, start, init), run[|run| - 1])
  }

  function Total(run: seq<Admission>): nat {
    if run == [] then 0 else Total(run[..|run| - 1]) + run[|run| - 1].bytes
  }

  /** The limiter's clock after a run that found it at `start`. */
  function End(rate: nat, start: real, run: seq<Admission>): real
    decreases run
  {
    if run == [] then start else LastTime(rate, End(rate, start, run[..|run| - 1]), run[|run| - 1])
  }

  /**
   From any moment at which the limiter's clock stands at `start` (its creation, or any admission) to the last
   admission of a run, the workers together send at most the rate times the time passed.
   */
  lemma {:induction false} RunWithinRate(rate: nat, start: real, run: seq<Admission>)
    requires rate > 0 && Run(rate, start, run)
    ensures WithinRate(rate, Total(run), End(rate, start, run) - start)
    decreases run
  {
    if run != [] {
      var init := run[..|run| - 1];
      RunWithinRate(rate, start, init);
      StillWithinRate(rate, start, End(rate, start, init), run[|run| - 1], Total(init));
    }
  }

  lemma StillWithinRate(rate: nat, start: real, last: real, a: Admission, before: nat)
    requires rate > 0 && Possible(rate, last, a) && WithinRate(rate, before, last - start)
    ensures WithinRate(rate, before + a.bytes, LastTime(rate, last, a) - start)
  {
    AdmissionWithinRate(rate, last, a);
    Telescope(rate as real, start, last, LastTime(rate, last, a), before as real, a.bytes as real);
  }

  lemma Telescope(rate: real, a: real, b: real, c: real, before: real, bytes: real)
    requires before <= rate * (b - a) && bytes <= rate * (c - b)
    ensures before + bytes <= rate * (c - a)
  {
    assert rate * (b - a) + rate * (c - b) == rate * (c - a);
  }

  lemma RunAppend(rate: nat, start: real, run: seq<Admission>, a: Admission)
    requires rate > 0 && Run(rate, start, run) && Possible(rate, End(rate, start, run), a)
    ensures Run(rate, start, run + [a])
    ensures End(rate, start, run + [a]) == LastTime(rate, End(rate, start, run), a)
    ensures Total(run + [a]) == Total(run) + a.bytes
  {
    assert (run + [a])[..|run|] == run;
  }

  // ---- The limiter as it runs ----

  /** Reads the clock at some moment no earlier than `earliest`: a plain reading, or the end of a sleep. */
  method Clock(earliest: real) returns (t: real)
    ensures t >= earliest
  {
    var later: real :| later >= 0.0;
    t := earliest + later;
  }

  /** What happens under the lock: read the clock and, if the bytes exceed what has accrued, sleep off the rest. */
  method Admit(rate: nat, last: real, bytes: nat) returns (a: Admission)
    requires rate > 0
    ensures Possible(rate, last, a) && a.bytes == bytes
    ensures bytes as real <= rate as real * (a.now - last) ==> a.woke == a.now
  {
    var now := Clock(last);
    var elapsed := now - last;
    var allowedBytes := AllowedBytes(rate, elapsed);
    var woke := now;
    WaitIsNeeded(rate, bytes, elapsed);
    if bytes > allowedBytes {
      woke := Clock(now + WaitTime(rate, bytes, elapsed));
    }
    a := Admission(bytes, now, woke);
  }

  class RateLimiter {
    const bytesPerSecond: nat
    var lastTime: real
    ghost const created: real
    /** All admissions so far, by any worker. */
    ghost var run: seq<Admission>

    ghost predicate Valid()
      reads this
    {
      bytesPerSecond > 0 && Run(bytesPerSecond, created, run) && lastTime == End(bytesPerSecond, created, run)
    }

    constructor (bytesPerSecond: nat, now: real)
      requires bytesPerSecond > 0
      ensures Valid() && this.bytesPerSecond == bytesPerSecond && lastTime == created == now && run == []
    {
      this.bytesPerSecond := bytesPerSecond;
      lastTime, created, run := now, now, [];
    }

    method WaitForQuota(bytes: nat)
      requires Valid()
      modifies this
      ensures Valid() && Total(run) == old(Total(run)) + bytes
    {
      var a := Admit(bytesPerSecond, lastTime, bytes);
      RunAppend(bytesPerSecond, created, run, a);
      lastTime := LastTime(bytesPerSecond, lastTime, a);
      run := run + [a];
    }

    /** At all times, what has been admitted since creation is within the rate. */
    lemma AlwaysWithinRate()
      requires Valid()
      ensures WithinRate(bytesPerSecond, Total(run), lastTime - created)
    {
      RunWithinRate(bytesPerSecond, created, run);
    }

    /** Whatever the other workers admit before this one gets the lock again. */
    method OtherWorkers()
      requires Valid()
      modifies this
      ensures Valid() && Total(run) >= old(Total(run))
    {
      var turns: nat :| 0 <= turns;
      for i := 0 to turns
        invariant Valid() && Total(run) >= old(Total(run))
      {
        var bytes: nat :| 0 <= bytes;
        WaitForQuota(bytes);
      }
    }

    /** Copies a source in chunks of up to 32 KiB, waiting for quota before each write. */
    method CopyWithLimit(src: Bytes) returns (dst: Bytes, written: nat)
      requires Valid()
      modifies this
      ensures Valid() && dst == src && written == |src|
      ensures Total(run) >= old(Total(run)) + |src|
    {
      dst, written := [], 0;
      while written < |src|
        invariant Valid() && written <= |src| && dst == src[..written]
        invariant Total(run) >= old(Total(run)) + written
      {
        var room := if |src| - written < 32 * 1024 then |src| - written else 32 * 1024;
        var n: nat :| 1 <= n <= room;
        var buffer := src[written..written + n];
        OtherWorkers();
        WaitForQuota(n);
        assert src[..written + n] == dst + buffer;
        dst := dst + buffer;
        written := written + n;
      }
      assert src[..|src|] == src;
    }
  }
}
