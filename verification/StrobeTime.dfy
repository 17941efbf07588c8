/** The clock strober: arithmetic on times split into seconds and nanoseconds, and a loop that sets the wall
    clock forward and back until a monotonic clock says that it is time to stop. */
module StrobeTime {

  const NANOS_PER_SEC := 1_000_000_000

  datatype Timespec = Timespec(sec: int, nsec: int)

  function Total(t: Timespec): int {
    t.sec * NANOS_PER_SEC + t.nsec
  }

  predicate Normal(t: Timespec) {
    0 <= t.nsec < NANOS_PER_SEC
  }

  /** The one normal time with a total. */
  function Normalized(total: int): (t: Timespec)
    ensures Normal(t) && Total(t) == total
  {
    Timespec(total / NANOS_PER_SEC, total % NANOS_PER_SEC)
  }

  lemma NormalUnique(t: Timespec)
    ensures Normal(t) <==> t == Normalized(Total(t))
  {
  }

  /** The remainder that takes the sign of the dividend. */
  function Remainder(a: int, b: int): int
    requires b > 0
  {
    if a >= 0 then a % b else -(-a % b)
  }

  /** Splitting keeps the total and leaves less than a second of nanoseconds, both parts with the sign of the whole;
      so a negative number of nanoseconds gives a time that is not normal, unless it is whole seconds. */
  function NanosToTimespec(nanos: int): (t: Timespec)
    ensures Total(t) == nanos && -NANOS_PER_SEC < t.nsec < NANOS_PER_SEC
    ensures if nanos < 0 then t.sec <= 0 && t.nsec <= 0 else t.sec >= 0 && t.nsec >= 0
    ensures Normal(t) <==> nanos >= 0 || nanos % NANOS_PER_SEC == 0
  {
    var rest := Remainder(nanos, NANOS_PER_SEC);
    Timespec((nanos - rest) / NANOS_PER_SEC, rest)
  }

  class TimespecVar {
    var sec: int
    var nsec: int

    constructor (sec: int, nsec: int)
      ensures this.sec == sec && this.nsec == nsec
    {
      this.sec, this.nsec := sec, nsec;
    }

    function Value(): Timespec
      reads this
    {
      Timespec(sec, nsec)
    }

    /** The first loop goes on until the nanoseconds are more than a second, and the second takes back what is
        too much. */
    method Balance()
      modifies this
      ensures Value() == Normalized(old(Total(Value())))
    {
      while nsec <= NANOS_PER_SEC
        invariant Total(Value()) == old(Total(Value()))
        decreases NANOS_PER_SEC - nsec
      {
        sec := sec - 1;
        nsec := nsec + NANOS_PER_SEC;
      }
      while NANOS_PER_SEC <= nsec
        invariant Total(Value()) == old(Total(Value())) && nsec >= 0
      {
        sec := sec + 1;
        nsec := nsec - NANOS_PER_SEC;
      }
      NormalUnique(Value());
    }
  }

  method AddTimespec(a: Timespec, b: Timespec) returns (r: Timespec)
    ensures r == Normalized(Total(a) + Total(b))
  {
    var result := new TimespecVar(a.sec + b.sec, a.nsec + b.nsec);
    result.Balance();
    return result.Value();
  }

  method SubTimespec(a: Timespec, b: Timespec) returns (r: Timespec)
    ensures r == Normalized(Total(a) - Total(b))
  {
    var result := new TimespecVar(a.sec - b.sec, a.nsec - b.nsec);
    result.Balance();
    return result.Value();
  }

  /** Adding a time and subtracting it again gives back exactly the normal times. */
  lemma AddThenSub(a: Timespec, b: Timespec)
    ensures Normalized(Total(Normalized(Total(a) + Total(b))) - Total(b)) == a <==> Normal(a)
  {
    NormalUnique(a);
  }

  function CmpTimespec(a: Timespec, b: Timespec): (sign: int)
    ensures sign == -1 || sign == 0 || sign == 1
    ensures sign == 0 <==> a == b
    ensures sign > 0 <==> a.sec < b.sec || (a.sec == b.sec && a.nsec < b.nsec)
  {
    if a.sec < b.sec then 1
    else if b.sec < a.sec then -1
    else if a.nsec < b.nsec then 1
    else if b.nsec < a.nsec then -1
    else 0
  }

  /** On normal times the comparison is the order of the totals, turned round. */
  lemma CmpReversed(a: Timespec, b: Timespec)
    requires Normal(a) && Normal(b)
    ensures CmpTimespec(a, b) == if Total(a) < Total(b) then 1 else if Total(a) > Total(b) then -1 else 0
    ensures CmpTimespec(a, b) == 0 <==> a == b
    ensures CmpTimespec(b, a) == -CmpTimespec(a, b)
  {
  }

  // ---- The strobe loop ----

  /** What the program observes: one reading of the wall clock, the readings of the monotonic clock in turn, and
      which sleeps a signal cuts short. */
  datatype World = World(wall: Timespec, monotonic: nat -> Timespec, interrupted: nat -> bool)

  /** The monotonic clock reads normal times, and in the end goes past any time. */
  ghost predicate Advances(w: World) {
    && (forall i: nat :: Normal(w.monotonic(i)))
    && forall t: int :: PastFrom(w, t)
  }

  ghost predicate PastFrom(w: World, t: int) {
    exists k: nat :: StaysPast(w, t, k)
  }

  ghost predicate StaysPast(w: World, t: int, k: nat) {
    forall i: nat :: i >= k ==> Total(w.monotonic(i)) >= t
  }

  predicate CanSleep(period: Timespec) {
    period.sec >= 0 && Normal(period)
  }

  lemma CanSleepWhen(period: int)
    ensures CanSleep(NanosToTimespec(period)) <==> period >= 0
  {
  }

  /** How far the wall clock was ahead of the monotonic clock. */
  function Offset(w: World): int {
    Total(w.wall) - Total(w.monotonic(0))
  }

  /** The reading of the monotonic clock that decides whether there is an `i`-th strobe. */
  function Check(w: World, i: nat): Timespec {
    w.monotonic(2 * i + 2)
  }

  /** What the wall clock is set to by the `i`-th setting: the monotonic time plus an offset. */
  function Setting(w: World, i: nat, offset: int): Timespec {
    Normalized(Total(w.monotonic(2 * i + 3)) + offset)
  }

  predicate Odd(n: nat)
    ensures Odd(n) <==> n % 2 == 1
  {
    n > 0 && !Odd(n - 1)
  }

  /** Settings number 0, 2, ... are off by the delta, the others are right. */
  function Strobed(w: World, delta: int, i: nat): Timespec {
    Setting(w, i, Offset(w) + if Odd(i) then 0 else delta)
  }

  function Strobes(w: World, delta: int, count: nat): seq<Timespec> {
    if count == 0 then [] else Strobes(w, delta, count - 1) + [Strobed(w, delta, count - 1)]
  }

  /** A normal time which is `ahead` of the real time: the wall clock as it was at first, moved on by what the
      monotonic clock has moved on from its first reading to this one. */
  predicate IsAhead(w: World, reading: nat, ahead: int, t: Timespec) {
    Normal(t) && Total(t) - Total(w.wall) == Total(w.monotonic(reading)) - Total(w.monotonic(0)) + ahead
  }

  /** While the clock is strobed it alternates: ahead of the real time by the delta, then right, and so on. */
  lemma {:induction false} StrobesAlternate(w: World, delta: int, count: nat, i: nat)
    requires i < count
    ensures |Strobes(w, delta, count)| == count
    ensures IsAhead(w, 2 * i + 3, if i % 2 == 0 then delta else 0, Strobes(w, delta, count)[i])
  {
    if count > 1 {
      StrobesAlternate(w, delta, count - 1, if i < count - 1 then i else 0);
    }
  }

  /** Every check so far came before the end of the duration. */
  predicate InTime(w: World, duration: int, count: nat) {
    forall i: nat :: i < count ==> Total(Check(w, i)) < Total(w.monotonic(1)) + duration
  }

  predicate Slept(w: World, period: int, sleeps: nat) {
    (sleeps > 0 ==> period >= 0) && forall i: nat :: i < sleeps ==> !w.interrupted(i)
  }

  /** What is so after `count` strobes, all of whose sleeps went well. */
  ghost predicate Strobing(w: World, delta: int, period: int, duration: int, count: nat, settings: seq<Timespec>) {
    settings == Strobes(w, delta, count) && InTime(w, duration, count) && Slept(w, period, count)
  }

  lemma StrobingNext(w: World, delta: int, period: int, duration: int, count: nat, settings: seq<Timespec>)
    requires Strobing(w, delta, period, duration, count, settings)
    requires Total(Check(w, count)) < Total(w.monotonic(1)) + duration
    ensures settings + [Strobed(w, delta, count)] == Strobes(w, delta, count + 1) && InTime(w, duration, count + 1)
    ensures period >= 0 && !w.interrupted(count) ==>
              Strobing(w, delta, period, duration, count + 1, settings + [Strobed(w, delta, count)])
  {
  }

  lemma SleepFailed(w: World, period: int, count: nat)
    requires count > 0 && Slept(w, period, count - 1) && (period < 0 || w.interrupted(count - 1))
    ensures !Slept(w, period, count)
    ensures period < 0 ==> count == 1
  {
  }

  /** The first settings are ahead of the real time by the delta, right, and so on in turn. */
  predicate Alternates(w: World, delta: int, count: nat, settings: seq<Timespec>) {
    && count <= |settings|
    && forall i :: 0 <= i < count ==> IsAhead(w, 2 * i + 3, if i % 2 == 0 then delta else 0, settings[i])
  }

  /** Every other reading from the third on was less than the duration past the second. */
  predicate Begun(w: World, duration: int, count: nat) {
    forall n: nat :: 2 <= n <= 2 * count && n % 2 == 0 ==> Total(w.monotonic(n)) < Total(w.monotonic(1)) + duration
  }

  lemma OneMoreSetting(w: World, delta: int, count: nat, settings: seq<Timespec>, now: Timespec)
    requires Alternates(w, delta, count, settings) && |settings| == count
    ensures Alternates(w, delta, count, settings + [now]) && (settings + [now])[count] == now
  {
  }

  /** What was set in these strobes, and when they were begun. */
  lemma StrobingShows(w: World, delta: int, duration: int, count: nat, settings: seq<Timespec>)
    requires settings == Strobes(w, delta, count) && InTime(w, duration, count)
    ensures |settings| == count && Alternates(w, delta, count, settings) && Begun(w, duration, count)
  {
    if count > 0 {
      forall i: nat | i < count
        ensures |settings| == count && IsAhead(w, 2 * i + 3, if i % 2 == 0 then delta else 0, settings[i])
      {
        StrobesAlternate(w, delta, count, i);
      }
      StrobesAlternate(w, delta, count, 0);
    }
    forall n: nat | 2 <= n <= 2 * count && n % 2 == 0
      ensures Total(w.monotonic(n)) < Total(w.monotonic(1)) + duration
    {
      assert Total(Check(w, n / 2 - 1)) < Total(w.monotonic(1)) + duration;
    }
  }

  /** The clock setting of one turn of the loop. */
  method StrobeOnce(w: World, delta: int, count: nat, weird: bool, normalOffset: Timespec, weirdOffset: Timespec)
    returns (now: Timespec)
    requires Total(normalOffset) == Offset(w) && Total(weirdOffset) == Offset(w) + delta && weird == Odd(count)
    ensures now == Strobed(w, delta, count)
  {
    now := AddTimespec(w.monotonic(2 * count + 3), if weird then normalOffset else weirdOffset);
  }

  /** Whether there is another turn is decided by the totals. */
  lemma CheckDecides(w: World, end: Timespec, count: nat, last: nat)
    requires Advances(w) && Normal(end) && StaysPast(w, Total(end), last)
    ensures 0 < CmpTimespec(Check(w, count), end) <==> Total(Check(w, count)) < Total(end)
    ensures 0 < CmpTimespec(Check(w, count), end) ==> count < last
  {
    CmpReversed(Check(w, count), end);
  }

  /** The loop: it sets the clock ahead and right in turn, until a check comes too late or a sleep fails. */
  method StrobeLoop(w: World, delta: int, period: int, duration: int, normalOffset: Timespec, weirdOffset: Timespec,
                    end: Timespec)
    returns (slept: bool, count: nat, settings: seq<Timespec>)
    requires Advances(w) && Normal(end) && Total(end) == Total(w.monotonic(1)) + duration
    requires Total(normalOffset) == Offset(w) && Total(weirdOffset) == Offset(w) + delta
    ensures settings == Strobes(w, delta, count) && InTime(w, duration, count)
    ensures slept ==> Slept(w, period, count) && Total(Check(w, count)) >= Total(end)
    ensures !slept ==> count > 0 && Slept(w, period, count - 1) && (period < 0 || w.interrupted(count - 1))
  {
    var weird := false;
    count, settings := 0, [];
    CanSleepWhen(period);
    assert PastFrom(w, Total(end));
    ghost var last: nat :| StaysPast(w, Total(end), last);
    while 0 < CmpTimespec(Check(w, count), end)
      invariant weird == Odd(count)
      invariant Strobing(w, delta, period, duration, count, settings)
      decreases last - count
    {
      CheckDecides(w, end, count, last);
      StrobingNext(w, delta, period, duration, count, settings);
      var now := StrobeOnce(w, delta, count, weird, normalOffset, weirdOffset);
      settings := settings + [now];
      weird := !weird;
      count := count + 1;
      if !CanSleep(NanosToTimespec(period)) || w.interrupted(count - 1) {
        return false, count, settings;
      }
    }
    CheckDecides(w, end, count, last);
    slept := true;
  }

  /** The loop goes on while every other reading, from the third on, is less than the duration past the second one,
      and no sleep fails. Every strobe sets the clock ahead by the delta or right, in turn; the clock is set right
      at the end unless a sleep failed. */
  method Strobe(w: World, delta: int, period: int, duration: int)
    returns (exit: int, count: nat, settings: seq<Timespec>)
    requires Advances(w)
    ensures exit == 0 || exit == 3
    ensures exit == 0 <==> (count == 0 || period >= 0) && forall i: nat :: i < count ==> !w.interrupted(i)
    ensures |settings| == if exit == 0 then count + 1 else count
    ensures Alternates(w, delta, count, settings) && Begun(w, duration, count)
    ensures exit == 0 ==>
              && Total(w.monotonic(2 * count + 2)) >= Total(w.monotonic(1)) + duration
              && IsAhead(w, 2 * count + 3, 0, settings[count])
    ensures exit == 3 ==>
              && count > 0 && (period < 0 || w.interrupted(count - 1))
              && (period < 0 ==> count == 1) && forall i: nat :: i < count - 1 ==> !w.interrupted(i)
  {
    var normalOffset := SubTimespec(w.wall, w.monotonic(0));
    var weirdOffset := AddTimespec(normalOffset, NanosToTimespec(delta));
    var end := AddTimespec(w.monotonic(1), NanosToTimespec(duration));
    var slept;
    slept, count, settings := StrobeLoop(w, delta, period, duration, normalOffset, weirdOffset, end);
    StrobingShows(w, delta, duration, count, settings);
    if !slept {
      SleepFailed(w, period, count);
      return 3, count, settings;
    }
    var now := AddTimespec(w.monotonic(2 * count + 3), normalOffset);
    OneMoreSetting(w, delta, count, settings, now);
    settings := settings + [now];
    exit := 0;
  }
}
