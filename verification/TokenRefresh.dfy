/** When a mounted token is refreshed, and why it never expires before. Times are nanoseconds since the epoch. */
module TokenRefresh {
  import opened Basics

  const SECOND := 1_000_000_000
  const DAY := 24 * 3600 * SECOND
  const INT64_RANGE := 0x1_0000_0000_0000_0000
  const INT64_MAX := 0x7fff_ffff_ffff_ffff

  /** Multiplication of durations wraps around. */
  function Wrap(x: int): int {
    var m := x % INT64_RANGE;
    if m > INT64_MAX then m - INT64_RANGE else m
  }

  /** `Time.Sub` saturates. */
  function Sub(a: int, b: int): int {
    if a - b > INT64_MAX then INT64_MAX else if a - b < -INT64_MAX - 1 then -INT64_MAX - 1 else a - b
  }

  /** Division of durations truncates towards zero. */
  function Quotient(a: int, b: int): int
    requires b > 0
  {
    if a >= 0 then a / b else -((-a) / b)
  }

  /** 80% of the remaining lifetime, but at most a day. */
  function RefreshPeriod(now: int, expiration: int): int {
    Min(Quotient(Wrap(Sub(expiration, now) * 8), 10), DAY)
  }

  function RefreshAfter(now: int, expiration: int): int {
    now + RefreshPeriod(now, expiration)
  }

  /** The RFC 3339 text (section 5.6 of RFC 3339) keeps whole seconds only. */
  function WholeSeconds(t: int): int {
    t / SECOND * SECOND
  }

  /** A token in its host secret: when it expires, and the annotation. An annotation that does not parse is `None`. */
  datatype Stored = Stored(expiration: int, refreshAfter: Option<int>)

  function Issued(now: int, expiration: int): Stored {
    Stored(expiration, Some(WholeSeconds(RefreshAfter(now, expiration))))
  }

  predicate Due(s: Stored, now: int) {
    s.refreshAfter.None? || now >= s.refreshAfter.value
  }

  /** However long the lifetime is, also when the multiplication overflows: the period is at most four fifths of it. */
  lemma PeriodWithinFourFifths(now: int, expiration: int)
    requires expiration > now
    ensures 5 * RefreshPeriod(now, expiration) <= 4 * (expiration - now)
  {
  }

  /** The arithmetic of durations: a product is the one 64-bit number that agrees with it up to multiples of the range, a
      quotient is cut off towards zero, and a difference stops at the ends of the range. */
  lemma Durations(x: int, a: int, b: int)
    requires b > 0
    ensures -0x8000_0000_0000_0000 <= Wrap(x) <= 0x7fff_ffff_ffff_ffff && (x - Wrap(x)) % 0x1_0000_0000_0000_0000 == 0
    ensures if a >= 0 then b * Quotient(a, b) <= a < b * (Quotient(a, b) + 1)
            else b * (Quotient(a, b) - 1) < a <= b * Quotient(a, b)
    ensures -0x8000_0000_0000_0000 <= Sub(a, b) <= 0x7fff_ffff_ffff_ffff
    ensures -0x8000_0000_0000_0000 <= a - b <= 0x7fff_ffff_ffff_ffff ==> Sub(a, b) == a - b
    ensures a - b > 0x7fff_ffff_ffff_ffff ==> Sub(a, b) == 0x7fff_ffff_ffff_ffff
    ensures a - b < -0x8000_0000_0000_0000 ==> Sub(a, b) == -0x8000_0000_0000_0000
  {
  }

  /** Never more than 24 hours; and as long as the multiplication does not overflow, not less than four fifths of the
      lifetime either, up to the nanosecond, unless that is more than 24 hours. */
  lemma PeriodExactly(now: int, expiration: int)
    requires expiration > now
    ensures RefreshPeriod(now, expiration) <= 86_400_000_000_000
    ensures 8 * (expiration - now) <= INT64_MAX ==>
      var period := RefreshPeriod(now, expiration);
      if 4 * (expiration - now) >= 5 * 86_400_000_000_000 then period == 86_400_000_000_000
      else 5 * period <= 4 * (expiration - now) < 5 * (period + 1)
  {
  }

  /** So a token is found due from four fifths of its lifetime or 24 hours on, and not a second before. */
  lemma DueFrom(now: int, expiration: int, t: int)
    requires expiration > now && 8 * (expiration - now) <= INT64_MAX
    ensures 5 * (t - now) >= 4 * (expiration - now) || t - now >= 86_400_000_000_000 ==> Due(Issued(now, expiration), t)
    ensures 5 * (t - now + 1_000_000_000) < 4 * (expiration - now) && t - now + 1_000_000_000 < 86_400_000_000_000 ==>
      !Due(Issued(now, expiration), t)
  {
    PeriodExactly(now, expiration);
  }

  // ---------------------------------------------------------------------------------------------
  // Polls
  // ---------------------------------------------------------------------------------------------

  /** One round of the refresher for one secret: it looks at the secret at `check`, and is finished at `done`. If the
      token was due, a new one that expires at `expiration` is stored by then, with `done` as the time of issue. */
  datatype Poll = Poll(check: int, done: int, expiration: int)

  function Polled(s: Stored, p: Poll): Stored {
    if Due(s, p.check) then Issued(p.done, p.expiration) else s
  }

  /** A round ends at most `d` after the round before it looked, and tokens live at least five times as long. */
  predicate Regular(start: int, polls: seq<Poll>, d: int)
    decreases |polls|
  {
    polls != [] ==>
      var p := polls[0];
      && start <= p.check <= p.done <= start + d
      && p.expiration - p.done >= 5 * d
      && Regular(p.check, polls[1..], d)
  }

  /** The token in the secret after the rounds. */
  ghost function After(s: Stored, polls: seq<Poll>): Stored
    decreases |polls|
  {
    if polls == [] then s else After(Polled(s, polls[0]), polls[1..])
  }

  /** At `last` the secret has been looked at, or written; its token outlives any round that ends in time after that. */
  predicate Fresh(s: Stored, last: int, d: int) {
    last + d < s.expiration
  }

  lemma IssuedFresh(now: int, expiration: int, last: int, d: int)
    requires d >= 1 && expiration - now >= 5 * d
    requires last <= now || !Due(Issued(now, expiration), last)
    ensures Fresh(Issued(now, expiration), last, d)
  {
  }

  /** The token was issued with a lifetime long enough. */
  ghost predicate WellIssued(s: Stored, d: int) {
    exists now: int :: s == Issued(now, s.expiration) && s.expiration - now >= 5 * d
  }

  lemma PollKeepsFresh(s: Stored, start: int, p: Poll, d: int)
    requires d >= 1 && WellIssued(s, d) && Fresh(s, start, d)
    requires start <= p.check <= p.done <= start + d && p.expiration - p.done >= 5 * d
    ensures WellIssued(Polled(s, p), d) && Fresh(Polled(s, p), p.check, d)
    ensures p.done < s.expiration
  {
  }

  /** The secret's token is unexpired at every instant of every round, until the round has stored the next one. */
  ghost predicate NeverExpired(s: Stored, polls: seq<Poll>)
    decreases |polls|
  {
    polls != [] ==> polls[0].done < s.expiration && NeverExpired(Polled(s, polls[0]), polls[1..])
  }

  /** Tokens never expire while mounted: with rounds at most `d` apart and lifetimes of `5 * d` or more, however
      long (the multiplication may overflow), from any state in which that holds. */
  lemma {:induction false} TokensNeverExpire(s: Stored, start: int, polls: seq<Poll>, d: int)
    requires d >= 1 && WellIssued(s, d) && Fresh(s, start, d) && Regular(start, polls, d)
    ensures NeverExpired(s, polls)
    decreases |polls|
  {
    if polls != [] {
      PollKeepsFresh(s, start, polls[0], d);
      TokensNeverExpire(Polled(s, polls[0]), polls[0].check, polls[1..], d);
    }
  }

  /** The same, from the creation of the secret on. */
  lemma CreatedTokensNeverExpire(now: int, expiration: int, polls: seq<Poll>, d: int)
    requires d >= 1 && expiration - now >= 5 * d && Regular(now, polls, d)
    ensures NeverExpired(Issued(now, expiration), polls)
  {
    IssuedFresh(now, expiration, now, d);
    TokensNeverExpire(Issued(now, expiration), now, polls, d);
  }

  // ---------------------------------------------------------------------------------------------
  // The exact bound for one token
  // ---------------------------------------------------------------------------------------------

  /** Times at which a token issued at `times[0]` is looked at until it is found due, at most `d` apart. */
  ghost predicate Watched(s: Stored, times: seq<int>, d: int) {
    && |times| >= 1
    && (forall i :: 0 < i < |times| ==> times[i - 1] < times[i] <= times[i - 1] + d)
    && (forall i :: 0 < i < |times| - 1 ==> !Due(s, times[i]))
  }

  /** The last moment at which a look may leave the token where it is. */
  function LastLook(issued: int, s: Stored): int
    requires s.refreshAfter.Some?
  {
    if s.refreshAfter.value - 1 >= issued then s.refreshAfter.value - 1 else issued
  }

  /** A token is unexpired whenever it is looked at for the last time, for every schedule with steps of at most `d`, if
      and only if it outlives the last look that can leave it by more than `d`. */
  lemma ExactBound(issued: int, s: Stored, d: int)
    requires d >= 1 && s.refreshAfter.Some?
    ensures (forall times :: Watched(s, times, d) && times[0] == issued ==> |times| == 1 || times[|times| - 1] < s.expiration)
       <==> LastLook(issued, s) + d < s.expiration
  {
    if LastLook(issued, s) + d < s.expiration {
      forall times | Watched(s, times, d) && times[0] == issued && |times| > 1 ensures times[|times| - 1] < s.expiration {
        var n := |times| - 1;
        assert times[n] <= times[n - 1] + d;
        if n > 1 { assert !Due(s, times[n - 1]); }
      }
    } else {
      var last := LastLook(issued, s);
      var times := seq(last - issued + 1, i => issued + i) + [last + d];
      assert Watched(s, times, d);
      assert times[0] == issued && times[|times| - 1] == last + d;
    }
  }

  /** The factor five is tight: a token for 50 seconds stands rounds 10 seconds apart, but not a nanosecond more. */
  lemma FiveIsTight()
    ensures var s := Issued(0, 50 * SECOND);
      LastLook(0, s) + 10 * SECOND < s.expiration && !(LastLook(0, s) + (10 * SECOND + 1) < s.expiration)
  {
  }
}
