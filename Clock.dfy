/**
 * The round timer: a one-second tick that counts `timeLeft` down from GAME_TIME.
 * The tick runs only while its effect is installed, that is while the time left
 * is positive, and the tick that takes it to 0 is the one that ends the round.
 */
module Clock {
  const GameTime: nat := 60

  /** The `setTimeLeft(prev => ...)` updater: never below 0; 0 exactly when the round expires. */
  function Countdown(prev: int): (next: int)
    ensures next >= 0
    ensures next == 0 <==> prev <= 1
    ensures prev > 1 ==> next == prev - 1
  {
    if prev <= 1 then 0 else prev - 1
  }

  /** Whether this tick expires the round (the branch that clears the timer and may call endGame). */
  predicate Expires(prev: int) {
    prev <= 1
  }

  /** The time left after n ticks from t; a tick happens only while the time left is positive. */
  function Run(t: int, n: nat): int {
    if n == 0 || t <= 0 then t else Run(Countdown(t), n - 1)
  }

  /** How many of those n ticks expire the round. */
  function Expiries(t: int, n: nat): nat {
    if n == 0 || t <= 0 then 0 else (if Expires(t) then 1 else 0) + Expiries(Countdown(t), n - 1)
  }

  /** From a non-negative time, n ticks leave exactly max(t - n, 0). */
  lemma {:induction false} RunCountsDown(t: int, n: nat)
    requires t >= 0
    ensures Run(t, n) == if t - n > 0 then t - n else 0
  {
    if n > 0 && t > 0 {
      RunCountsDown(Countdown(t), n - 1);
    }
  }

  /** The round expires at most once, and exactly once when at least t ticks run. */
  lemma {:induction false} ExpiresOnce(t: int, n: nat)
    requires t >= 0
    ensures Expiries(t, n) == if 0 < t <= n then 1 else 0
  {
    if n > 0 && t > 0 {
      ExpiresOnce(Countdown(t), n - 1);
    }
  }

  /** A full round: the 60th tick ends it, no earlier tick does, and the timer then stays at 0. */
  lemma FullRound(n: nat)
    ensures n < GameTime ==> Run(GameTime, n) == GameTime - n && Expiries(GameTime, n) == 0
    ensures n >= GameTime ==> Run(GameTime, n) == 0 && Expiries(GameTime, n) == 1
  {
    RunCountsDown(GameTime, n);
    ExpiresOnce(GameTime, n);
  }
}
