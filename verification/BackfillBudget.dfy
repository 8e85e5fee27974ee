/** The refilling budget for outgoing `backfill` frames (conversation-socket.ts:184-203). */
module BackfillBudgets {

  const RATE_BACKFILL_PER_MIN := 20.0
  const MS_PER_MIN := 60000.0

  datatype Budget = Budget(tokens: real, refilledAt: int)

  function Min(a: real, b: real): real { if a <= b then a else b }

  function Gained(b: Budget, now: int): real {
    ((now - b.refilledAt) as real / MS_PER_MIN) * RATE_BACKFILL_PER_MIN
  }

  function Refill(b: Budget, now: int): Budget {
    if Gained(b, now) >= 1.0
    then Budget(Min(RATE_BACKFILL_PER_MIN, b.tokens + Gained(b, now)), now)
    else b
  }

  datatype Taken = Taken(budget: Budget, granted: bool)

  function Take(b: Budget, now: int, reserve: nat): Taken {
    var r := Refill(b, now);
    if r.tokens < 1.0 + reserve as real then Taken(r, false)
    else Taken(r.(tokens := r.tokens - 1.0), true)
  }

  class BackfillBudget {
    var tokens: real
    var refilledAt: int

    ghost function Contents(): Budget
      reads this
    {
      Budget(tokens, refilledAt)
    }

    constructor (now: int)
      ensures Contents() == Budget(RATE_BACKFILL_PER_MIN, now)
    {
      tokens := RATE_BACKFILL_PER_MIN;
      refilledAt := now;
    }

    method RefillAt(now: int)
      modifies this
      ensures Contents() == Refill(old(Contents()), now)
    {
      var gained := ((now - refilledAt) as real / MS_PER_MIN) * RATE_BACKFILL_PER_MIN;
      if gained >= 1.0 {
        tokens := Min(RATE_BACKFILL_PER_MIN, tokens + gained);
        refilledAt := now;
      }
    }

    method TakeAt(now: int, reserve: nat) returns (granted: bool)
      modifies this
      ensures Taken(Contents(), granted) == Take(old(Contents()), now, reserve)
      // An accepted request leaves the reserve untouched.
      ensures granted ==> tokens >= reserve as real
    {
      RefillAt(now);
      if tokens < 1.0 + reserve as real { return false; }
      tokens := tokens - 1.0;
      return true;
    }
  }

  /** What every call keeps, once the clock has reached `now`. */
  ghost predicate Sound(b: Budget, now: int) {
    0.0 <= b.tokens <= RATE_BACKFILL_PER_MIN && b.refilledAt <= now
  }

  /** The most that can still be granted at `now`: what a refill at that moment would leave. */
  ghost function Spendable(b: Budget, now: int): real {
    var r := Refill(b, now);
    r.tokens + (now - r.refilledAt) as real / 3000.0
  }

  ghost function Cost(granted: bool): real { if granted then 1.0 else 0.0 }

  /** One call keeps the bounds, never dips into its reserve, and spends one for one. */
  lemma TakeSpends(b: Budget, now: int, reserve: nat)
    requires Sound(b, now)
    ensures var t := Take(b, now, reserve);
            && Sound(t.budget, now)
            && (t.granted ==> t.budget.tokens >= reserve as real)
            && Spendable(t.budget, now) + Cost(t.granted) <= Spendable(b, now) < 21.0
  {
    var r := Refill(b, now);
    assert Gained(b, now) == (now - b.refilledAt) as real / 3000.0;
    assert Gained(r, now) == (now - r.refilledAt) as real / 3000.0;
  }

  /** Waiting earns at most one token every three seconds. */
  lemma SpendableGrows(b: Budget, from: int, to: int)
    requires Sound(b, from) && from <= to
    ensures Sound(b, to)
    ensures Spendable(b, to) <= Spendable(b, from) + (to - from) as real / 3000.0
  {
    assert Gained(b, from) == (from - b.refilledAt) as real / 3000.0;
    assert Gained(b, to) == (to - b.refilledAt) as real / 3000.0;
    assert (to - b.refilledAt) as real == (from - b.refilledAt) as real + (to - from) as real;
  }

  datatype Call = Call(now: int, reserve: nat)

  ghost function GrantCount(b: Budget, calls: seq<Call>): nat
    decreases |calls|
  {
    if calls == [] then 0
    else
      var t := Take(b, calls[0].now, calls[0].reserve);
      (if t.granted then 1 else 0) + GrantCount(t.budget, calls[1..])
  }

  ghost function AfterCalls(b: Budget, calls: seq<Call>): Budget
    decreases |calls|
  {
    if calls == [] then b
    else AfterCalls(Take(b, calls[0].now, calls[0].reserve).budget, calls[1..])
  }

  ghost predicate Chronological(calls: seq<Call>) {
    forall i, j :: 0 <= i <= j < |calls| ==> calls[i].now <= calls[j].now
  }

  lemma {:induction false} GrantsSpend(b: Budget, calls: seq<Call>, from: int)
    requires Chronological(calls) && Sound(b, from)
    requires calls != [] ==> from <= calls[0].now
    ensures var to := if calls == [] then from else calls[|calls| - 1].now;
            && Sound(AfterCalls(b, calls), to)
            && GrantCount(b, calls) as real <= Spendable(b, from) + (to - from) as real / 3000.0
               - Spendable(AfterCalls(b, calls), to)
    decreases |calls|
  {
    if calls != [] {
      var c := calls[0];
      SpendableGrows(b, from, c.now);
      TakeSpends(b, c.now, c.reserve);
      var t := Take(b, c.now, c.reserve);
      GrantsSpend(t.budget, calls[1..], c.now);
      assert calls[1..] != [] ==> calls[1..][|calls| - 2] == calls[|calls| - 1];
    }
  }

  /**
   * With a clock that never steps back, however the requests before it went,
   * fewer than 21 + L/3000 requests pass in any window of L milliseconds.
   */
  lemma {:induction false} WindowBound(start: int, before: seq<Call>, window: seq<Call>)
    requires window != []
    requires Chronological(before + window) && start <= (before + window)[0].now
    ensures var b := AfterCalls(Budget(RATE_BACKFILL_PER_MIN, start), before);
            GrantCount(b, window) as real
            < 21.0 + (window[|window| - 1].now - window[0].now) as real / 3000.0
  {
    hide Take, Spendable;
    var all := before + window;
    assert forall i :: 0 <= i < |before| ==> before[i] == all[i];
    assert forall i :: 0 <= i < |window| ==> window[i] == all[|before| + i];
    GrantsSpend(Budget(RATE_BACKFILL_PER_MIN, start), before, start);
    var b := AfterCalls(Budget(RATE_BACKFILL_PER_MIN, start), before);
    SpendableGrows(b, if before == [] then start else before[|before| - 1].now, window[0].now);
    TakeSpends(b, window[0].now, 0);
    GrantsSpend(b, window, window[0].now);
    SpendableNonNegative(AfterCalls(b, window), window[|window| - 1].now);
  }

  lemma SpendableNonNegative(b: Budget, now: int)
    requires Sound(b, now)
    ensures Spendable(b, now) >= 0.0
  {
  }
}
