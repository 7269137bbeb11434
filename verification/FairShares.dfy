// How a budget is shared among the IIs still to be tried, and when the shares cover what the searches cost.

module FairShares {
  // Half of what is left, rounded up; everything at the last II.
  function FairShareLimit(maximum: nat, used: nat, attemptsRemaining: nat): nat {
    if used >= maximum then used
    else
      var remaining := maximum - used;
      used + (if attemptsRemaining == 1 then remaining else remaining / 2 + remaining % 2)
  }

  lemma LimitWithin(maximum: nat, used: nat, attemptsRemaining: nat)
    requires used <= maximum
    ensures used <= FairShareLimit(maximum, used, attemptsRemaining) <= maximum
    ensures used < maximum ==> used < FairShareLimit(maximum, used, attemptsRemaining)
  {
  }

  function PowerOfTwo(k: nat): nat {
    if k == 0 then 1 else 2 * PowerOfTwo(k - 1)
  }

  // `used` lists the counter before each of the first of n attempts; every attempt stays within its share.
  ghost predicate Spending(maximum: nat, used: seq<nat>, n: nat) {
    && 0 < |used| <= n && used[0] <= maximum
    && forall i :: 0 <= i < |used| - 1 ==> used[i] <= used[i + 1] <= FairShareLimit(maximum, used[i], n - i)
  }

  lemma {:induction false} SharesLeft(maximum: nat, used: seq<nat>, n: nat, i: nat)
    requires Spending(maximum, used, n) && i < |used|
    requires maximum - used[0] >= PowerOfTwo(n - 1)
    ensures used[i] <= maximum && maximum - used[i] >= PowerOfTwo(n - 1 - i)
  {
    if i > 0 {
      SharesLeft(maximum, used, n, i - 1);
      LimitWithin(maximum, used[i - 1], n - (i - 1));
    }
  }

  // Spending every share in full.
  ghost predicate Spendthrift(maximum: nat, used: seq<nat>, n: nat) {
    Spending(maximum, used, n) && forall i :: 0 <= i < |used| - 1 ==> used[i + 1] == FairShareLimit(maximum, used[i], n - i)
  }

  lemma {:induction false} SharesRunOut(maximum: nat, used: seq<nat>, n: nat, i: nat)
    requires Spendthrift(maximum, used, n) && i < |used|
    requires maximum - used[0] < PowerOfTwo(n - 1)
    ensures used[i] <= maximum && maximum - used[i] < PowerOfTwo(n - 1 - i)
  {
    if i > 0 {
      SharesRunOut(maximum, used, n, i - 1);
      LimitWithin(maximum, used[i - 1], n - (i - 1));
    }
  }

  /** Every II is sure of a unit of budget, however the earlier ones spent theirs, exactly from 2^(n-1) units on. */
  lemma FairToEveryII(maximum: nat, used: seq<nat>, n: nat)
    requires Spending(maximum, used, n)
    ensures maximum - used[0] >= PowerOfTwo(n - 1) ==>
      forall i :: 0 <= i < |used| ==> FairShareLimit(maximum, used[i], n - i) > used[i]
    ensures maximum - used[0] < PowerOfTwo(n - 1) && Spendthrift(maximum, used, n) && |used| == n ==>
      FairShareLimit(maximum, used[n - 1], 1) == used[n - 1]
  {
    if maximum - used[0] >= PowerOfTwo(n - 1) {
      forall i | 0 <= i < |used|
        ensures FairShareLimit(maximum, used[i], n - i) > used[i]
      {
        SharesLeft(maximum, used, n, i);
        PowerPositive(n - 1 - i);
        LimitWithin(maximum, used[i], n - i);
      }
    } else if Spendthrift(maximum, used, n) && |used| == n {
      SharesRunOut(maximum, used, n, n - 1);
    }
  }

  lemma PowerPositive(k: nat)
    ensures PowerOfTwo(k) >= 1
  {
  }

  // ----- Covering costs -----

  function Total(costs: seq<nat>): nat {
    if costs == [] then 0 else Total(costs[..|costs| - 1]) + costs[|costs| - 1]
  }

  /** Each of the first of n attempts can spend its cost within its share, the ones before it having spent theirs. */
  ghost predicate Covers(maximum: nat, costs: seq<nat>, n: nat) {
    && |costs| <= n
    && forall i :: 0 <= i < |costs| ==> Total(costs[..i]) + costs[i] <= FairShareLimit(maximum, Total(costs[..i]), n - i)
  }

  lemma TotalMore(costs: seq<nat>, i: nat)
    requires i < |costs|
    ensures Total(costs[..i + 1]) == Total(costs[..i]) + costs[i]
  {
    assert costs[..i + 1][..i] == costs[..i];
  }

  // The more was used, the less the next share adds.
  lemma ShareShrinks(maximum: nat, used: nat, more: nat, attemptsRemaining: nat)
    requires used <= more
    ensures FairShareLimit(maximum, more, attemptsRemaining) - more <=
            FairShareLimit(maximum, used, attemptsRemaining) - used
  {
  }

  // Whoever used less than the costs so far has room for the next one.
  lemma RoomLeft(maximum: nat, costs: seq<nat>, n: nat, i: nat, used: nat)
    requires Covers(maximum, costs, n) && i < |costs| && used <= Total(costs[..i])
    ensures used + costs[i] <= FairShareLimit(maximum, used, n - i)
  {
    ShareShrinks(maximum, used, Total(costs[..i]), n - i);
  }

  // Whoever used more than the costs so far and still stayed within the share shows that it has room for the next one.
  lemma RoomShown(maximum: nat, costs: seq<nat>, n: nat, i: nat, used: nat, after: nat)
    requires i < |costs| <= n && Total(costs[..i]) <= used
    requires used + costs[i] <= after <= FairShareLimit(maximum, used, n - i)
    ensures Total(costs[..i]) + costs[i] <= FairShareLimit(maximum, Total(costs[..i]), n - i)
  {
    ShareShrinks(maximum, Total(costs[..i]), used, n - i);
  }

  lemma {:induction false} TotalAtMost(costs: seq<nat>, i: nat, dearest: nat)
    requires i <= |costs| && forall j :: 0 <= j < |costs| ==> costs[j] <= dearest
    ensures Total(costs[..i]) <= i * dearest
  {
    if i > 0 {
      TotalAtMost(costs, i - 1, dearest);
      TotalMore(costs, i - 1);
    }
  }

  /** The dearest cost for every attempt is enough. */
  lemma DearestForEach(maximum: nat, costs: seq<nat>, n: nat, dearest: nat)
    requires |costs| <= n && maximum >= n * dearest
    requires forall j :: 0 <= j < |costs| ==> costs[j] <= dearest
    ensures Covers(maximum, costs, n)
  {
    forall i | 0 <= i < |costs|
      ensures Total(costs[..i]) + costs[i] <= FairShareLimit(maximum, Total(costs[..i]), n - i)
    {
      TotalAtMost(costs, i, dearest);
      StillLeft(maximum, n, i, dearest, Total(costs[..i]));
      ShareAtLeast(maximum, Total(costs[..i]), n - i, dearest);
    }
  }

  lemma StillLeft(maximum: nat, n: nat, i: nat, dearest: nat, used: nat)
    requires i < n && maximum >= n * dearest && used <= i * dearest
    ensures maximum - used >= if n - i == 1 then dearest else 2 * dearest
  {
    var rest := n - i;
    assert rest * dearest == n * dearest - i * dearest;
    if rest > 1 {
      assert rest * dearest == 2 * dearest + (rest - 2) * dearest;
    }
  }

  lemma ShareAtLeast(maximum: nat, used: nat, attemptsRemaining: nat, amount: nat)
    requires maximum - used >= if attemptsRemaining == 1 then amount else 2 * amount
    ensures used + amount <= FairShareLimit(maximum, used, attemptsRemaining)
  {
  }
}
