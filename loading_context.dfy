/** The app-wide loading indicator: a `loading` flag and a count of outstanding loads, raised by
    `startLoading` and lowered by `stopLoading`, which never lets the count go below zero. */
module LoadingContext {

  /** The provider's two state variables at one moment. */
  datatype LoadState = LoadState(loading: bool, loadingCount: int)

  /** The provider's initial state. */
  const Idle: LoadState := LoadState(false, 0)

  /** The flag shows exactly whether loads are outstanding, and the count is never negative. */
  predicate Consistent(s: LoadState) {
    s.loadingCount >= 0 && (s.loading <==> s.loadingCount > 0)
  }

  /** `startLoading`: one more outstanding load, and the flag raised. */
  function AfterStart(s: LoadState): (r: LoadState)
    ensures r.loading && r.loadingCount == s.loadingCount + 1
    ensures Consistent(s) ==> Consistent(r)
  {
    LoadState(true, s.loadingCount + 1)
  }

  /** `stopLoading`: one fewer, clamped at zero; reaching zero lowers the flag, otherwise the flag
      stays as it was. */
  function AfterStop(s: LoadState): (r: LoadState)
    ensures Consistent(s) ==> Consistent(r)
    ensures s.loadingCount <= 1 ==> r == Idle
    ensures s.loadingCount > 1 ==> r.loadingCount == s.loadingCount - 1 && r.loading == s.loading
  {
    var newCount := s.loadingCount - 1;
    if newCount <= 0 then LoadState(false, 0) else LoadState(s.loading, newCount)
  }

  datatype Call = Start | Stop

  /** The state after a sequence of calls, in order. */
  function Run(s: LoadState, calls: seq<Call>): LoadState
    decreases |calls|
  {
    if calls == [] then s
    else Run(if calls[0] == Start then AfterStart(s) else AfterStop(s), calls[1..])
  }

  function Repeat(c: Call, n: nat): (r: seq<Call>)
    ensures |r| == n && forall i :: 0 <= i < n ==> r[i] == c
  {
    if n == 0 then [] else [c] + Repeat(c, n - 1)
  }

  /** Every run from the initial state keeps the flag and the count in step. */
  lemma {:induction false} RunStaysConsistent(s: LoadState, calls: seq<Call>)
    requires Consistent(s)
    ensures Consistent(Run(s, calls))
    decreases |calls|
  {
    if calls != [] {
      var next := if calls[0] == Start then AfterStart(s) else AfterStop(s);
      RunStaysConsistent(next, calls[1..]);
    }
  }

  /** A stop on the idle state leaves it idle. */
  lemma StopWhenIdle()
    ensures AfterStop(Idle) == Idle
  {
  }

  /** A stop undoes a start. */
  lemma StopUndoesStart(s: LoadState)
    requires Consistent(s)
    ensures AfterStop(AfterStart(s)) == s
  {
  }

  lemma {:induction false} RunConcat(s: LoadState, a: seq<Call>, b: seq<Call>)
    ensures Run(s, a + b) == Run(Run(s, a), b)
    decreases |a|
  {
    if a != [] {
      assert (a + b)[0] == a[0] && (a + b)[1..] == a[1..] + b;
      var next := if a[0] == Start then AfterStart(s) else AfterStop(s);
      assert Run(s, a + b) == Run(next, a[1..] + b);
      assert Run(s, a) == Run(next, a[1..]);
      RunConcat(next, a[1..], b);
    } else {
      assert a + b == b;
    }
  }

  /** `n` starts raise the count by `n`. */
  lemma {:induction false} StartsCount(s: LoadState, n: nat)
    requires Consistent(s)
    ensures n > 0 ==> Run(s, Repeat(Start, n)) == LoadState(true, s.loadingCount + n)
    ensures n == 0 ==> Run(s, Repeat(Start, n)) == s
    decreases n
  {
    if n > 0 {
      assert Repeat(Start, n) == [Start] + Repeat(Start, n - 1);
      StartsCount(AfterStart(s), n - 1);
    }
  }

  /** From `n` outstanding loads with the flag raised, `n` stops return to the provider's state with
      `c` outstanding loads for any `c` reached on the way back, and in particular to idle. */
  lemma {:induction false} StopsCount(c: nat, n: nat)
    ensures Run(LoadState(c + n > 0, c + n), Repeat(Stop, n)) == LoadState(c > 0, c)
  {
    if n > 0 {
      assert Repeat(Stop, n) == [Stop] + Repeat(Stop, n - 1);
      StopsCount(c, n - 1);
    }
  }

  /** Any `n` starts followed by `n` stops bring a consistent state back to itself; from the initial
      state that is idle again. */
  lemma Balanced(s: LoadState, n: nat)
    requires Consistent(s)
    ensures Run(s, Repeat(Start, n) + Repeat(Stop, n)) == s
  {
    RunConcat(s, Repeat(Start, n), Repeat(Stop, n));
    StartsCount(s, n);
    StopsCount(s.loadingCount, n);
  }

  /** The provider as a stateful object. */
  class LoadingProvider {
    var loading: bool
    var loadingCount: int

    ghost predicate Valid()
      reads this
    {
      Consistent(LoadState(loading, loadingCount))
    }

    constructor ()
      ensures Valid() && loading == false && loadingCount == 0
    {
      loading := false;
      loadingCount := 0;
    }

    method StartLoading()
      requires Valid()
      modifies this
      ensures Valid()
      ensures LoadState(loading, loadingCount) == AfterStart(old(LoadState(loading, loadingCount)))
    {
      loadingCount := loadingCount + 1;
      loading := true;
    }

    method StopLoading()
      requires Valid()
      modifies this
      ensures Valid()
      ensures LoadState(loading, loadingCount) == AfterStop(old(LoadState(loading, loadingCount)))
    {
      var newCount := loadingCount - 1;
      if newCount <= 0 {
        loading := false;
        loadingCount := 0;
      } else {
        loadingCount := newCount;
      }
    }
  }
}
