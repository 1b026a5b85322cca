/** The first-run store: `isFirstTime`, starting true, flipped by `toggleFirstTime`. */
module SpaceXStore {

  /** The value after `n` toggles from `start`. */
  function AfterToggles(start: bool, n: nat): (flag: bool) {
    if n == 0 then start else !AfterToggles(start, n - 1)
  }

  /** After n toggles the flag is back at its start value exactly when n is even. */
  lemma {:induction false} TogglesParity(start: bool, n: nat)
    ensures AfterToggles(start, n) == (start == (n % 2 == 0))
  {
    if n > 0 {
      TogglesParity(start, n - 1);
    }
  }

  /** Two toggles restore the value. */
  lemma DoubleToggle(start: bool, n: nat)
    ensures AfterToggles(start, n + 2) == AfterToggles(start, n)
  {
  }

  class FirstRunStore {
    var isFirstTime: bool
    ghost var toggles: nat     // how many times toggleFirstTime ran

    ghost predicate Valid()
      reads this
    {
      isFirstTime == AfterToggles(true, toggles)
    }

    constructor ()
      ensures Valid() && isFirstTime && toggles == 0
    {
      isFirstTime := true;
      toggles := 0;
    }

    /** The argument callers pass ("not_first", "individual") is ignored. */
    method ToggleFirstTime()
      requires Valid()
      modifies this
      ensures Valid()
      ensures isFirstTime == !old(isFirstTime)
      ensures toggles == old(toggles) + 1
    {
      isFirstTime := !isFirstTime;
      toggles := toggles + 1;
    }

    method IsFirstTime() returns (first: bool)
      requires Valid()
      ensures first <==> toggles % 2 == 0
    {
      TogglesParity(true, toggles);
      first := isFirstTime;
    }
  }
}
