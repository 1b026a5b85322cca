/** The global loader flag and the overlay it drives. */
module LoaderStore {

  datatype LoaderAction = Show | Hide

  /** The value after dispatching `actions` in order from `isLoading`. */
  function Replay(isLoading: bool, actions: seq<LoaderAction>): (final: bool)
    decreases |actions|
  {
    if |actions| == 0 then isLoading
    else Replay(actions[0] == Show, actions[1..])
  }

  /** The last action decides the flag, whatever came before. */
  lemma {:induction false} LastActionWins(isLoading: bool, actions: seq<LoaderAction>)
    requires |actions| > 0
    ensures Replay(isLoading, actions) == (actions[|actions| - 1] == Show)
    decreases |actions|
  {
    if |actions| > 1 {
      LastActionWins(actions[0] == Show, actions[1..]);
    }
  }

  /** Repeating an action changes nothing. */
  lemma Idempotent(isLoading: bool, a: LoaderAction)
    ensures Replay(isLoading, [a, a]) == Replay(isLoading, [a])
  {
    assert [a, a][1..] == [a];
  }

  class Loader {
    var isLoading: bool

    constructor ()
      ensures !isLoading
    {
      isLoading := false;
    }

    method ShowLoader()
      modifies this
      ensures isLoading
    {
      isLoading := true;
    }

    method HideLoader()
      modifies this
      ensures !isLoading
    {
      isLoading := false;
    }

    /** The overlay renders nothing exactly when the flag is false. */
    method OverlayVisible() returns (visible: bool)
      ensures visible <==> isLoading
    {
      if !isLoading {
        return false;
      }
      visible := true;
    }
  }
}
