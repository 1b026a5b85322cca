/** The current colour variant shared by themed components, and the containers that set it. */
module VariantStore {
  import opened Wrappers
  import C = Colors
  import T = Themed

  class VariantState {
    var currentVariant: Option<T.Variant>

    constructor ()
      ensures currentVariant == None
    {
      currentVariant := None;
    }

    /** Sets the variant to exactly `variant`, undefined included. */
    method SetVariant(variant: Option<T.Variant>)
      modifies this
      ensures currentVariant == variant
    {
      currentVariant := variant;
    }
  }

  /** The value after a series of `setVariant` calls. */
  function Replay(current: Option<T.Variant>, writes: seq<Option<T.Variant>>): (final: Option<T.Variant>)
    decreases |writes|
  {
    if |writes| == 0 then current else Replay(writes[0], writes[1..])
  }

  /** The last write wins. */
  lemma {:induction false} LastWriteWins(current: Option<T.Variant>, writes: seq<Option<T.Variant>>)
    requires |writes| > 0
    ensures Replay(current, writes) == writes[|writes| - 1]
    decreases |writes|
  {
    if |writes| > 1 {
      LastWriteWins(writes[0], writes[1..]);
    }
  }

  /** A container's effect: mount sets its variant, unmount resets to undefined. */
  datatype ContainerEvent = Mount(variant: Option<C.SchemeColor>) | Unmount

  function EventWrite(e: ContainerEvent): (written: Option<T.Variant>) {
    match e
    case Mount(v) => if v.Some? then Some(T.Scheme(v.value)) else None
    case Unmount => None
  }

  function ContainerWrites(events: seq<ContainerEvent>): (writes: seq<Option<T.Variant>>)
    ensures |writes| == |events|
    ensures forall k :: 0 <= k < |events| ==> writes[k] == EventWrite(events[k])
  {
    if |events| == 0 then [] else [EventWrite(events[0])] + ContainerWrites(events[1..])
  }

  /**
   * Unmounting an inner container leaves no variant, not the outer container's:
   * nested containers do not restore what was set before them.
   */
  lemma NestedUnmountClears(outer: C.SchemeColor, inner: C.SchemeColor)
    ensures Replay(None, ContainerWrites([Mount(Some(outer)), Mount(Some(inner)), Unmount])) == None
  {
    var events := [Mount(Some(outer)), Mount(Some(inner)), Unmount];
    LastWriteWins(None, ContainerWrites(events));
  }
}
