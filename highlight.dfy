/**
 * The highlight state that every control-point variant keeps in its material:
 * `opacity`, `transparent` and `needsUpdate`. The three variants write the
 * same values, so the two looks and the laws of a sequence of calls are
 * stated once here.
 */
module Highlight {
  import opened Three

  /** The three material fields that make up the highlight state. */
  datatype Look = Look(opacity: real, transparent: bool, needsUpdate: bool)

  /** The look after `enableHighlight` / `onDragStart`: half transparent, update requested. */
  const Highlighted: Look := Look(0.5, true, true)

  /** The look after `disableHighlight` / `onDragEnd`: opaque, no update requested. */
  const Normal: Look := Look(1.0, false, false)

  /** The highlight state currently held by a material. */
  function LookOf(m: Material): Look
    reads m
  {
    Look(m.opacity, m.transparent, m.needsUpdate)
  }

  /** The two calls a control point accepts: turn the highlight on, or turn it off. */
  datatype Call = Enable | Disable

  /** Each call assigns all three fields, whatever they held before. */
  function LookAfter(c: Call): Look
  {
    match c
    case Enable => Highlighted
    case Disable => Normal
  }

  /** The look after a sequence of calls, applied in order from `start`. */
  function AfterCalls(start: Look, calls: seq<Call>): Look
    decreases |calls|
  {
    if calls == [] then start else AfterCalls(LookAfter(calls[0]), calls[1..])
  }

  /** Only the last call matters: the state machine forgets everything before it. */
  lemma {:induction false} LastCallDecides(start: Look, calls: seq<Call>)
    ensures AfterCalls(start, calls) == if calls == [] then start else LookAfter(calls[|calls| - 1])
    decreases |calls|
  {
    if calls != [] {
      LastCallDecides(LookAfter(calls[0]), calls[1..]);
    }
  }

  /** Repeating a call changes nothing further. */
  lemma CallIsIdempotent(start: Look, c: Call, calls: seq<Call>)
    ensures AfterCalls(start, calls + [c, c]) == AfterCalls(start, calls + [c])
  {
    LastCallDecides(start, calls + [c, c]);
    LastCallDecides(start, calls + [c]);
  }

  /** Enabling and then disabling ends in the normal look, whatever came before. */
  lemma EnableThenDisableIsNormal(start: Look, calls: seq<Call>)
    ensures AfterCalls(start, calls + [Enable, Disable]) == Normal
  {
    LastCallDecides(start, calls + [Enable, Disable]);
  }
}
