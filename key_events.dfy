/**
 * The legacy coded event, abstracted as a key identifier plus a set of
 * key-flag bits.  The concrete bit layout of the firmware's encoding macros
 * is not part of this model.  All the model relies on is that EVT_KEY_MASK
 * recovers the key from both the break and the first-press pattern, that the
 * two patterns are different flag sets, that the break pattern carries no
 * flag bit other than the break bit (a release reads as not pressed), and
 * that the first-press pattern carries a flag bit other than the break bit
 * (a leading edge reads as pressed).
 */
module KeyEvents {

  /** A key identifier as extracted by EVT_KEY_MASK.  Only ENTER and EXIT are
      special to the toolkit; every other board key is opaque. */
  datatype Key = KeyEnter | KeyExit | KeyOther(id: nat)

  /** One bit of the event's key-flag field (_MSK_KEY_FLAGS). */
  datatype FlagBit = BreakBit | FirstBit | OtherBit(n: nat)

  /** A coded event: which key, and which key-flag bits are set. */
  datatype Event = Event(key: Key, flags: set<FlagBit>)

  /** The flag pattern of a release event, EVT_KEY_BREAK(k). */
  const BreakFlags: set<FlagBit> := {BreakBit}

  /** The flag pattern of a leading-edge event, EVT_KEY_FIRST(k). */
  const FirstFlags: set<FlagBit> := {FirstBit}

  /** `evt & _KEY_PRESSED` is non-zero, where
      `_KEY_PRESSED = _MSK_KEY_FLAGS & ~_MSK_KEY_BREAK`: some key-flag bit other
      than the break bit is set. */
  function KeyPressed(e: Event): (r: bool)
    ensures r <==> exists b :: b in e.flags && b != BreakBit
  {
    var rest := e.flags - {BreakBit};
    if rest != {} then
      var b :| b in rest;
      assert b in e.flags && b != BreakBit;
      true
    else
      assert forall b :: b in e.flags && b != BreakBit ==> b in rest;
      false
  }

  /** EVT_KEY_BREAK(k): the release of key k, which does not read as pressed. */
  function EvtKeyBreak(k: Key): (e: Event)
    ensures e.key == k && e.flags == BreakFlags
    ensures !KeyPressed(e)
  {
    Event(k, BreakFlags)
  }

  /** EVT_KEY_FIRST(k): the leading edge of key k; it reads as pressed and is
      never the break event of any key. */
  function EvtKeyFirst(k: Key): (e: Event)
    ensures e.key == k && e.flags == FirstFlags
    ensures KeyPressed(e)
    ensures forall k' :: e != EvtKeyBreak(k')
  {
    assert FirstBit in FirstFlags - {BreakBit};
    Event(k, FirstFlags)
  }
}
