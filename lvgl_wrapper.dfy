/**
 * The three input-device read callbacks that the graphics toolkit polls once
 * per tick (keyboard, touch, rotary encoder), with the key translation and the
 * legacy-window dispatch behind the keyboard one.
 *
 * Hardware and toolkit queries are parameters: the pending coded event (the
 * legacy queue's isEvent/getWindowEvent), the keyboard device's focus group,
 * the back layer's window, the touch panel sample and the encoder value.
 * The toolkit's input record is a value; each read takes the caller's record
 * and returns it as the callback leaves it.
 */
module LvglWrapper {
  import opened Wrappers
  import opened KeyEvents

  datatype IndevState = Released | Pressed

  /** The toolkit's input record (lv_indev_data_t): pointer position, key
      code, encoder step and pressed state. */
  datatype IndevData = IndevData(x: int, y: int, key: nat, encDiff: int, state: IndevState)

  /** A zero-initialised record, the value of the static backups at start-up. */
  const ZeroData := IndevData(0, 0, 0, 0, Released)

  /** The toolkit's key codes for enter and escape. */
  const LV_KEY_ENTER: nat := 10
  const LV_KEY_ESC: nat := 27

  /** Identity of a legacy window (a non-null Window*). */
  type WindowId = nat

  /** A toolkit object; its user data is the back-reference to the legacy
      window it represents, if any. */
  datatype Obj = Obj(userData: Option<WindowId>)

  /** A focus group; it may have no focused object. */
  datatype Group = Group(focused: Option<Obj>)

  /** The callback a legacy window receives from the keyboard shim. */
  datatype Callback = NoCallback | OnClicked(w: WindowId) | OnCancel(w: WindowId) | OnEvent(w: WindowId, evt: Event)

  /** The device kinds, in the order they are registered with the toolkit. */
  datatype DeviceKind = Pointer | Encoder | Keypad
  const RegistrationOrder: seq<DeviceKind> := [Pointer, Encoder, Keypad]

  /** get_focus_obj: the focused object of the device's group; none when the
      device has no group or the group has no focused object. */
  function GetFocusObj(group: Option<Group>): (r: Option<Obj>)
    ensures r.None? <==> group.None? || group.value.focused.None?
    ensures r.Some? ==> group.Some? && r == group.value.focused
  {
    match group
    case None => None
    case Some(g) => g.focused
  }

  /** The keys the toolkit understands. */
  predicate Translatable(k: Key)
  {
    k == KeyEnter || k == KeyExit
  }

  /** The inverse of the key part of the translation: which hardware key a
      toolkit key code stands for. */
  function KeyOfLvKey(code: nat): (r: Option<Key>)
    ensures r == Some(KeyEnter) <==> code == LV_KEY_ENTER
    ensures r == Some(KeyExit) <==> code == LV_KEY_ESC
    ensures r.Some? ==> Translatable(r.value)
  {
    if code == LV_KEY_ENTER then Some(KeyEnter)
    else if code == LV_KEY_ESC then Some(KeyExit)
    else None
  }

  /** evt_to_indev_data: translate a coded event into the toolkit's key
      record.  It fails, leaving the record alone, for every key except ENTER
      and EXIT; on success only the key and the state are written, the key
      maps back to the event's key, and the state is pressed exactly when the
      event carries a key-flag bit other than the break bit. */
  function EvtToIndevData(evt: Event, data: IndevData): (r: Option<IndevData>)
    ensures r.Some? <==> Translatable(evt.key)
    ensures r.Some? ==> KeyOfLvKey(r.value.key) == Some(evt.key)
    ensures r.Some? ==> (r.value.state == Pressed <==> KeyPressed(evt))
    ensures r.Some? ==> r.value.x == data.x && r.value.y == data.y && r.value.encDiff == data.encDiff
  {
    var code :=
      match evt.key
      case KeyEnter => LV_KEY_ENTER
      case KeyExit => LV_KEY_ESC
      case KeyOther(_) => 0;
    if !Translatable(evt.key) then None
    else Some(data.(key := code, state := if KeyPressed(evt) then Pressed else Released))
  }

  /** The toolkit sees a release of ENTER as a released ENTER key and the
      leading edge of EXIT as a pressed ESC key. */
  lemma BreakReleasedFirstPressed(data: IndevData)
    ensures EvtToIndevData(EvtKeyBreak(KeyEnter), data) == Some(data.(key := LV_KEY_ENTER, state := Released))
    ensures EvtToIndevData(EvtKeyFirst(KeyExit), data) == Some(data.(key := LV_KEY_ESC, state := Pressed))
  {
  }

  /** dispatch_kb_event: which callback, if any, a legacy window receives for
      a coded event.  A null window gets none; the release of ENTER clicks,
      the leading edge of EXIT cancels, every other event of a key other than
      ENTER is forwarded, and the remaining ENTER events are swallowed. */
  function DispatchKbEvent(w: Option<WindowId>, evt: Event): (r: Callback)
    ensures w.None? ==> r == NoCallback
    ensures r != NoCallback ==> w == Some(r.w)
    ensures r.OnClicked? <==> w.Some? && evt == EvtKeyBreak(KeyEnter)
    ensures r.OnCancel? <==> w.Some? && evt == EvtKeyFirst(KeyExit)
    ensures r.OnEvent? <==> w.Some? && evt.key != KeyEnter && evt != EvtKeyFirst(KeyExit)
    ensures r.OnEvent? ==> r.evt == evt
    ensures r == NoCallback && w.Some? <==> w.Some? && evt.key == KeyEnter && evt != EvtKeyBreak(KeyEnter)
  {
    if w.None? then NoCallback
    else if evt == Event(KeyEnter, BreakFlags) then OnClicked(w.value)
    else if evt == Event(KeyExit, FirstFlags) then OnCancel(w.value)
    else if evt.key != KeyEnter then OnEvent(w.value, evt)
    else NoCallback
  }

  /** Keyboard shim state: the record last reported to the toolkit. */
  class KeyboardShim {
    var backup: IndevData

    constructor ()
      ensures backup == ZeroData
    {
      backup := ZeroData;
    }

    /** backup_kb_data */
    method BackupData(data: IndevData)
      modifies this
      ensures backup == data
    {
      backup := data;
    }

    /** copy_kb_data_backup */
    method CopyBackup() returns (data: IndevData)
      ensures data == backup
    {
      data := backup;
    }

    /** keyboardDriverRead: the record reported this tick and the legacy
        callback fired, if any.  With no pending event the saved record is
        replayed.  With no focused object the event goes to the back layer's
        window and the record, with key 0, is saved.  With a focused object an
        untranslatable key goes to that object's window and the saved record
        is kept; a translatable one is reported to the toolkit and saved. */
    method Read(data: IndevData, pending: Option<Event>, group: Option<Group>, back: Option<WindowId>)
      returns (out: IndevData, call: Callback)
      modifies this
      ensures pending.None? ==> out == old(backup) && backup == old(backup) && call == NoCallback
      ensures pending.Some? && GetFocusObj(group).None? ==>
        out == data.(key := 0) && backup == out && call == DispatchKbEvent(back, pending.value)
      ensures pending.Some? && GetFocusObj(group).Some? && !Translatable(pending.value.key) ==>
        out == data.(key := 0) && backup == old(backup) &&
        call == DispatchKbEvent(GetFocusObj(group).value.userData, pending.value)
      ensures pending.Some? && GetFocusObj(group).Some? && Translatable(pending.value.key) ==>
        Some(out) == EvtToIndevData(pending.value, data.(key := 0)) && backup == out && call == NoCallback
    {
      out := data.(key := 0);
      call := NoCallback;
      if pending.Some? {
        var evt := pending.value;
        var obj := GetFocusObj(group);
        if obj.None? {
          call := DispatchKbEvent(back, evt);
          BackupData(out);
          return;
        }
        var translated := EvtToIndevData(evt, out);
        if translated.None? {
          call := DispatchKbEvent(obj.value.userData, evt);
          return;
        }
        out := translated.value;
        BackupData(out);
        return;
      }
      out := CopyBackup();
    }
  }

  /** A release of ENTER: with a focused object the toolkit sees a released
      ENTER key and no legacy callback fires; with nothing focused the back
      layer's window gets exactly the click. */
  method EnterReleaseRouting(w: WindowId, obj: Obj) returns (focused: IndevData, focusedCall: Callback, unfocusedCall: Callback)
    ensures focused.key == LV_KEY_ENTER && focused.state == Released && focusedCall == NoCallback
    ensures unfocusedCall == OnClicked(w)
  {
    var kb := new KeyboardShim();
    focused, focusedCall := kb.Read(ZeroData, Some(EvtKeyBreak(KeyEnter)), Some(Group(Some(obj))), Some(w));
    var _, call := kb.Read(ZeroData, Some(EvtKeyBreak(KeyEnter)), Some(Group(None)), Some(w));
    unfocusedCall := call;
  }

  /** A key the toolkit does not know, with a focused object, is forwarded to
      that object's window; this tick the toolkit gets the caller's record
      with key 0, the saved record is left alone, and the next tick without an
      event replays that saved record. */
  method UntranslatableRedirect(id: nat, w: WindowId) returns (call: Callback, out: IndevData, replay: IndevData)
    ensures call == OnEvent(w, EvtKeyFirst(KeyOther(id)))
    ensures out.key == 0
    ensures replay == ZeroData
  {
    var kb := new KeyboardShim();
    out, call := kb.Read(ZeroData, Some(EvtKeyFirst(KeyOther(id))), Some(Group(Some(Obj(Some(w))))), None);
    var c;
    replay, c := kb.Read(out, None, None, None);
  }

  /** The phase of a touch sample; TeOther stands for any further phase of
      the panel driver's enumeration. */
  datatype TouchEvent = TeNone | TeDown | TeUp | TeSlide | TeOther(code: nat)

  /** A touch panel sample. */
  datatype TouchState = TouchState(event: TouchEvent, x: int, y: int)

  /** copy_ts_to_indev_data: the sample's position, and nothing else, is
      written into the record. */
  function CopyTsToIndevData(st: TouchState, data: IndevData): (r: IndevData)
    ensures r.x == st.x && r.y == st.y
    ensures r.key == data.key && r.encDiff == data.encDiff && r.state == data.state
  {
    data.(x := st.x, y := st.y)
  }

  /** Touch shim state.  `hardwareTouch` is the HARDWARE_TOUCH build switch:
      without it the read callback does nothing. */
  class TouchShim {
    const hardwareTouch: bool
    var backup: IndevData

    constructor (hardwareTouch: bool)
      ensures this.hardwareTouch == hardwareTouch && backup == ZeroData
    {
      this.hardwareTouch := hardwareTouch;
      backup := ZeroData;
    }

    /** backup_touch_data */
    method BackupData(data: IndevData)
      modifies this
      ensures backup == data
    {
      backup := data;
    }

    /** copy_touch_data_backup */
    method CopyBackup() returns (data: IndevData)
      ensures data == backup
    {
      data := backup;
    }

    /** touchDriverRead: with no sample the saved record is replayed; DOWN and
        SLIDE report pressed at the sample's position, NONE leaves the record
        as it came, any other phase reports released at the sample's
        position; after any sample the reported record is saved. */
    method Read(data: IndevData, sample: Option<TouchState>) returns (out: IndevData)
      modifies this
      ensures !hardwareTouch ==> out == data && backup == old(backup)
      ensures hardwareTouch && sample.None? ==> out == old(backup) && backup == old(backup)
      ensures hardwareTouch && sample.Some? ==> backup == out
      ensures hardwareTouch && sample.Some? && sample.value.event == TeNone ==> out == data
      ensures hardwareTouch && sample.Some? && sample.value.event in {TeDown, TeSlide} ==>
        out == data.(state := Pressed, x := sample.value.x, y := sample.value.y)
      ensures hardwareTouch && sample.Some? && sample.value.event !in {TeNone, TeDown, TeSlide} ==>
        out == data.(state := Released, x := sample.value.x, y := sample.value.y)
    {
      out := data;
      if !hardwareTouch {
        return;
      }
      if sample.None? {
        out := CopyBackup();
        return;
      }
      var st := sample.value;
      if st.event == TeNone {
      } else if st.event == TeDown || st.event == TeSlide {
        out := out.(state := Pressed);
        out := CopyTsToIndevData(st, out);
      } else {
        out := out.(state := Released);
        out := CopyTsToIndevData(st, out);
      }
      BackupData(out);
    }
  }

  /** A press at (10,20), a slide to (12,22) and a lift there are reported as
      pressed, pressed, released at those positions; a following tick with no
      sample replays the last one. */
  method TouchPressSlideLift() returns (reported: seq<IndevData>)
    ensures |reported| == 4
    ensures reported[0].state == Pressed && reported[0].x == 10 && reported[0].y == 20
    ensures reported[1].state == Pressed && reported[1].x == 12 && reported[1].y == 22
    ensures reported[2].state == Released && reported[2].x == 12 && reported[2].y == 22
    ensures reported[3] == reported[2]
  {
    var t := new TouchShim(true);
    var r0 := t.Read(ZeroData, Some(TouchState(TeDown, 10, 20)));
    var r1 := t.Read(r0, Some(TouchState(TeSlide, 12, 22)));
    var r2 := t.Read(r1, Some(TouchState(TeUp, 12, 22)));
    var r3 := t.Read(ZeroData, None);
    reported := [r0, r1, r2, r3];
  }

  /** C integer division, which truncates toward zero. */
  function DivTrunc(a: int, b: int): (q: int)
    requires b > 0
    ensures a >= 0 ==> 0 <= q && q * b <= a < q * b + b
    ensures a < 0 ==> q <= 0 && q * b - b < a <= q * b
  {
    var n := if a >= 0 then a else -a;
    DivFacts(n, b);
    if a >= 0 then n / b else -(n / b)
  }

  /** Dafny's division of a non-negative number by a positive one. */
  lemma {:induction false} DivFacts(n: int, b: int)
    requires n >= 0 && b > 0
    ensures 0 <= n / b && (n / b) * b <= n < (n / b) * b + b
  {
    var q, r := n / b, n % b;
    assert n == q * b + r && 0 <= r < b;
  }

  /** The cast `(int16_t)v`: the unique value in the int16 range congruent to
      v modulo 2^16; values already in range are kept. */
  function ToInt16(v: int): (r: int)
    ensures -0x8000 <= r < 0x8000
    ensures (v - r) % 0x1_0000 == 0
    ensures -0x8000 <= v < 0x8000 ==> r == v
  {
    (v + 0x8000) % 0x1_0000 - 0x8000
  }

  function Sum(s: seq<int>): int
  {
    if s == [] then 0 else s[0] + Sum(s[1..])
  }

  /** The differences a rotary shim reports when it starts from `prev` and
      reads the positions `ps` one per poll. */
  function Deltas(prev: int, ps: seq<int>): (r: seq<int>)
    ensures |r| == |ps|
    decreases ps
  {
    if ps == [] then [] else [ps[0] - prev] + Deltas(ps[0], ps[1..])
  }

  /** Over a run of polls the untruncated differences telescope: they add up
      to the latest position minus the starting one. */
  lemma {:induction false} DeltasTelescope(prev: int, ps: seq<int>)
    requires ps != []
    ensures Sum(Deltas(prev, ps)) == ps[|ps| - 1] - prev
    decreases ps
  {
    var r := Deltas(prev, ps);
    assert r[1..] == Deltas(ps[0], ps[1..]);
    if |ps| > 1 {
      DeltasTelescope(ps[0], ps[1..]);
    }
  }

  /** The last position of `ps`, or `d` when there is none. */
  function LastOr(d: int, ps: seq<int>): int
  {
    if ps == [] then d else ps[|ps| - 1]
  }

  /** One more poll adds exactly one difference: the new position minus the
      one read before it. */
  lemma {:induction false} DeltasAppend(prev: int, ps: seq<int>, p: int)
    ensures Deltas(prev, ps + [p]) == Deltas(prev, ps) + [p - LastOr(prev, ps)]
    decreases ps
  {
    if ps == [] {
      assert [] + [p] == [p];
    } else {
      assert (ps + [p])[0] == ps[0];
      assert (ps + [p])[1..] == ps[1..] + [p];
      DeltasAppend(ps[0], ps[1..], p);
      assert LastOr(ps[0], ps[1..]) == LastOr(prev, ps);
    }
  }

  function Narrowed(ds: seq<int>): (r: seq<int>)
    ensures |r| == |ds|
  {
    if ds == [] then [] else [ToInt16(ds[0])] + Narrowed(ds[1..])
  }

  /** What the toolkit accumulates from the int16 differences agrees with the
      sum of the true differences modulo 2^16. */
  lemma {:induction false} NarrowedSumCongruent(ds: seq<int>)
    ensures (Sum(Narrowed(ds)) - Sum(ds)) % 0x1_0000 == 0
  {
    if ds != [] {
      var n := Narrowed(ds);
      assert n[1..] == Narrowed(ds[1..]);
      NarrowedSumCongruent(ds[1..]);
      var a := ToInt16(ds[0]) - ds[0];
      var b := Sum(Narrowed(ds[1..])) - Sum(ds[1..]);
      assert a % 0x1_0000 == 0;
      MultiplesAdd(a, b);
      assert Sum(n) - Sum(ds) == a + b;
    }
  }

  lemma {:induction false} NarrowedAppend(ds: seq<int>, d: int)
    ensures Narrowed(ds + [d]) == Narrowed(ds) + [ToInt16(d)]
  {
    if ds == [] {
      assert [] + [d] == [d];
    } else {
      assert (ds + [d])[0] == ds[0];
      assert (ds + [d])[1..] == ds[1..] + [d];
      NarrowedAppend(ds[1..], d);
    }
  }

  lemma MultiplesAdd(a: int, b: int)
    requires a % 0x1_0000 == 0 && b % 0x1_0000 == 0
    ensures (a + b) % 0x1_0000 == 0
  {
  }

  /** Rotary shim state: the position read on the previous poll.
      `granularity` is ROTARY_ENCODER_GRANULARITY; `positions` records, as a
      ghost, every position read so far, `deltas` the untruncated
      differences computed from them and `reported` the int16 differences
      the toolkit was given. */
  class RotaryShim {
    const granularity: int
    var prevPos: int
    ghost var positions: seq<int>
    ghost var deltas: seq<int>
    ghost var reported: seq<int>

    /** prevPos starts at 0 and is always the last position read; the
        differences are those of the positions read from 0. */
    ghost predicate Valid()
      reads this
    {
      granularity > 0 && prevPos == LastOr(0, positions) && deltas == Deltas(0, positions) &&
      reported == Narrowed(deltas)
    }

    constructor (granularity: int)
      requires granularity > 0
      ensures Valid() && this.granularity == granularity
      ensures prevPos == 0 && positions == [] && deltas == [] && reported == []
    {
      this.granularity := granularity;
      prevPos := 0;
      positions := [];
      deltas := [];
      reported := [];
    }

    /** rotaryDriverRead: report the int16 difference between the encoder's
        navigation value divided by the granularity and the previous one,
        always as released, and remember the new position.  The untruncated
        differences computed so far add up to the current position. */
    method Read(data: IndevData, navigationValue: int) returns (out: IndevData)
      requires Valid()
      modifies this
      ensures Valid()
      ensures prevPos == DivTrunc(navigationValue, granularity)
      ensures positions == old(positions) + [prevPos]
      ensures deltas == old(deltas) + [prevPos - old(prevPos)]
      ensures reported == old(reported) + [out.encDiff]
      ensures Sum(deltas) == prevPos
      ensures (Sum(reported) - prevPos) % 0x1_0000 == 0
      ensures out == data.(encDiff := ToInt16(prevPos - old(prevPos)), state := Released)
    {
      var newPos := DivTrunc(navigationValue, granularity);
      var diff := newPos - prevPos;
      DeltasAppend(0, positions, newPos);
      DeltasTelescope(0, positions + [newPos]);
      prevPos := newPos;
      positions := positions + [newPos];
      NarrowedAppend(deltas, diff);
      deltas := deltas + [diff];
      out := data.(encDiff := ToInt16(diff), state := Released);
      reported := reported + [out.encDiff];
      NarrowedSumCongruent(deltas);
    }
  }
}
